/** path/filepath: what a path leads to once it is cleaned, for paths joined to a base. A path is a
    list of components from the root of the file system. */
module Paths {
  import opened Rules

  /** A component that cleaning leaves alone. */
  predicate PlainName(s: string) {
    s != "" && s != "." && s != ".." && '/' !in s
  }

  function Components(s: string): (r: seq<string>)
    ensures |r| >= 1
  {
    if s == [] then [[]]
    else
      var rest := Components(s[1..]);
      if s[0] == '/' then [[]] + rest else [[s[0]] + rest[0]] + rest[1..]
  }

  /** One component further: empty ones and dots stay, two dots go up. */
  function Step(path: seq<string>, part: string): seq<string> {
    if part == "" || part == "." then path
    else if part == ".." then (if path == [] then [] else path[..|path| - 1])
    else path + [part]
  }

  function Follow(path: seq<string>, parts: seq<string>): seq<string>
    decreases |parts|
  {
    if parts == [] then path else Follow(Step(path, parts[0]), parts[1..])
  }

  /** filepath.Join of a base and a name. */
  function PathTo(base: seq<string>, name: string): seq<string> {
    Follow(base, Components(name))
  }

  predicate Within(base: seq<string>, path: seq<string>) {
    base <= path
  }

  /** The entry of the base directory that a name leads to, if it leads to one. */
  function EntryOf(base: seq<string>, name: string): Option<string> {
    var p := PathTo(base, name);
    if Within(base, p) && |p| == |base| + 1 then Some(p[|base|]) else None
  }

  lemma {:induction false} OneComponent(s: string)
    requires '/' !in s
    ensures Components(s) == [s]
  {
    if s != [] {
      OneComponent(s[1..]);
      assert s == [s[0]] + s[1..];
    }
  }

  lemma {:induction false} LastComponent(s: string, rest: string)
    requires '/' !in s
    ensures Components(s + "/" + rest) == [s] + Components(rest)
  {
    var t := s + "/" + rest;
    if s == [] {
      assert t[0] == '/' && t[1..] == rest;
    } else {
      LastComponent(s[1..], rest);
      assert t[0] == s[0] && t[1..] == s[1..] + "/" + rest;
      assert s == [s[0]] + s[1..];
    }
  }

  lemma FollowOne(path: seq<string>, part: string)
    ensures Follow(path, [part]) == Step(path, part)
  {
    assert [part][1..] == [];
  }

  /** A plain name leads to itself. */
  lemma PlainNameLeadsToItself(base: seq<string>, v: string)
    requires PlainName(v)
    ensures PathTo(base, v) == base + [v] && EntryOf(base, v) == Some(v)
  {
    OneComponent(v);
    FollowOne(base, v);
  }

  /** And so it does with a slash after it or a dot and a slash before it. */
  lemma OtherSpellings(base: seq<string>, v: string)
    requires PlainName(v)
    ensures EntryOf(base, v + "/") == Some(v) && EntryOf(base, "./" + v) == Some(v)
  {
    LastComponent(v, "");
    FollowOne(base + [v], "");
    assert v + "/" + "" == v + "/" && [v] + Components("") == [v, ""];
    assert [v, ""][1..] == [""];
    assert Follow(base, [v, ""]) == Follow(Step(base, v), [""]);
    LastComponent(".", v);
    OneComponent(v);
    FollowOne(base, v);
    assert "." + "/" + v == "./" + v && ["."] + [v] == [".", v];
    assert [".", v][1..] == [v];
  }
}
