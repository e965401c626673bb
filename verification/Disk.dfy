/** The snapshot directory and the system calls that change it. A crash may fall between any
    two calls, so an operation is known by the list of calls it issues. */
module Disks {
  import opened Names
  import opened Rules
  import opened Rendering

  /** One entry of a manifest; sameAs is empty for a file that was written itself. */
  datatype ListEntry = ListEntry(etag: Digest, entries: nat, sameAs: string)

  type Lists = map<string, ListEntry>

  datatype Attribution = Attribution(source: string, license: string, url: string)

  datatype Manifest = Manifest(
    version: string,
    generatedAt: string,
    lists: Lists,
    tenants: map<string, Lists>,
    attribution: seq<Attribution>
  )

  /** What a file holds. A file being written, or cut off by a crash, is Torn. */
  datatype Content =
    | Stored(header: Header, body: Body)
    | Gzipped(header: Header, body: Body)
    | ManifestDoc(manifest: Manifest)
    | CurrentDoc(version: string)
    | Torn

  /** An entry of the root directory; files of a directory are keyed by slash-separated path. */
  datatype Node = Dir(files: map<string, Content>) | Plain(content: Content)

  type Root = map<string, Node>

  datatype Path = Top(name: string) | In(dir: string, rel: string)

  datatype Call =
    | RemoveAll(name: string)
    | Unlink(name: string, rel: string)
    | MakeDir(name: string)
    | Create(path: Path)
    | Fill(path: Path, content: Content)
    | Rename(from: Path, to: Path)
    | RenameDir(source: string, target: string)

  // ----- what each call does -----

  function ContentAt(root: Root, p: Path): Option<Content> {
    match p
    case Top(n) => if n in root && root[n].Plain? then Some(root[n].content) else None
    case In(d, r) => if d in root && root[d].Dir? && r in root[d].files then Some(root[d].files[r]) else None
  }

  function Put(root: Root, p: Path, c: Content): Root {
    match p
    case Top(n) => root[n := Plain(c)]
    case In(d, r) => if d in root && root[d].Dir? then root[d := Dir(root[d].files[r := c])] else root
  }

  function Erase(root: Root, p: Path): Root {
    match p
    case Top(n) => root - {n}
    case In(d, r) => if d in root && root[d].Dir? then root[d := Dir(root[d].files - {r})] else root
  }

  function Do(root: Root, c: Call): Root {
    match c
    case RemoveAll(n) => root - {n}
    case Unlink(n, r) => Erase(root, In(n, r))
    case MakeDir(n) => if n in root then root else root[n := Dir(map[])]
    case Create(p) => Put(root, p, Torn)
    case Fill(p, content) => Put(root, p, content)
    case Rename(from, to) =>
      (match ContentAt(root, from)
       case None => root
       case Some(content) => Put(Erase(root, from), to, content))
    case RenameDir(source, target) => if source in root then (root - {source})[target := root[source]] else root
  }

  function Run(root: Root, calls: seq<Call>): Root {
    if calls == [] then root else Do(Run(root, calls[..|calls| - 1]), calls[|calls| - 1])
  }

  lemma {:induction false} RunConcat(root: Root, a: seq<Call>, b: seq<Call>)
    ensures Run(root, a + b) == Run(Run(root, a), b)
  {
    if b == [] {
      assert a + b == a;
    } else {
      assert (a + b)[..|a + b| - 1] == a + b[..|b| - 1];
      RunConcat(root, a, b[..|b| - 1]);
    }
  }

  // ----- progress along a plan -----

  /** Between two points the calls issued are a part of the plan, from its start; all of it
      exactly when the operation succeeded. */
  ghost predicate Progressed<T(!new)>(before: seq<T>, after: seq<T>, plan: seq<T>, ok: bool) {
    exists n: nat :: Reached(before, after, plan, n) && (ok <==> n == |plan|)
  }

  /** The first n calls of the plan were issued. */
  predicate Reached<T(==)>(before: seq<T>, after: seq<T>, plan: seq<T>, n: nat) {
    n <= |plan| && after == before + plan[..n]
  }

  lemma Finished<T(!new)>(before: seq<T>, after: seq<T>, plan: seq<T>)
    ensures Progressed(before, after, plan, true) <==> after == before + plan
  {
    assert plan[..|plan|] == plan;
    if after == before + plan { assert Reached(before, after, plan, |plan|); }
  }

  lemma ThenMore<T(!new)>(a: seq<T>, b: seq<T>, c: seq<T>, p: seq<T>, q: seq<T>, ok: bool)
    requires Progressed(a, b, p, true) && Progressed(b, c, q, ok)
    ensures Progressed(a, c, p + q, ok)
  {
    Finished(a, b, p);
    var n: nat :| Reached(b, c, q, n) && (ok <==> n == |q|);
    assert (p + q)[..|p| + n] == p + q[..n];
    assert a + (p + q[..n]) == a + p + q[..n];
    assert Reached(a, c, p + q, |p| + n);
  }

  lemma StopsShort<T(!new)>(a: seq<T>, b: seq<T>, p: seq<T>, q: seq<T>)
    requires Progressed(a, b, p, false)
    ensures Progressed(a, b, p + q, false)
  {
    var n: nat :| Reached(a, b, p, n) && n != |p|;
    assert (p + q)[..n] == p[..n];
    assert Reached(a, b, p + q, n);
  }

  /** One more operation p on the way through done + p + rest. */
  lemma Advance<T(!new)>(a: seq<T>, b: seq<T>, c: seq<T>, done: seq<T>, p: seq<T>, rest: seq<T>, ok: bool)
    requires Progressed(a, b, done, true) && Progressed(b, c, p, ok)
    ensures ok ==> Progressed(a, c, done + p, true)
    ensures !ok ==> Progressed(a, c, done + p + rest, false)
  {
    ThenMore(a, b, c, done, p, ok);
    if !ok { StopsShort(a, c, done + p, rest); }
  }

  /** The file next to the target that writeFileSync fills first. */
  function TmpOf(p: Path): Path {
    match p
    case Top(n) => Top(n + ".tmp")
    case In(d, r) => In(d, r + ".tmp")
  }

  function WriteFilePlan(p: Path, content: Content): seq<Call> {
    [Create(TmpOf(p)), Fill(TmpOf(p), content), Rename(TmpOf(p), p)]
  }

  class Disk {
    const start: Root
    var root: Root
    /** How many more calls succeed before the disk fails. */
    var budget: nat
    ghost var calls: seq<Call>

    ghost predicate Valid()
      reads this
    {
      root == Run(start, calls)
    }

    constructor (start: Root, budget: nat)
      ensures Valid() && this.start == start && root == start && calls == []
    {
      this.start, root, this.budget, calls := start, start, budget, [];
    }

    /** One system call. A failed call changes nothing. */
    method Issue(c: Call) returns (ok: bool)
      requires Valid()
      modifies this
      ensures Valid()
      ensures Progressed(old(calls), calls, [c], ok)
      ensures root == if ok then Do(old(root), c) else old(root)
      ensures calls == if ok then old(calls) + [c] else old(calls)
      ensures ok <==> old(budget) > 0
    {
      if budget == 0 {
        assert Reached(old(calls), calls, [c], 0);
        return false;
      }
      budget := budget - 1;
      root := Do(root, c);
      calls := calls + [c];
      assert calls[..|calls| - 1] == old(calls);
      Finished(old(calls), calls, [c]);
      return true;
    }

    /** Writes a temporary file and renames it over the target. */
    method WriteFileSync(p: Path, content: Content) returns (ok: bool)
      requires Valid()
      modifies this
      ensures Valid()
      ensures Progressed(old(calls), calls, WriteFilePlan(p, content), ok)
    {
      var tmp := TmpOf(p);
      ghost var first, second, third := [Create(tmp)], [Fill(tmp, content)], [Rename(tmp, p)];
      assert WriteFilePlan(p, content) == first + (second + third) == first + second + third;
      ok := Issue(Create(tmp));
      Advance(old(calls), old(calls), calls, [], first, second + third, ok) by { Finished(old(calls), old(calls), []); }
      assert [] + first == first;
      if !ok { return; }
      ghost var c1 := calls;
      ok := Issue(Fill(tmp, content));
      Advance(old(calls), c1, calls, first, second, third, ok);
      if !ok { return; }
      ghost var c2 := calls;
      ok := Issue(Rename(tmp, p));
      ThenMore(old(calls), c2, calls, first + second, third, ok);
    }
  }
}
