/** The canonical rule shared by every package (internal/domainname, Rule and MatchType). */
module Rules {
  import opened Names

  datatype MatchType = Exact | Wildcard

  /** The number stored in the match_type column. */
  function MatchNumber(m: MatchType): nat {
    match m
    case Exact => 0
    case Wildcard => 1
  }

  datatype Rule = Rule(domain: string, matchType: MatchType)

  datatype Option<+T> = None | Some(value: T)

  datatype Result<+T, +E> = Ok(value: T) | Err(error: E)

  /** SHA-256 as an injective symbol: two digests agree exactly when the texts do. */
  datatype Digest = Sha256(text: string)

  /** Go's int16 conversion keeps the low 16 bits. */
  function Int16(n: int): int {
    (n + 0x8000) % 0x10000 - 0x8000
  }

  function Lookup<K, V>(m: map<K, V>, k: K): Option<V> {
    if k in m then Some(m[k]) else None
  }

  lemma SameLookups<K, V>(a: map<K, V>, b: map<K, V>)
    requires forall k :: k in a || k in b ==> Lookup(a, k) == Lookup(b, k)
    ensures a == b
  {
    forall k ensures k in a <==> k in b {
      if k in a || k in b { assert Lookup(a, k) == Lookup(b, k); }
    }
    forall k | k in a ensures a[k] == b[k] { assert Lookup(a, k) == Lookup(b, k); }
  }

  /** Some rule of the list sits at the name or above it. */
  ghost predicate CoveredBy(name: string, rules: seq<Rule>) {
    exists r :: r in rules && AtOrBelow(name, r.domain)
  }

  ghost predicate NonemptyDomains(rules: seq<Rule>) {
    forall r :: r in rules ==> r.domain != ""
  }
}
