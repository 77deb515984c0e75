/**
 * The ordered ring of trusted domains used by the login relay: which entry a
 * request is on, which entry comes next, and when a walk around the ring has
 * come back to the domain it started from. Domains are identified by a
 * checksum (crc32 in the module), passed in as an uninterpreted function.
 */
module DomainRing {
  import opened Php

  /** Index of the first configured domain that is a prefix of `uri`, if any. */
  function FirstPrefix(domains: seq<string>, uri: string): (r: Option<nat>)
    ensures r.Some? ==> r.value < |domains| && StartsWith(uri, domains[r.value])
    ensures r.Some? ==> forall j :: 0 <= j < r.value ==> !StartsWith(uri, domains[j])
    ensures r.None? <==> forall j :: 0 <= j < |domains| ==> !StartsWith(uri, domains[j])
  {
    if domains == [] then None
    else if StartsWith(uri, domains[0]) then Some(0)
    else
      match FirstPrefix(domains[1..], uri)
      case None => None
      case Some(k) => Some(k + 1)
  }

  /**
   * The domain a request is on: the first configured domain that is a prefix
   * of the request URI, else the request's own scheme and host.
   */
  function Resolve(domains: seq<string>, uri: string, schemeAndHost: string): (r: string)
    ensures (exists j :: 0 <= j < |domains| && StartsWith(uri, domains[j])) ==>
              exists k :: 0 <= k < |domains| && r == domains[k] && StartsWith(uri, r) &&
                          forall j :: 0 <= j < k ==> !StartsWith(uri, domains[j])
    ensures (forall j :: 0 <= j < |domains| ==> !StartsWith(uri, domains[j])) ==> r == schemeAndHost
  {
    match FirstPrefix(domains, uri)
    case Some(k) => domains[k]
    case None => schemeAndHost
  }

  /** Some configured entry has checksum `current`: the only case in which the locate loop stops. */
  predicate InRing(domains: seq<string>, checksum: string -> int, current: int) {
    exists j :: 0 <= j < |domains| && checksum(domains[j]) == current
  }

  /** Where the locate loop stops: the first entry whose checksum is `current`. */
  function Locate(domains: seq<string>, checksum: string -> int, current: int): (k: nat)
    requires InRing(domains, checksum, current)
    ensures k < |domains| && checksum(domains[k]) == current
    ensures forall j :: 0 <= j < k ==> checksum(domains[j]) != current
  {
    LocateFrom(domains, checksum, current, 0)
  }

  /** The locate loop with the array pointer at `i`: it stops at the first matching entry from `i` on. */
  function LocateFrom(domains: seq<string>, checksum: string -> int, current: int, i: nat): (k: nat)
    requires exists j :: i <= j < |domains| && checksum(domains[j]) == current
    ensures i <= k < |domains| && checksum(domains[k]) == current
    ensures forall j :: i <= j < k ==> checksum(domains[j]) != current
    decreases |domains| - i
  {
    if checksum(domains[i]) == current then i else LocateFrom(domains, checksum, current, i + 1)
  }

  /**
   * `next($domains) ?: reset($domains)` with the array pointer at `k`: the
   * following entry, or the first one when there is no following entry or
   * when the following entry is falsy in PHP.
   */
  function NextIndex(domains: seq<string>, k: nat): (r: nat)
    requires k < |domains|
    ensures r < |domains|
  {
    if k + 1 < |domains| && !Falsy(domains[k + 1]) then k + 1 else 0
  }

  /** The domain the relay visits after the one whose checksum is `current`. */
  function NextDomain(domains: seq<string>, checksum: string -> int, current: int): (r: string)
    requires InRing(domains, checksum, current)
    ensures r in domains && InRing(domains, checksum, checksum(r))
  {
    var n := NextIndex(domains, Locate(domains, checksum, current));
    assert checksum(domains[n]) == checksum(domains[n]);
    domains[n]
  }

  /** The ring is closed when the next domain is the one the flow started from. */
  predicate ClosesRing(domains: seq<string>, checksum: string -> int, current: int, referrer: int)
    requires InRing(domains, checksum, current)
  {
    checksum(NextDomain(domains, checksum, current)) == referrer
  }

  lemma NextWrapsAtLastEntry(domains: seq<string>, k: nat)
    requires k == |domains| - 1
    ensures NextIndex(domains, k) == 0
  {
  }

  lemma NextFollowsTruthyEntry(domains: seq<string>, k: nat)
    requires k + 1 < |domains| && !Falsy(domains[k + 1])
    ensures NextIndex(domains, k) == k + 1
  {
  }

  /**
   * An empty (or "0") entry right after the current one sends the relay back
   * to the first entry, so the entries after it are not visited from here.
   */
  lemma FalsyEntryWrapsToFirst(domains: seq<string>, k: nat)
    requires k + 1 < |domains| && Falsy(domains[k + 1])
    ensures NextIndex(domains, k) == 0
  {
  }

  /** A one-entry ring: the next domain is the entry itself. */
  lemma SingletonNextIsItself(domain: string, checksum: string -> int)
    ensures InRing([domain], checksum, checksum(domain))
    ensures NextDomain([domain], checksum, checksum(domain)) == domain
  {
    assert [domain][0] == domain;
  }

  /** No two entries have the same checksum. */
  predicate DistinctChecksums(domains: seq<string>, checksum: string -> int) {
    forall i, j :: 0 <= i < j < |domains| ==> checksum(domains[i]) != checksum(domains[j])
  }

  /** Every entry is where the locate loop stops for the entry's own checksum. */
  predicate LocatesItself(domains: seq<string>, checksum: string -> int) {
    forall i {:trigger Locate(domains, checksum, checksum(domains[i]))} ::
      0 <= i < |domains| ==> Locate(domains, checksum, checksum(domains[i])) == i
  }

  /** The locate loop finds every entry exactly when no two entries share a checksum. */
  lemma DistinctIffLocatesItself(domains: seq<string>, checksum: string -> int)
    ensures DistinctChecksums(domains, checksum) <==> LocatesItself(domains, checksum)
  {
    if DistinctChecksums(domains, checksum) {
      forall i | 0 <= i < |domains|
        ensures Locate(domains, checksum, checksum(domains[i])) == i
      {
        var k := Locate(domains, checksum, checksum(domains[i]));
        assert !(k < i);
      }
    }
    if LocatesItself(domains, checksum) {
      forall i, j | 0 <= i < j < |domains|
        ensures checksum(domains[i]) != checksum(domains[j])
      {
        assert Locate(domains, checksum, checksum(domains[i])) == i;
        assert Locate(domains, checksum, checksum(domains[j])) == j;
      }
    }
  }

  /**
   * A ring whose next-domain step visits the entries in list order:
   * non-empty, no entry falsy in PHP, and every entry found by the locate
   * loop for its own checksum, that is, no two entries with the same
   * checksum (`DistinctIffLocatesItself`). Whether a request made on an
   * entry resolves to that entry is a separate condition, `PrefixFree`.
   */
  predicate WellFormed(domains: seq<string>, checksum: string -> int) {
    && |domains| >= 1
    && (forall i :: 0 <= i < |domains| ==> !Falsy(domains[i]))
    && LocatesItself(domains, checksum)
  }

  /**
   * No configured entry is a prefix of another one. Without this, a request
   * on the longer entry resolves to the shorter one, which comes first or
   * not (`OverlappingEntriesResolveToFirst`).
   */
  predicate PrefixFree(domains: seq<string>) {
    forall i, j :: 0 <= i < |domains| && 0 <= j < |domains| && i != j ==> !StartsWith(domains[i], domains[j])
  }

  /** Of two prefixes of one text, the shorter is a prefix of the longer. */
  lemma CommonPrefix(text: string, a: string, b: string)
    requires StartsWith(text, a) && StartsWith(text, b) && |a| <= |b|
    ensures StartsWith(b, a)
  {
    assert b[..|a|] == text[..|b|][..|a|] == text[..|a|];
  }

  /** On a prefix-free list, a URI on an entry resolves to that entry, whatever follows it. */
  lemma {:induction false} ResolveOwnEntry(domains: seq<string>, k: nat, path: string, schemeAndHost: string)
    requires PrefixFree(domains) && k < |domains|
    ensures Resolve(domains, domains[k] + path, schemeAndHost) == domains[k]
  {
    var uri := domains[k] + path;
    assert uri[..|domains[k]|] == domains[k];
    var m := FirstPrefix(domains, uri).value;
    if m != k {
      if |domains[m]| <= |domains[k]| {
        CommonPrefix(uri, domains[m], domains[k]);
      } else {
        CommonPrefix(uri, domains[k], domains[m]);
      }
    }
  }

  /** Entries that overlap: a request on "https://a.com.au" resolves to an earlier "https://a.com". */
  lemma OverlappingEntriesResolveToFirst()
    ensures !PrefixFree(["https://a.com", "https://a.com.au"])
    ensures Resolve(["https://a.com", "https://a.com.au"], "https://a.com.au/user/login", "https://a.com.au")
            == "https://a.com"
  {
    var d := ["https://a.com", "https://a.com.au"];
    assert StartsWith(d[1], d[0]);
    assert StartsWith("https://a.com.au/user/login", d[0]);
  }

  /** Successor of position `k` on a ring of `n` positions. */
  function Succ(n: nat, k: nat): nat {
    if k + 1 < n then k + 1 else 0
  }

  /** Position reached from `k` after `j` successor steps. */
  function Advance(n: nat, k: nat, j: nat): (r: nat)
    ensures k < n ==> r < n
    decreases j
  {
    if j == 0 then k else Succ(n, Advance(n, k, j - 1))
  }

  lemma {:induction false} AdvanceWithinRing(n: nat, k: nat, j: nat)
    requires k < n && j < n
    ensures Advance(n, k, j) == if k + j < n then k + j else k + j - n
  {
    if j > 0 {
      AdvanceWithinRing(n, k, j - 1);
    }
  }

  /** After `n` steps on a ring of `n` positions the walk is back where it started. */
  lemma {:induction false} AdvanceFullCircle(n: nat, k: nat)
    requires k < n
    ensures Advance(n, k, n) == k
  {
    AdvanceWithinRing(n, k, n - 1);
  }

  /** On a well-formed ring the locate loop finds an entry's own index, and next is its successor. */
  lemma {:induction false} NextOnWellFormed(domains: seq<string>, checksum: string -> int, k: nat)
    requires WellFormed(domains, checksum) && k < |domains|
    ensures InRing(domains, checksum, checksum(domains[k]))
    ensures Locate(domains, checksum, checksum(domains[k])) == k
    ensures NextDomain(domains, checksum, checksum(domains[k])) == domains[Succ(|domains|, k)]
  {
  }

  /** Checksum reached from `start` after following the relay's next-domain step `j` times. */
  function Walk(domains: seq<string>, checksum: string -> int, start: int, j: nat): (c: int)
    requires InRing(domains, checksum, start)
    ensures InRing(domains, checksum, c)
    decreases j
  {
    if j == 0 then start
    else checksum(NextDomain(domains, checksum, Walk(domains, checksum, start, j - 1)))
  }

  /** Walking a well-formed ring from entry `o` visits the entries in ring order. */
  lemma {:induction false} WalkFollowsRingOrder(domains: seq<string>, checksum: string -> int, o: nat, j: nat)
    requires WellFormed(domains, checksum) && o < |domains|
    ensures InRing(domains, checksum, checksum(domains[o]))
    ensures Walk(domains, checksum, checksum(domains[o]), j) == checksum(domains[Advance(|domains|, o, j)])
  {
    NextOnWellFormed(domains, checksum, o);
    if j > 0 {
      WalkFollowsRingOrder(domains, checksum, o, j - 1);
      var k := Advance(|domains|, o, j - 1);
      NextOnWellFormed(domains, checksum, k);
      WalkStep(domains, checksum, checksum(domains[o]), j, k);
    }
  }

  /** One step of a walk that is on entry `k` whose next domain is its ring successor. */
  lemma WalkStep(domains: seq<string>, checksum: string -> int, start: int, j: nat, k: nat)
    requires InRing(domains, checksum, start) && j > 0 && k < |domains|
    requires Walk(domains, checksum, start, j - 1) == checksum(domains[k])
    requires Locate(domains, checksum, Walk(domains, checksum, start, j - 1)) == k
    ensures Walk(domains, checksum, start, j) == checksum(domains[NextIndex(domains, k)])
  {
  }

  /** Following next as many times as the ring has entries returns to the starting domain. */
  lemma {:induction false} WalkCycle(domains: seq<string>, checksum: string -> int, o: nat)
    requires WellFormed(domains, checksum) && o < |domains|
    ensures InRing(domains, checksum, checksum(domains[o]))
    ensures Walk(domains, checksum, checksum(domains[o]), |domains|) == checksum(domains[o])
  {
    WalkFollowsRingOrder(domains, checksum, o, |domains|);
    AdvanceFullCircle(|domains|, o);
  }

  /**
   * A flow started on entry `o` is on domain Walk(.., j) at hop `j` and
   * closes the ring there exactly when `j` is the last hop of a full circle:
   * never earlier, and never later.
   */
  lemma {:induction false} RingClosesAfterFullCircle(domains: seq<string>, checksum: string -> int, o: nat, j: nat)
    requires WellFormed(domains, checksum) && o < |domains|
    requires 1 <= j < |domains|
    ensures InRing(domains, checksum, checksum(domains[o]))
    ensures ClosesRing(domains, checksum, Walk(domains, checksum, checksum(domains[o]), j), checksum(domains[o]))
            <==> j == |domains| - 1
  {
    var n := |domains|;
    WalkFollowsRingOrder(domains, checksum, o, j);
    var here := Advance(n, o, j);
    NextOnWellFormed(domains, checksum, here);
    assert Succ(n, here) == Advance(n, o, j + 1);
    if j + 1 < n {
      AdvanceWithinRing(n, o, j + 1);
      var there := Advance(n, o, j + 1);
      assert Locate(domains, checksum, checksum(domains[there])) == there != o;
    } else {
      AdvanceFullCircle(n, o);
    }
  }

  /** On a one-entry ring every hop after the entry hop closes the ring. */
  lemma SingletonRingAlwaysCloses(domain: string, checksum: string -> int, current: int)
    requires current == checksum(domain)
    ensures InRing([domain], checksum, current)
    ensures ClosesRing([domain], checksum, current, checksum(domain))
  {
    SingletonNextIsItself(domain, checksum);
  }
}
