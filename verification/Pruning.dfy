/** Pruning the directory of fork caches: first by age, then by count. */
module Pruning {
  import opened Types

  const MAX_CACHE_COUNT: nat := 10
  /** Thirty days, in nanoseconds. */
  const TTL: int := 30 * 24 * 3_600 * 1_000_000_000

  datatype CacheInfo = CacheInfo(path: string, accessTime: int)

  predicate Expired(c: CacheInfo, cutoff: int) { c.accessTime < cutoff }

  /** The caches accessed at the cutoff or later. */
  function Unexpired(caches: set<CacheInfo>, cutoff: int): (u: set<CacheInfo>) {
    set c | c in caches && c.accessTime >= cutoff
  }

  /** `kept` is what pruning should leave: no expired cache, as many of the others
      as are allowed, and none that is older than one given up. */
  ghost predicate Keeps(caches: set<CacheInfo>, cutoff: int, kept: set<CacheInfo>) {
    var u := Unexpired(caches, cutoff);
    && kept <= u
    && |kept| == (if |u| > MAX_CACHE_COUNT then MAX_CACHE_COUNT else |u|)
    && forall c, k | c in u && c !in kept && k in kept :: c.accessTime <= k.accessTime
  }

  lemma Excess<T>(a: set<T>, b: set<T>) returns (x: T)
    requires |a| == |b| && a != b
    ensures x in a && x !in b
  {
    ProperSubset(a, b);
    x :| x in a && x !in b;
  }

  lemma ProperSubset<T>(a: set<T>, b: set<T>)
    ensures a <= b && a != b ==> |a| < |b|
  {
    if a <= b {
      assert b == a + (b - a);
    }
  }

  /** Unless access times tie, there is only one way to prune. */
  lemma KeepsUnique(caches: set<CacheInfo>, cutoff: int, a: set<CacheInfo>, b: set<CacheInfo>)
    requires Keeps(caches, cutoff, a) && Keeps(caches, cutoff, b)
    requires forall c, d | c in caches && d in caches && c.accessTime == d.accessTime :: c == d
    ensures a == b
  {
    if a != b {
      var x := Excess(a, b);
      var y := Excess(b, a);
    }
  }

  // ---------------------------------------------------------------- lists of caches

  ghost predicate Sorted(s: seq<CacheInfo>) {
    forall i, j | 0 <= i < j < |s| :: s[i].accessTime <= s[j].accessTime
  }

  /** Position i of a sorted list is where a cache belongs. */
  ghost predicate Fits(s: seq<CacheInfo>, i: nat, c: CacheInfo) {
    && i <= |s| && (i > 0 ==> s[i - 1].accessTime <= c.accessTime)
    && forall j | i <= j < |s| :: s[j].accessTime > c.accessTime
  }

  lemma InsertedSorted(s: seq<CacheInfo>, i: nat, c: CacheInfo)
    requires Sorted(s) && Fits(s, i, c)
    ensures Sorted(s[..i] + [c] + s[i..])
  {
    var t := s[..i] + [c] + s[i..];
    forall j, k | 0 <= j < k < |t| ensures t[j].accessTime <= t[k].accessTime {
      assert j < i ==> t[j] == s[j] && s[j].accessTime <= s[i - 1].accessTime;
      assert k > i ==> t[k] == s[k - 1];
      assert k < i ==> t[k] == s[k];
      assert j > i ==> t[j] == s[j - 1];
    }
  }

  /** `s` is the list in the order of access times. */
  ghost predicate Arranged(s: seq<CacheInfo>, list: seq<CacheInfo>) {
    Sorted(s) && multiset(s) == multiset(list)
  }

  lemma OneMoreArranged(s: seq<CacheInfo>, i: nat, list: seq<CacheInfo>, n: nat)
    requires n < |list| && Arranged(s, list[..n]) && Fits(s, i, list[n])
    ensures i <= |s| && Arranged(s[..i] + [list[n]] + s[i..], list[..n + 1])
  {
    hide Sorted;
    InsertedSorted(s, i, list[n]);
    assert s == s[..i] + s[i..];
    assert list[..n + 1] == list[..n] + [list[n]];
  }

  lemma NothingArranged(list: seq<CacheInfo>)
    ensures Arranged([], list[..0])
  {}

  lemma AllArranged(s: seq<CacheInfo>, list: seq<CacheInfo>)
    requires Arranged(s, list[..|list|])
    ensures Sorted(s) && multiset(s) == multiset(list)
  {
    assert list[..|list|] == list;
  }

  method Position(s: seq<CacheInfo>, c: CacheInfo) returns (i: nat)
    ensures Fits(s, i, c)
  {
    i := |s|;
    while i > 0 && s[i - 1].accessTime > c.accessTime
      invariant i <= |s| && forall j | i <= j < |s| :: s[j].accessTime > c.accessTime
    {
      i := i - 1;
    }
  }

  /** Oldest first; the order of ties is left open. */
  method SortByAccessTime(list: seq<CacheInfo>) returns (s: seq<CacheInfo>)
    ensures Sorted(s) && multiset(s) == multiset(list)
  {
    hide Arranged, Fits, Sorted;
    s := [];
    NothingArranged(list);
    for n := 0 to |list|
      invariant Arranged(s, list[..n])
    {
      var i := Position(s, list[n]);
      OneMoreArranged(s, i, list, n);
      s := s[..i] + [list[n]] + s[i..];
    }
    AllArranged(s, list);
  }

  function Young(s: seq<CacheInfo>, cutoff: int): (y: seq<CacheInfo>) {
    if s == [] then []
    else
      var n := |s| - 1;
      Young(s[..n], cutoff) + if Expired(s[n], cutoff) then [] else [s[n]]
  }

  /** Filtering keeps exactly the unexpired caches, in order. */
  lemma {:induction false} YoungIs(s: seq<CacheInfo>, cutoff: int)
    requires Sorted(s) && NoDuplicates(s)
    ensures var y := Young(s, cutoff);
            Sorted(y) && NoDuplicates(y) && Elements(y) == Unexpired(Elements(s), cutoff)
  {
    if s != [] {
      var n := |s| - 1;
      YoungIs(s[..n], cutoff);
      var y := Young(s[..n], cutoff);
      assert Elements(s) == Elements(s[..n]) + {s[n]};
      forall c | c in y ensures c.accessTime <= s[n].accessTime && c != s[n] {
        assert c in Elements(y);
        assert c in s[..n];
      }
      AppendedNewest(y, s[n]);
      assert Unexpired(Elements(s), cutoff) ==
             Unexpired(Elements(s[..n]), cutoff) + (if Expired(s[n], cutoff) then {} else {s[n]});
    }
  }

  lemma AppendedNewest(y: seq<CacheInfo>, c: CacheInfo)
    requires Sorted(y) && NoDuplicates(y) && forall d | d in y :: d.accessTime <= c.accessTime && d != c
    ensures Sorted(y + [c]) && NoDuplicates(y + [c]) && Elements(y + [c]) == Elements(y) + {c}
  {}

  lemma NewestAreLast(y: seq<CacheInfo>, drop: nat, c: CacheInfo, k: CacheInfo)
    requires Sorted(y) && drop <= |y| && c in y && c !in y[drop..] && k in y[drop..]
    ensures c.accessTime <= k.accessTime
  {
    var i :| 0 <= i < |y| && y[i] == c;
    var j :| 0 <= j < |y[drop..]| && y[drop..][j] == k;
    assert forall x | drop <= x < |y| :: y[x] == y[drop..][x - drop];
    assert i < drop && y[drop + j] == k;
  }

  lemma SuffixDistinct<T>(y: seq<T>, drop: nat)
    requires NoDuplicates(y) && drop <= |y|
    ensures |Elements(y)| == |y| && |Elements(y[drop..])| == |y| - drop && Elements(y[drop..]) <= Elements(y)
  {
    DistinctByCardinality(y);
    DistinctByCardinality(y[drop..]);
  }

  /** The newest entries of a sorted list are a proper choice. */
  lemma LastAreKept(s: seq<CacheInfo>, cutoff: int)
    requires Sorted(s) && NoDuplicates(s)
    ensures var y := Young(s, cutoff);
            var drop := if |y| > MAX_CACHE_COUNT then |y| - MAX_CACHE_COUNT else 0;
            Keeps(Elements(s), cutoff, Elements(y[drop..]))
  {
    hide Young, Unexpired, Sorted, NoDuplicates;
    YoungIs(s, cutoff);
    var y := Young(s, cutoff);
    var drop := if |y| > MAX_CACHE_COUNT then |y| - MAX_CACHE_COUNT else 0;
    SuffixDistinct(y, drop);
    forall c, k | c in Elements(y) && c !in Elements(y[drop..]) && k in Elements(y[drop..])
      ensures c.accessTime <= k.accessTime
    {
      NewestAreLast(y, drop, c, k);
    }
  }

  lemma PermutedDistinct(s: seq<CacheInfo>, t: seq<CacheInfo>)
    requires multiset(s) == multiset(t) && NoDuplicates(s)
    ensures NoDuplicates(t) && Elements(t) == Elements(s)
  {
    forall x ensures x in s <==> x in t {
      assert x in multiset(s) <==> x in multiset(t);
    }
    assert Elements(t) == Elements(s);
    assert |s| == |multiset(s)| == |multiset(t)| == |t|;
    DistinctByCardinality(s);
    DistinctByCardinality(t);
  }

  // ---------------------------------------------------------------- the directory

  class CacheDirectory {
    var present: set<string>
    /** The paths whose removal succeeds. */
    const removable: set<string>

    constructor (present: set<string>, removable: set<string>)
      ensures this.present == present && this.removable == removable
    {
      this.present, this.removable := present, removable;
    }

    method RemoveAll(path: string)
      modifies this
      ensures present == old(present) - ({path} * removable)
    {
      if path in removable {
        present := present - {path};
      }
    }

    function Removed(caches: set<CacheInfo>): (paths: set<string>) {
      set c | c in caches && c.path in removable :: c.path
    }

    /** Shifts the entries behind position i down by one, in place. */
    static method DeleteAt(a: array<CacheInfo>, n: nat, i: nat)
      requires i < n <= a.Length
      modifies a
      ensures a[..n - 1] == old(a[..i]) + old(a[i + 1..n])
    {
      for k := i to n - 1
        invariant forall j | 0 <= j < i :: a[j] == old(a[j])
        invariant forall j | i <= j < k :: a[j] == old(a[j + 1])
        invariant forall j | k <= j < n :: a[j] == old(a[j])
      {
        a[k] := a[k + 1];
      }
    }

    /** The expired caches of a list. */
    static function Old(s: seq<CacheInfo>, cutoff: int): (o: set<CacheInfo>) {
      Elements(s) - Unexpired(Elements(s), cutoff)
    }

    static lemma OldMore(s: seq<CacheInfo>, i: nat, cutoff: int)
      requires i < |s|
      ensures Old(s[..i + 1], cutoff) == Old(s[..i], cutoff) + if Expired(s[i], cutoff) then {s[i]} else {}
      ensures Young(s[..i + 1], cutoff) == Young(s[..i], cutoff) + if Expired(s[i], cutoff) then [] else [s[i]]
    {
      assert s[..i + 1] == s[..i] + [s[i]];
      assert Elements(s[..i + 1]) == Elements(s[..i]) + {s[i]};
      assert s[..i + 1][..i] == s[..i];
    }

    /** The first `seen` caches of a list are done: those to keep are at the front of
        the array, and the rest of the list follows them. */
    static ghost predicate Partway(s: seq<CacheInfo>, i: nat, n: nat, all: seq<CacheInfo>, seen: nat, cutoff: int) {
      && i <= n <= |s| && seen <= |all| && n - i == |all| - seen
      && s[i..n] == all[seen..] && s[..i] == Young(all[..seen], cutoff)
    }

    static lemma NextIs(s: seq<CacheInfo>, i: nat, n: nat, all: seq<CacheInfo>, seen: nat, cutoff: int)
      requires Partway(s, i, n, all, seen, cutoff) && i < n
      ensures n <= |s| && seen < |all| && s[i] == all[seen] && s[i + 1..n] == all[seen + 1..]
    {
      hide Young;
      assert s[i..n][0] == s[i] && s[i + 1..n] == s[i..n][1..];
    }

    static lemma KeepsNext(s: seq<CacheInfo>, i: nat, n: nat, all: seq<CacheInfo>, seen: nat, cutoff: int)
      requires Partway(s, i, n, all, seen, cutoff) && i < n <= |s| && !Expired(s[i], cutoff)
      ensures Partway(s, i + 1, n, all, seen + 1, cutoff)
    {
      hide Young, Old;
      NextIs(s, i, n, all, seen, cutoff);
      OldMore(all, seen, cutoff);
      assert s[..i + 1] == s[..i] + [s[i]];
    }

    static lemma DropsNext(s: seq<CacheInfo>, t: seq<CacheInfo>, i: nat, n: nat, all: seq<CacheInfo>, seen: nat, cutoff: int)
      requires Partway(s, i, n, all, seen, cutoff) && i < n <= |s| == |t| && Expired(s[i], cutoff)
      requires t[..n - 1] == s[..i] + s[i + 1..n]
      ensures Partway(t, i, n - 1, all, seen + 1, cutoff)
    {
      hide Young, Old;
      NextIs(s, i, n, all, seen, cutoff);
      OldMore(all, seen, cutoff);
      assert t[..i] == t[..n - 1][..i] == s[..i];
      assert t[i..n - 1] == t[..n - 1][i..] == s[i + 1..n];
    }

    static lemma AllDone(s: seq<CacheInfo>, n: nat, all: seq<CacheInfo>, seen: nat, cutoff: int)
      requires Partway(s, n, n, all, seen, cutoff)
      ensures n <= |s| && all[..seen] == all && s[..n] == Young(all, cutoff)
    {
      assert all[..seen] == all;
    }

    /** Removes the expired caches and deletes them from the list in place. */
    method PruneByAge(a: array<CacheInfo>, cutoff: int) returns (n: nat)
      modifies this, a
      ensures n <= a.Length && a[..n] == Young(old(a[..]), cutoff)
      ensures present == old(present) - Removed(Old(old(a[..]), cutoff))
    {
      hide Old, Young, Partway, Left;
      ghost var all, before := a[..], present;
      n := a.Length;
      var i := 0;
      ghost var seen := 0;
      Nothing(before, all, cutoff);
      while i < n
        invariant i <= n <= a.Length && seen <= |all| && Partway(a[..], i, n, all, seen, cutoff)
        invariant present == Left(before, all[..seen], cutoff)
        decreases n - i
      {
        NextIs(a[..], i, n, all, seen, cutoff);
        LeftNext(before, all, seen, cutoff);
        if a[i].accessTime < cutoff {
          ghost var s := a[..];
          RemoveAll(a[i].path);
          DeleteAt(a, n, i);
          DropsNext(s, a[..], i, n, all, seen, cutoff);
          n := n - 1;
        } else {
          KeepsNext(a[..], i, n, all, seen, cutoff);
          i := i + 1;
        }
        seen := seen + 1;
      }
      AllDone(a[..], n, all, seen, cutoff);
      LeftIs(before, all, cutoff);
    }

    /** The paths left once the expired caches of a list are removed. */
    function Left(before: set<string>, s: seq<CacheInfo>, cutoff: int): (paths: set<string>) {
      before - Removed(Old(s, cutoff))
    }

    lemma LeftIs(before: set<string>, s: seq<CacheInfo>, cutoff: int)
      ensures Left(before, s, cutoff) == before - Removed(Old(s, cutoff))
    {}

    lemma Nothing(before: set<string>, all: seq<CacheInfo>, cutoff: int)
      ensures Partway(all, 0, |all|, all, 0, cutoff) && Left(before, all[..0], cutoff) == before
    {
      assert all[..0] == [];
    }

    lemma LeftNext(before: set<string>, all: seq<CacheInfo>, seen: nat, cutoff: int)
      requires seen < |all|
      ensures Left(before, all[..seen + 1], cutoff) ==
              if Expired(all[seen], cutoff) then Left(before, all[..seen], cutoff) - ({all[seen].path} * removable)
              else Left(before, all[..seen], cutoff)
    {
      hide Old, Young, Removed;
      OldMore(all, seen, cutoff);
      var gone := Old(all[..seen], cutoff);
      if Expired(all[seen], cutoff) { RemovedMore(gone, all[seen]); } else { assert gone + {} == gone; }
    }

    lemma RemovedMore(gone: set<CacheInfo>, c: CacheInfo)
      ensures Removed(gone + {c}) == Removed(gone) + ({c.path} * removable)
    {}

    /** Removes the oldest of the remaining caches, down to the allowed number. */
    method PruneByCount(s: seq<CacheInfo>)
      modifies this
      ensures present == old(present) -
                Removed(Elements(s[..if |s| > MAX_CACHE_COUNT then |s| - MAX_CACHE_COUNT else 0]))
    {
      if |s| > MAX_CACHE_COUNT {
        for i := 0 to |s| - MAX_CACHE_COUNT
          invariant present == old(present) - Removed(Elements(s[..i]))
        {
          assert Elements(s[..i + 1]) == Elements(s[..i]) + {s[i]} by { assert s[..i + 1] == s[..i] + [s[i]]; }
          RemovedMore(Elements(s[..i]), s[i]);
          RemoveAll(s[i].path);
        }
      }
    }

    /** Prunes the listed caches. What is given up is removed, as far as removal
        succeeds, and nothing else is. */
    method PruneCache(list: seq<CacheInfo>, now: int) returns (ghost kept: set<CacheInfo>)
      requires forall i, j | 0 <= i < j < |list| :: list[i].path != list[j].path
      modifies this
      ensures Keeps(Elements(list), now - TTL, kept)
      ensures present == old(present) - Removed(Elements(list) - kept)
    {
      hide Young, Keeps, Sorted, Unexpired, Removed;
      var s := SortByAccessTime(list);
      PermutedDistinct(list, s);
      hide NoDuplicates;
      var a := new CacheInfo[|s|](i requires 0 <= i < |s| => s[i]);
      assert a[..] == s;
      var n := PruneByAge(a, now - TTL);
      PruneByCount(a[..n]);
      LastAreKept(s, now - TTL);
      YoungIs(s, now - TTL);
      ghost var drop := if n > MAX_CACHE_COUNT then n - MAX_CACHE_COUNT else 0;
      kept := Elements(a[..n][drop..]);
      SomeOf(Elements(list), now - TTL);
      SplitRemoved(Elements(list), Unexpired(Elements(list), now - TTL), a[..n], drop);
    }

    static lemma SomeOf(all: set<CacheInfo>, cutoff: int)
      ensures Unexpired(all, cutoff) <= all
    {}

    lemma SplitRemoved(all: set<CacheInfo>, u: set<CacheInfo>, young: seq<CacheInfo>, drop: nat)
      requires drop <= |young| && NoDuplicates(young) && Elements(young) == u && u <= all
      ensures Removed(all - Elements(young[drop..])) == Removed(all - u) + Removed(Elements(young[..drop]))
    {
      forall c ensures c in all - Elements(young[drop..]) <==> c in (all - u) + Elements(young[..drop]) {
        if c in u {
          var i :| 0 <= i < |young| && young[i] == c;
          if i < drop {
            assert young[..drop][i] == c;
            assert forall j | drop <= j < |young| :: young[j] != c;
          } else {
            assert young[drop..][i - drop] == c;
            assert forall j | 0 <= j < drop :: young[j] != c;
          }
        }
      }
      assert all - Elements(young[drop..]) == (all - u) + Elements(young[..drop]);
    }
  }
}
