/** The fork store: registers are looked up in a local overlay, then in a cache
    that knows no heights, then on a remote chain pinned at the fork height. */
module Remote {
  import opened Types
  import opened Tables
  import opened Keys
  import opened Storage
  import opened Scheduled
  import opened StoreQueries
  import opened ForkBlocks
  import Sqlite

  /** The remote chain: the value of a register at a height, if it has one. */
  type RemoteChain = (nat, RegisterID) -> Option<RegisterValue>

  datatype Access =
    | Read(id: RegisterID, height: nat)
    | CommitBlock(commit: Commit)
    | Rollback(height: nat)

  datatype Fork = Fork(overlay: Db, cache: Ledger)

  /** Heights after the fork are looked up at the fork. */
  function Clamp(fork: nat, height: nat): (h: nat) { if height > fork then fork else height }

  function RemoteValue(remote: RemoteChain, height: nat, id: RegisterID): (value: RegisterValue) {
    match remote(height, id)
    case None => []
    case Some(value) => value
  }

  function Local(db: Db, height: nat): (l: Ledger) { LedgerAt(db.tables.registers, height) }

  function ReadThrough(remote: RemoteChain, fork: nat, f: Fork, id: RegisterID,
                       height: nat): (r: (Fork, RegisterValue)) {
    var local := Local(f.overlay, height);
    if id in local then (f, local[id])
    else if id in f.cache then (f, f.cache[id])
    else
      var value := RemoteValue(remote, Clamp(fork, height), id);
      (f.(cache := f.cache[id := value]), value)
  }

  /** The same read without a cache: the last local write at or below the height,
      even an empty one, and the remote value where there is none. */
  function ReadPlainly(remote: RemoteChain, fork: nat, db: Db, id: RegisterID, height: nat): (value: RegisterValue) {
    var local := Local(db, height);
    if id in local then local[id] else RemoteValue(remote, Clamp(fork, height), id)
  }

  /** What an access does to the overlay. */
  function Accessed(ids: Hashes, db: Db, a: Access): (after: Db) {
    match a
    case Read(_, _) => db
    case CommitBlock(c) => if CommitCheck(c).None? then Committed(ids, db, c) else db
    case Rollback(h) => if RollbackAllowed(db, h) then RolledBack(db, h) else db
  }

  function Overlay(ids: Hashes, db: Db, run: seq<Access>): (after: Db) {
    if run == [] then db
    else Accessed(ids, Overlay(ids, db, run[..|run| - 1]), run[|run| - 1])
  }

  /** The store after a run, and the values its reads returned. */
  function Cached(ids: Hashes, remote: RemoteChain, fork: nat, f: Fork,
                  run: seq<Access>): (r: (Fork, seq<RegisterValue>)) {
    if run == [] then (f, [])
    else
      var n := |run| - 1;
      var (g, values) := Cached(ids, remote, fork, f, run[..n]);
      match run[n]
      case Read(id, h) =>
        var (next, value) := ReadThrough(remote, fork, g, id, h);
        (next, values + [value])
      case _ => (g.(overlay := Accessed(ids, g.overlay, run[n])), values)
  }

  function Uncached(ids: Hashes, remote: RemoteChain, fork: nat, db: Db,
                    run: seq<Access>): (values: seq<RegisterValue>) {
    if run == [] then []
    else
      var n := |run| - 1;
      var values := Uncached(ids, remote, fork, db, run[..n]);
      match run[n]
      case Read(id, h) => values + [ReadPlainly(remote, fork, Overlay(ids, db, run[..n]), id, h)]
      case _ => values
  }

  lemma {:induction false} OverlayIs(ids: Hashes, remote: RemoteChain, fork: nat, f: Fork, run: seq<Access>)
    ensures Cached(ids, remote, fork, f, run).0.overlay == Overlay(ids, f.overlay, run)
    ensures |Cached(ids, remote, fork, f, run).1| == |Uncached(ids, remote, fork, f.overlay, run)|
  {
    hide Committed, RolledBack, CommitCheck, Local;
    if run != [] { OverlayIs(ids, remote, fork, f, run[..|run| - 1]); }
  }

  // ---------------------------------------------------------------- reads at or above the fork

  /** Every cached value is the remote value at the fork height. */
  ghost predicate Honest(remote: RemoteChain, fork: nat, cache: Ledger) {
    forall id | id in cache :: cache[id] == RemoteValue(remote, fork, id)
  }

  /** If every read is at or above the fork height, any interleaving of reads,
      commits and rollbacks returns what it would return without a cache. */
  lemma {:induction false} ForkReads(ids: Hashes, remote: RemoteChain, fork: nat, f: Fork, run: seq<Access>)
    requires Honest(remote, fork, f.cache)
    requires forall a | a in run && a.Read? :: a.height >= fork
    ensures var (g, values) := Cached(ids, remote, fork, f, run);
            values == Uncached(ids, remote, fork, f.overlay, run) && Honest(remote, fork, g.cache)
  {
    hide Accessed, Local, RemoteValue;
    if run != [] {
      var n := |run| - 1;
      ForkReads(ids, remote, fork, f, run[..n]);
      OverlayIs(ids, remote, fork, f, run[..n]);
      assert run[n] in run;
    }
  }

  // ---------------------------------------------------------------- exactly when the cache is invisible

  /** Where access i looks up a register, if it is a read of that register that
      the overlay cannot answer. */
  function LookedUpAt(ids: Hashes, fork: nat, db: Db, run: seq<Access>, i: nat, id: RegisterID): (h: Option<nat>)
    requires i < |run|
  {
    if run[i].Read? && run[i].id == id && id !in Local(Overlay(ids, db, run[..i]), run[i].height)
    then Some(Clamp(fork, run[i].height))
    else None
  }

  /** Each register that falls through the overlay is always looked up at one
      height. */
  ghost predicate Coherent(ids: Hashes, fork: nat, db: Db, run: seq<Access>) {
    forall i, j, id | 0 <= i < j < |run| && LookedUpAt(ids, fork, db, run, i, id).Some?
                      && LookedUpAt(ids, fork, db, run, j, id).Some? ::
      LookedUpAt(ids, fork, db, run, i, id) == LookedUpAt(ids, fork, db, run, j, id)
  }

  /** Registers cached before the run are looked up at the fork height only. */
  ghost predicate CachedAtFork(ids: Hashes, fork: nat, f: Fork, run: seq<Access>) {
    forall i, id | 0 <= i < |run| && id in f.cache && LookedUpAt(ids, fork, f.overlay, run, i, id).Some? ::
      LookedUpAt(ids, fork, f.overlay, run, i, id) == Some(fork)
  }

  /** The height at which a register is looked up for the first time; one cached
      before the run was looked up at the fork height. */
  function FirstLookup(ids: Hashes, fork: nat, f: Fork, run: seq<Access>, id: RegisterID): (h: Option<nat>) {
    if run == [] then (if id in f.cache then Some(fork) else None)
    else
      var n := |run| - 1;
      var before := FirstLookup(ids, fork, f, run[..n], id);
      if before.Some? then before else LookedUpAt(ids, fork, f.overlay, run, n, id)
  }

  lemma SameInPrefix(ids: Hashes, fork: nat, db: Db, run: seq<Access>, i: nat, id: RegisterID)
    requires i < |run| - 1
    ensures LookedUpAt(ids, fork, db, run, i, id) == LookedUpAt(ids, fork, db, run[..|run| - 1], i, id)
  {
    assert run[..|run| - 1][..i] == run[..i];
  }

  lemma SteadyPrefix(ids: Hashes, fork: nat, f: Fork, run: seq<Access>)
    requires run != [] && Coherent(ids, fork, f.overlay, run) && CachedAtFork(ids, fork, f, run)
    ensures Coherent(ids, fork, f.overlay, run[..|run| - 1]) && CachedAtFork(ids, fork, f, run[..|run| - 1])
  {
    hide LookedUpAt;
    var less, db := run[..|run| - 1], f.overlay;
    forall i: nat, id: RegisterID | i < |less|
      ensures LookedUpAt(ids, fork, db, less, i, id) == LookedUpAt(ids, fork, db, run, i, id)
    {
      SameInPrefix(ids, fork, db, run, i, id);
    }
  }

  /** A first lookup was made before the run, or by one of its accesses. */
  lemma {:induction false} FirstIsOne(ids: Hashes, fork: nat, f: Fork, run: seq<Access>, id: RegisterID)
    ensures var first := FirstLookup(ids, fork, f, run, id);
            if id in f.cache then first == Some(fork)
            else first.Some? ==> exists i: nat | i < |run| :: LookedUpAt(ids, fork, f.overlay, run, i, id) == first
  {
    hide LookedUpAt;
    if run != [] {
      var n, db := |run| - 1, f.overlay;
      FirstIsOne(ids, fork, f, run[..n], id);
      if id !in f.cache && FirstLookup(ids, fork, f, run[..n], id).Some? {
        var i: nat :| i < n && LookedUpAt(ids, fork, db, run[..n], i, id) == FirstLookup(ids, fork, f, run[..n], id);
        SameInPrefix(ids, fork, db, run, i, id);
      }
    }
  }

  /** In a coherent run every lookup is where the first one was. */
  lemma {:induction false} FirstFixesAll(ids: Hashes, fork: nat, f: Fork, run: seq<Access>, i: nat, id: RegisterID)
    requires Coherent(ids, fork, f.overlay, run) && CachedAtFork(ids, fork, f, run)
    requires i < |run| && LookedUpAt(ids, fork, f.overlay, run, i, id).Some?
    ensures FirstLookup(ids, fork, f, run, id) == LookedUpAt(ids, fork, f.overlay, run, i, id)
  {
    hide LookedUpAt;
    var n, db := |run| - 1, f.overlay;
    if i < n {
      SteadyPrefix(ids, fork, f, run);
      SameInPrefix(ids, fork, db, run, i, id);
      FirstFixesAll(ids, fork, f, run[..n], i, id);
    } else {
      FirstIsOne(ids, fork, f, run[..n], id);
      if id !in f.cache && FirstLookup(ids, fork, f, run[..n], id).Some? {
        var j: nat :| j < n && LookedUpAt(ids, fork, db, run[..n], j, id) == FirstLookup(ids, fork, f, run[..n], id);
        SameInPrefix(ids, fork, db, run, j, id);
      }
    }
  }

  /** The cache holds each register as its first lookup found it. */
  lemma {:induction false} CacheIs(ids: Hashes, remote: RemoteChain, fork: nat, f: Fork, run: seq<Access>,
                                   id: RegisterID)
    requires Honest(remote, fork, f.cache)
    ensures var cache := Cached(ids, remote, fork, f, run).0.cache;
            match FirstLookup(ids, fork, f, run, id)
            case None => id !in cache
            case Some(h) => id in cache && cache[id] == RemoteValue(remote, h, id)
  {
    hide Accessed, Local, RemoteValue, Clamp;
    if run != [] {
      var n := |run| - 1;
      CacheIs(ids, remote, fork, f, run[..n], id);
      OverlayIs(ids, remote, fork, f, run[..n]);
    }
  }

  ghost predicate Transparent(ids: Hashes, remote: RemoteChain, fork: nat, f: Fork, run: seq<Access>) {
    Cached(ids, remote, fork, f, run).1 == Uncached(ids, remote, fork, f.overlay, run)
  }

  /** What the last read of a run returns, with and without the cache. */
  lemma LastRead(ids: Hashes, remote: RemoteChain, fork: nat, f: Fork, run: seq<Access>)
    returns (cached: RegisterValue, plain: RegisterValue)
    requires Honest(remote, fork, f.cache) && run != [] && run[|run| - 1].Read?
    ensures var n := |run| - 1;
            var id := run[n].id;
            var x, y := Cached(ids, remote, fork, f, run[..n]).1, Uncached(ids, remote, fork, f.overlay, run[..n]);
            var here, first := LookedUpAt(ids, fork, f.overlay, run, n, id), FirstLookup(ids, fork, f, run[..n], id);
            && |x| == |y|
            && Cached(ids, remote, fork, f, run).1 == x + [cached]
            && Uncached(ids, remote, fork, f.overlay, run) == y + [plain]
            && if here.None? then cached == plain
               else plain == RemoteValue(remote, here.value, id)
                    && cached == RemoteValue(remote, if first.Some? then first.value else here.value, id)
  {
    hide Accessed, Local, RemoteValue, Clamp, FirstLookup, Honest;
    var n := |run| - 1;
    OverlayIs(ids, remote, fork, f, run[..n]);
    CacheIs(ids, remote, fork, f, run[..n], run[n].id);
    cached := ReadThrough(remote, fork, Cached(ids, remote, fork, f, run[..n]).0, run[n].id, run[n].height).1;
    plain := ReadPlainly(remote, fork, Overlay(ids, f.overlay, run[..n]), run[n].id, run[n].height);
  }

  ghost predicate NoneLookedUp(ids: Hashes, fork: nat, db: Db, run: seq<Access>, i: nat)
    requires i < |run|
  {
    forall id :: LookedUpAt(ids, fork, db, run, i, id).None?
  }

  /** Whatever access i looks up was first looked up there, if ever before. */
  ghost predicate AsBefore(ids: Hashes, fork: nat, f: Fork, run: seq<Access>, i: nat)
    requires i < |run|
  {
    forall id | LookedUpAt(ids, fork, f.overlay, run, i, id).Some? && FirstLookup(ids, fork, f, run[..i], id).Some? ::
      FirstLookup(ids, fork, f, run[..i], id) == LookedUpAt(ids, fork, f.overlay, run, i, id)
  }

  /** An access that is not a read returns nothing. */
  lemma NoRead(ids: Hashes, remote: RemoteChain, fork: nat, f: Fork, run: seq<Access>)
    requires run != [] && !run[|run| - 1].Read?
    ensures Transparent(ids, remote, fork, f, run) <==> Transparent(ids, remote, fork, f, run[..|run| - 1])
    ensures NoneLookedUp(ids, fork, f.overlay, run, |run| - 1)
  {
    hide Accessed;
  }

  /** A run is transparent when it was so before its last read and that read
      returns the same with and without the cache. */
  lemma OneMoreRead(ids: Hashes, remote: RemoteChain, fork: nat, f: Fork, run: seq<Access>)
    requires Honest(remote, fork, f.cache) && run != [] && run[|run| - 1].Read?
    ensures var n := |run| - 1;
            var id := run[n].id;
            var here, first := LookedUpAt(ids, fork, f.overlay, run, n, id), FirstLookup(ids, fork, f, run[..n], id);
            Transparent(ids, remote, fork, f, run) <==>
              && Transparent(ids, remote, fork, f, run[..n])
              && (here.Some? && first.Some? ==>
                    RemoteValue(remote, first.value, id) == RemoteValue(remote, here.value, id))
  {
    hide Accessed, LookedUpAt, FirstLookup, RemoteValue, Honest, Cached, Uncached;
    var n := |run| - 1;
    var cached, plain := LastRead(ids, remote, fork, f, run);
    SameExtended(Cached(ids, remote, fork, f, run[..n]).1, Uncached(ids, remote, fork, f.overlay, run[..n]), cached, plain);
  }

  lemma SameExtended<T>(x: seq<T>, y: seq<T>, a: T, b: T)
    requires |x| == |y|
    ensures x + [a] == y + [b] <==> x == y && a == b
  {
    if x + [a] == y + [b] {
      assert x == (x + [a])[..|x|] && y == (y + [b])[..|y|];
      assert a == (x + [a])[|x|] && b == (y + [b])[|y|];
    }
  }

  lemma {:induction false} CoherentIsTransparent(ids: Hashes, remote: RemoteChain, fork: nat, f: Fork, run: seq<Access>)
    requires Honest(remote, fork, f.cache)
    requires Coherent(ids, fork, f.overlay, run) && CachedAtFork(ids, fork, f, run)
    ensures Transparent(ids, remote, fork, f, run)
  {
    hide Coherent, CachedAtFork, RemoteValue, LookedUpAt, Honest;
    if run != [] {
      hide Transparent;
      var n := |run| - 1;
      SteadyPrefix(ids, fork, f, run);
      CoherentIsTransparent(ids, remote, fork, f, run[..n]);
      if run[n].Read? {
        OneMoreRead(ids, remote, fork, f, run);
        if LookedUpAt(ids, fork, f.overlay, run, n, run[n].id).Some? { FirstFixesAll(ids, fork, f, run, n, run[n].id); }
      } else {
        NoRead(ids, remote, fork, f, run);
      }
    }
  }

  function Zeros(n: nat): (v: RegisterValue)
    ensures |v| == n
  {
    seq(n, _ => 0)
  }

  /** A remote chain on which the cache is honest and whose values tell the height
      they were read at. */
  function Tagged(fork: nat, cache: Ledger): (remote: RemoteChain) {
    (height: nat, id: RegisterID) =>
      if id !in cache then Some(Zeros(height)) else if height == fork then Some(cache[id]) else Some(cache[id] + [0])
  }

  lemma TagsTell(fork: nat, cache: Ledger, id: RegisterID, h: nat, k: nat)
    requires id in cache ==> h == fork
    ensures RemoteValue(Tagged(fork, cache), h, id) == RemoteValue(Tagged(fork, cache), k, id) <==> h == k
    ensures Honest(Tagged(fork, cache), fork, cache)
  {
    hide Zeros;
    if id in cache && k != fork { assert |cache[id] + [0]| != |cache[id]|; }
  }

  /** A lookup where the first one was keeps a run coherent. */
  lemma OneMoreCoherent(ids: Hashes, fork: nat, f: Fork, run: seq<Access>)
    requires run != []
    requires Coherent(ids, fork, f.overlay, run[..|run| - 1]) && CachedAtFork(ids, fork, f, run[..|run| - 1])
    requires AsBefore(ids, fork, f, run, |run| - 1)
    ensures Coherent(ids, fork, f.overlay, run) && CachedAtFork(ids, fork, f, run)
  {
    hide LookedUpAt, FirstLookup, Coherent, CachedAtFork;
    var n, db := |run| - 1, f.overlay;
    assert Coherent(ids, fork, db, run) by {
      forall i: nat, j: nat, id | i < j < |run| && LookedUpAt(ids, fork, db, run, i, id).Some?
                        && LookedUpAt(ids, fork, db, run, j, id).Some?
        ensures LookedUpAt(ids, fork, db, run, i, id) == LookedUpAt(ids, fork, db, run, j, id)
      {
        SameInPrefix(ids, fork, db, run, i, id);
        FirstFixesAll(ids, fork, f, run[..n], i, id);
        if j < n {
          SameInPrefix(ids, fork, db, run, j, id);
          FirstFixesAll(ids, fork, f, run[..n], j, id);
        }
      }
      PairsCohere(ids, fork, db, run);
    }
    assert CachedAtFork(ids, fork, f, run) by {
      forall i: nat, id | i < |run| && id in f.cache && LookedUpAt(ids, fork, db, run, i, id).Some?
        ensures LookedUpAt(ids, fork, db, run, i, id) == Some(fork)
      {
        FirstIsOne(ids, fork, f, run[..n], id);
        if i < n {
          SameInPrefix(ids, fork, db, run, i, id);
          FirstFixesAll(ids, fork, f, run[..n], i, id);
        }
      }
      AllAtFork(ids, fork, f, run);
    }
  }

  lemma PairsCohere(ids: Hashes, fork: nat, db: Db, run: seq<Access>)
    requires forall i: nat, j: nat, id | i < j < |run| && LookedUpAt(ids, fork, db, run, i, id).Some?
                                && LookedUpAt(ids, fork, db, run, j, id).Some? ::
               LookedUpAt(ids, fork, db, run, i, id) == LookedUpAt(ids, fork, db, run, j, id)
    ensures Coherent(ids, fork, db, run)
  {
    hide LookedUpAt;
  }

  lemma AllAtFork(ids: Hashes, fork: nat, f: Fork, run: seq<Access>)
    requires forall i: nat, id | i < |run| && id in f.cache && LookedUpAt(ids, fork, f.overlay, run, i, id).Some? ::
               LookedUpAt(ids, fork, f.overlay, run, i, id) == Some(fork)
    ensures CachedAtFork(ids, fork, f, run)
  {
    hide LookedUpAt;
  }

  lemma {:induction false} TransparentIsCoherent(ids: Hashes, fork: nat, f: Fork, run: seq<Access>)
    requires Transparent(ids, Tagged(fork, f.cache), fork, f, run)
    ensures Coherent(ids, fork, f.overlay, run) && CachedAtFork(ids, fork, f, run)
  {
    hide LookedUpAt, FirstLookup, Transparent, RemoteValue, Honest, Tagged;
    if run != [] {
      hide Coherent, CachedAtFork;
      var n, db := |run| - 1, f.overlay;
      TagsTell(fork, f.cache, "", fork, fork);
      if run[n].Read? {
        OneMoreRead(ids, Tagged(fork, f.cache), fork, f, run);
        var first := FirstLookup(ids, fork, f, run[..n], run[n].id);
        FirstIsOne(ids, fork, f, run[..n], run[n].id);
        var here := LookedUpAt(ids, fork, db, run, n, run[n].id);
        if first.Some? && here.Some? { TagsTell(fork, f.cache, run[n].id, first.value, here.value); }
        OnlyReads(ids, fork, db, run, n);
      } else {
        NoRead(ids, Tagged(fork, f.cache), fork, f, run);
      }
      TransparentIsCoherent(ids, fork, f, run[..n]);
      OneMoreCoherent(ids, fork, f, run);
    }
  }

  lemma OnlyReads(ids: Hashes, fork: nat, db: Db, run: seq<Access>, i: nat)
    requires i < |run|
    ensures forall id :: LookedUpAt(ids, fork, db, run, i, id).Some? ==> run[i].Read? && run[i].id == id
  {}

  /** Started over any cache, a run shows no trace of it on any remote chain on
      which it is honest exactly when each register that falls through to it is
      always looked up at one height, and one cached before at the fork height. */
  lemma TransparentExactly(ids: Hashes, fork: nat, f: Fork, run: seq<Access>)
    ensures (forall remote: RemoteChain | Honest(remote, fork, f.cache) :: Transparent(ids, remote, fork, f, run)) <==>
              Coherent(ids, fork, f.overlay, run) && CachedAtFork(ids, fork, f, run)
  {
    hide Transparent, Coherent, CachedAtFork, Honest, Tagged;
    if Coherent(ids, fork, f.overlay, run) && CachedAtFork(ids, fork, f, run) {
      forall remote: RemoteChain | Honest(remote, fork, f.cache) ensures Transparent(ids, remote, fork, f, run) {
        CoherentIsTransparent(ids, remote, fork, f, run);
      }
    }
    TagsTell(fork, f.cache, "", fork, fork);
    if forall remote: RemoteChain | Honest(remote, fork, f.cache) :: Transparent(ids, remote, fork, f, run) {
      assert Transparent(ids, Tagged(fork, f.cache), fork, f, run);
      TransparentIsCoherent(ids, fork, f, run);
    }
  }

  /** A register that neither the overlay nor the cache nor the remote chain has reads
      as empty, and is remembered as empty. */
  lemma UnsetReadsEmpty(remote: RemoteChain, fork: nat, f: Fork, id: RegisterID, height: nat)
    requires id !in Local(f.overlay, height) && id !in f.cache
    requires remote(if height > fork then fork else height, id) == None
    ensures ReadThrough(remote, fork, f, id, height) == (f.(cache := f.cache[id := []]), [])
  {
    hide Local;
  }

  /** Two reads of a register below the fork, at heights where the remote values
      differ, get the same value. */
  lemma StaleBelowFork(ids: Hashes, fork: nat, db: Db, id: RegisterID)
    requires fork > 0 && id !in Local(db, 0) && id !in Local(db, 1)
    ensures var f, remote, run := Fork(db, map[]), Tagged(fork, map[]), [Read(id, 1), Read(id, 0)];
            && Cached(ids, remote, fork, f, run).1 == [Zeros(1), Zeros(1)]
            && Uncached(ids, remote, fork, db, run) == [Zeros(1), Zeros(0)]
  {
    hide Local, Zeros;
    var f, one, run := Fork(db, map[]), [Read(id, 1)], [Read(id, 1), Read(id, 0)];
    assert one[..0] == [] && run[..1] == one;
    assert Overlay(ids, db, one) == Overlay(ids, db, one[..0]) == db;
    hide Cached, Uncached, Overlay;
    var c, p := LastRead(ids, Tagged(fork, map[]), fork, f, one);
    assert FirstLookup(ids, fork, f, one, id) == LookedUpAt(ids, fork, db, one, 0, id) == Some(1);
    var d, q := LastRead(ids, Tagged(fork, map[]), fork, f, run);
    NothingRead(ids, fork, db);
  }

  lemma NothingRead(ids: Hashes, fork: nat, db: Db)
    ensures Cached(ids, Tagged(fork, map[]), fork, Fork(db, map[]), []).1 == [] == Uncached(ids, Tagged(fork, map[]), fork, db, [])
    ensures Overlay(ids, db, []) == db
  {}

  // ---------------------------------------------------------------- blocks over whole runs

  /** The chain after a run that began at the fork. */
  function Seen(fork: nat, run: seq<Access>): (v: View) {
    if run == [] then View(fork, [])
    else
      var n := |run| - 1;
      var before := Seen(fork, run[..n]);
      match run[n]
      case Read(_, _) => before
      case CommitBlock(c) => if CommitCheck(c).None? then before.Committing(c) else before
      case Rollback(h) => before.RollingBack(h)
  }

  /** Every block is committed on top of the latest one. */
  predicate InOrder(fork: nat, run: seq<Access>) {
    run == [] ||
    var n := |run| - 1;
    InOrder(fork, run[..n])
    && (run[n].CommitBlock? && CommitCheck(run[n].commit).None? ==>
          run[n].commit.block.height == Seen(fork, run[..n]).Tip() + 1)
  }

  /** In every run from the fork, the overlay holds exactly the local blocks of the
      chain. */
  lemma {:induction false} RunShows(ids: Hashes, fork: nat, run: seq<Access>)
    requires InOrder(fork, run)
    ensures Shows(Overlay(ids, Forked(fork), run), Seen(fork, run))
  {
    hide Committed, RolledBack, Shows, CommitCheck;
    if run == [] {
      ForkedShows(fork);
    } else {
      var n := |run| - 1;
      RunShows(ids, fork, run[..n]);
      var db, v := Overlay(ids, Forked(fork), run[..n]), Seen(fork, run[..n]);
      CurrentIsTip(db, v);
      match run[n]
      case Read(_, _) =>
      case CommitBlock(c) => if CommitCheck(c).None? { CommitShows(ids, db, v, c); }
      case Rollback(h) => if RollbackAllowed(db, h) { RollbackShows(db, v, h); }
    }
  }

  /** Whatever is committed or rolled back, the store remembers its fork, so that
      opening it again starts from the same height and leaves it alone. */
  lemma {:induction false} ForkIsRemembered(ids: Hashes, fork: nat, run: seq<Access>, given: nat, tip: nat)
    requires fork > 0
    ensures var reopened := Db(0, Overlay(ids, Forked(fork), run).tables);
            Remembered(reopened) == Some(fork) && Initialized(reopened, given, tip) == (reopened, fork)
  {
    hide Accessed, Forked;
    if run == [] {
      JustForked(fork);
    } else {
      var n := |run| - 1;
      ForkIsRemembered(ids, fork, run[..n], given, tip);
      AccessRemembers(ids, Overlay(ids, Forked(fork), run[..n]), run[n]);
    }
  }

  lemma JustForked(fork: nat)
    ensures Remembered(Forked(fork)) == Some(fork)
  {
    assert LATEST_BLOCK_KEY[0] == 'l' && FORKED_BLOCK_KEY[0] == 'f';
  }

  lemma AccessRemembers(ids: Hashes, db: Db, a: Access)
    ensures Remembered(Accessed(ids, db, a)) == Remembered(db)
  {
    hide Committed, RolledBack, CommitCheck;
    assert LATEST_BLOCK_KEY[0] == 'l' && FORKED_BLOCK_KEY[0] == 'f';
    match a
    case Read(_, _) =>
    case CommitBlock(c) => CommittedRows(ids, db, c, Global);
    case Rollback(h) => RolledBackRows(db, h, Global);
  }

  lemma CurrentIsTip(db: Db, v: View)
    requires Shows(db, v)
    ensures db.current == v.Tip() && db.LatestHeight() == Some(v.Tip())
  {}

  // ---------------------------------------------------------------- the store

  lemma CacheReads(cache: Ledger, id: RegisterID, r: Option<Cell>)
    ensures Reads(RegisterRows(cache, 0), id, 0, r) <==> r == Lookup(cache, id)
  {
    var t := RegisterRows(cache, 0);
    LedgerTiesAgree(t);
    if id in cache {
      assert Row(id, 0, 0) in t;
      RowAnswers(t, Row(id, 0, 0), 0, r);
    } else {
      NoRowAnswers(t, id, 0, r);
    }
  }

  lemma CacheMore(cache: Ledger, id: RegisterID, value: RegisterValue)
    ensures RegisterRows(cache[id := value], 0) == RegisterRows(cache, 0)[Row(id, 0, 0) := RegisterCell(value)]
  {}

  method ForkedBlockHeight(store: Sqlite.Store) returns (height: Option<nat>)
    requires store.Valid()
    ensures height == Remembered(store.Abs())
  {
    var cell := store.GetBytes(Global, FORKED_BLOCK_KEY);
    if cell.None? {
      assert FORKED !in store.tables.global;
      return None;
    }
    ghost var row :| IsBest(store.tables.global, row, FORKED_BLOCK_KEY, 0) && store.tables.global[row] == cell.value;
    assert row == FORKED;
    height := if cell.value.HeightCell? then Some(cell.value.height) else None;
  }

  method InitializeStartBlock(store: Sqlite.Store, given: nat, tip: nat) returns (fork: nat)
    requires store.Valid()
    modifies store
    ensures store.Valid() && (store.Abs(), fork) == Initialized(old(store.Abs()), given, tip)
  {
    var stored := ForkedBlockHeight(store);
    if stored.Some? && stored.value > 0 {
      return stored.value;
    }
    fork := given;
    if fork == 0 {
      fork := (tip - BLOCK_BUFFER) % (MAX_UINT64 + 1);
    }
    store.SetBytes(Global, FORKED_BLOCK_KEY, HeightCell(fork));
    store.SetBlockHeight(fork);
  }

  class Store {
    const remote: RemoteChain
    const remoteBlocks: RemoteBlocks
    const forkHeight: nat
    const overlay: Sqlite.Store
    const cacheStore: Sqlite.Store
    ghost var cache: Ledger

    ghost predicate Valid()
      reads this, overlay, cacheStore
    {
      && overlay != cacheStore && overlay.Valid()
      && cacheStore.current == 0 && cacheStore.tables.registers == RegisterRows(cache, 0)
    }

    ghost function Abs(): (f: Fork)
      reads this, overlay
    {
      Fork(overlay.Abs(), cache)
    }

    /** Opens the store over an overlay, perhaps used before, and a cache, perhaps
        filled before. */
    constructor (remote: RemoteChain, remoteBlocks: RemoteBlocks, given: nat, tip: nat,
                 overlay: Sqlite.Store, cacheStore: Sqlite.Store, ghost cache: Ledger)
      requires overlay != cacheStore && overlay.Valid()
      requires cacheStore.current == 0 && cacheStore.tables.registers == RegisterRows(cache, 0)
      modifies overlay
      ensures Valid() && this.overlay == overlay && this.cacheStore == cacheStore
      ensures this.remote == remote && this.remoteBlocks == remoteBlocks
      ensures Abs() == Fork(Initialized(old(overlay.Abs()), given, tip).0, cache)
      ensures forkHeight == Initialized(old(overlay.Abs()), given, tip).1
    {
      var fork := InitializeStartBlock(overlay, given, tip);
      this.remote, this.remoteBlocks, this.forkHeight := remote, remoteBlocks, fork;
      this.overlay, this.cacheStore, this.cache := overlay, cacheStore, cache;
    }

    /** A read fills the cache as a side effect. */
    method Register(id: RegisterID, height: nat) returns (value: RegisterValue)
      requires Valid()
      modifies this`cache, cacheStore`tables
      ensures Valid()
      ensures (Abs(), value) == ReadThrough(remote, forkHeight, old(Abs()), id, height)
    {
      hide LedgerAt, Reads, RegisterRows;
      var local := overlay.GetBytesAtVersion(Registers, id, height);
      LedgerReadIsReplay(overlay.tables.registers, id, height, local);
      if local.Some? {
        return local.value.register;
      }
      var cached := cacheStore.GetBytes(Registers, id);
      CacheReads(cache, id, cached);
      if cached.Some? {
        return cached.value.register;
      }
      var lookupHeight := height;
      if lookupHeight > forkHeight {
        lookupHeight := forkHeight;
      }
      value := [];
      var response := remote(lookupHeight, id);
      if response.Some? {
        value := response.value;
      }
      CacheMore(cache, id, value);
      cacheStore.SetBytes(Registers, id, RegisterCell(value));
      cache := cache[id := value];
    }

    /** A block of the forked chain: local if there is one, not found above the
        tip, and otherwise the remote header without payload. */
    method BlockByHeight(height: nat, ghost v: View) returns (block: Option<Block>)
      requires Valid() && Shows(overlay.Abs(), v)
      ensures block == v.BlockAt(remoteBlocks, height)
    {
      hide SqlAnswers, Sqlite.Sound;
      var local := overlay.BlockByHeight(height);
      LocalBlockAnswer(overlay.Abs(), v, height, local);
      if local.Some? && local.value.BlockCell? {
        return Some(local.value.block);
      }
      var latest := overlay.LatestBlockHeight();
      if latest.None? || height > latest.value {
        return None;
      }
      var header := remoteBlocks(height);
      block := if header.None? then None else Some(header.value.(guarantees := []));
    }

    method LatestBlock(ghost v: View) returns (block: Option<Block>)
      requires Valid() && Shows(overlay.Abs(), v)
      ensures block == v.BlockAt(remoteBlocks, v.Tip())
    {
      hide Sqlite.Sound;
      var latest := overlay.LatestBlockHeight();
      if latest.None? {
        return None;
      }
      block := BlockByHeight(latest.value, v);
    }
  }
}
