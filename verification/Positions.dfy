/** Where the events of a kind are in a list: what filtering by kind has to keep,
    said without saying how. */
module Positions {
  import opened Types

  ghost predicate Increasing(positions: seq<nat>) {
    forall i, j | 0 <= i < j < |positions| :: positions[i] < positions[j]
  }

  /** The positions of the events of a kind, all of them and in order; every
      position if `any` kind will do. */
  ghost predicate PositionsOf(positions: seq<nat>, events: seq<Event>, kind: string, any: bool) {
    && Increasing(positions)
    && forall i: nat :: i in positions <==> i < |events| && (any || events[i].kind == kind)
  }

  /** The events at some positions. */
  ghost predicate Picked(events: seq<Event>, positions: seq<nat>, kept: seq<Event>) {
    && |kept| == |positions|
    && forall j | 0 <= j < |positions| :: positions[j] < |events| && kept[j] == events[positions[j]]
  }

  /** The last element of an increasing list is its largest, and the front holds the
      others. */
  lemma LastOfIncreasing(a: seq<nat>, x: nat)
    requires Increasing(a) && a != []
    ensures var m := |a| - 1;
            Increasing(a[..m]) && a[m] in a && (x in a ==> x <= a[m]) && (x in a[..m] <==> x in a && x != a[m])
  {
    var m := |a| - 1;
    if x in a {
      var i :| 0 <= i < |a| && a[i] == x;
      if i < m { assert a[..m][i] == x; }
    }
    if x in a[..m] {
      var i :| 0 <= i < m && a[..m][i] == x;
      assert a[i] == x;
    }
  }

  /** An increasing list is determined by its elements. */
  lemma {:induction false} IncreasingUnique(a: seq<nat>, b: seq<nat>)
    requires Increasing(a) && Increasing(b) && forall x: nat :: x in a <==> x in b
    ensures a == b
  {
    hide Increasing;
    if a != [] { assert a[0] in a; }
    if b != [] { assert b[0] in b; }
    if a != [] {
      var m, n := |a| - 1, |b| - 1;
      LastOfIncreasing(a, b[n]);
      LastOfIncreasing(b, a[m]);
      forall x: nat ensures x in a[..m] <==> x in b[..n] {
        LastOfIncreasing(a, x);
        LastOfIncreasing(b, x);
      }
      IncreasingUnique(a[..m], b[..n]);
      assert a == a[..m] + [a[m]] && b == b[..n] + [b[n]];
    }
  }

  lemma PositionsUnique(a: seq<nat>, b: seq<nat>, events: seq<Event>, kind: string, any: bool)
    requires PositionsOf(a, events, kind, any) && PositionsOf(b, events, kind, any)
    ensures a == b
  {
    hide Increasing;
    IncreasingUnique(a, b);
  }

  lemma PickedSnoc(events: seq<Event>, positions: seq<nat>, kept: seq<Event>, event: Event)
    requires Picked(events, positions, kept)
    ensures Picked(events + [event], positions, kept)
    ensures Picked(events + [event], positions + [|events|], kept + [event])
  {
    assert forall j | 0 <= j < |positions| :: (events + [event])[positions[j]] == events[positions[j]];
  }

  lemma NoPositions(kind: string, any: bool)
    ensures PositionsOf([], [], kind, any)
  {}

  /** One more event adds its own position, or none. */
  lemma PositionsSnoc(positions: seq<nat>, events: seq<Event>, event: Event, kind: string, any: bool)
    requires PositionsOf(positions, events, kind, any)
    ensures PositionsOf(if any || event.kind == kind then positions + [|events|] else positions, events + [event], kind, any)
  {
    var more := events + [event];
    forall i: nat ensures i < |more| && (any || more[i].kind == kind) <==>
                            (i in positions || (i == |events| && (any || event.kind == kind)))
    {
      if i < |events| { assert more[i] == events[i]; }
    }
    assert forall j | 0 <= j < |positions| :: positions[j] in positions;
  }
}
