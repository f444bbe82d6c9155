/** Scheduled transactions are numbered; their numbers are printed in decimal
    when taken from the events and parsed back when the block is committed. */
module Scheduled {
  import opened Types
  import opened Keys
  import opened Positions

  const MAX_UINT64: nat := 0xFFFF_FFFF_FFFF_FFFF

  /** How the numbers of scheduled transactions are found in events: the kind of
      event that announces one, and the number in its payload, if it decodes. */
  datatype Announcement = Announcement(kind: string, number: seq<byte> -> Option<nat>) {
    /** Payload numbers are unsigned 64-bit. */
    ghost predicate Bounded() {
      forall payload :: number(payload).Some? ==> number(payload).value <= MAX_UINT64
    }
  }

  /** The numbers announced by a list of events, in order; none at all if one of
      them does not decode. */
  function Announced(a: Announcement, events: seq<Event>): (numbers: Option<seq<nat>>) {
    if events == [] then Some([])
    else
      var n := |events| - 1;
      var before := Announced(a, events[..n]);
      if before.None? || events[n].kind != a.kind then before
      else
        var number := a.number(events[n].payload);
        if number.None? then None else Some(before.value + [number.value])
  }

  /** The announced numbers, said without the recursion: the events of the announcing
      kind, in order, each with the number its payload decodes to. */
  ghost predicate AnnouncedAt(a: Announcement, events: seq<Event>, positions: seq<nat>, numbers: seq<nat>) {
    && PositionsOf(positions, events, a.kind, false) && |numbers| == |positions|
    && forall j | 0 <= j < |positions| ::
         positions[j] < |events| && a.number(events[positions[j]].payload) == Some(numbers[j])
  }

  /** Some announcing event does not decode. */
  ghost predicate Undecodable(a: Announcement, events: seq<Event>) {
    exists i | 0 <= i < |events| :: events[i].kind == a.kind && a.number(events[i].payload).None?
  }

  lemma AnnouncedAtSnoc(a: Announcement, events: seq<Event>, event: Event, positions: seq<nat>, numbers: seq<nat>)
    requires AnnouncedAt(a, events, positions, numbers)
    ensures event.kind != a.kind ==> AnnouncedAt(a, events + [event], positions, numbers)
    ensures forall n :: event.kind == a.kind && a.number(event.payload) == Some(n) ==>
              AnnouncedAt(a, events + [event], positions + [|events|], numbers + [n])
  {
    hide PositionsOf;
    PositionsSnoc(positions, events, event, a.kind, false);
    assert forall j | 0 <= j < |positions| :: (events + [event])[positions[j]] == events[positions[j]];
  }

  /** Parsing succeeds exactly when every announcing event decodes, and then gives
      the numbers in the order of the events. */
  lemma {:induction false} AnnouncedIs(a: Announcement, events: seq<Event>) returns (positions: seq<nat>)
    ensures Announced(a, events).None? <==> Undecodable(a, events)
    ensures Announced(a, events).Some? ==> AnnouncedAt(a, events, positions, Announced(a, events).value)
  {
    positions := [];
    if events == [] {
      NoPositions(a.kind, false);
    } else {
      hide AnnouncedAt;
      var n := |events| - 1;
      positions := AnnouncedIs(a, events[..n]);
      assert events == events[..n] + [events[n]];
      UndecodableSnoc(a, events[..n], events[n]);
      if Announced(a, events).Some? {
        AnnouncedAtSnoc(a, events[..n], events[n], positions, Announced(a, events[..n]).value);
        if events[n].kind == a.kind { positions := positions + [n]; }
      }
    }
  }

  lemma UndecodableSnoc(a: Announcement, events: seq<Event>, event: Event)
    ensures Undecodable(a, events + [event]) <==>
              Undecodable(a, events) || (event.kind == a.kind && a.number(event.payload).None?)
  {
    var more := events + [event];
    if i :| 0 <= i < |events| && events[i].kind == a.kind && a.number(events[i].payload).None? {
      assert more[i].kind == a.kind && a.number(more[i].payload).None?;
    }
    if event.kind == a.kind && a.number(event.payload).None? { assert more[|events|] == event; }
    if i :| 0 <= i < |more| && more[i].kind == a.kind && a.number(more[i].payload).None? {
      if i < |events| { assert events[i] == more[i]; }
    }
  }

  /** The numbers so described are the parsed ones and no others. */
  lemma AnnouncedExactly(a: Announcement, events: seq<Event>, numbers: seq<nat>)
    ensures Announced(a, events) == Some(numbers) <==> exists positions :: AnnouncedAt(a, events, positions, numbers)
    ensures Announced(a, events).None? <==> Undecodable(a, events)
  {
    hide Announced, PositionsOf;
    var mine := AnnouncedIs(a, events);
    if positions :| AnnouncedAt(a, events, positions, numbers) {
      DecodedMeansDecodable(a, events, positions, numbers);
      PositionsUnique(mine, positions, events, a.kind, false);
      assert numbers == Announced(a, events).value;
    }
  }

  lemma DecodedMeansDecodable(a: Announcement, events: seq<Event>, positions: seq<nat>, numbers: seq<nat>)
    requires AnnouncedAt(a, events, positions, numbers)
    ensures !Undecodable(a, events)
  {
    forall i: nat | i < |events| && events[i].kind == a.kind ensures a.number(events[i].payload).Some? {
      assert i in positions;
    }
  }

  function Printed(numbers: seq<nat>): (strings: seq<string>)
    ensures |strings| == |numbers| && forall i | 0 <= i < |numbers| :: strings[i] == Decimal(numbers[i])
  {
    seq(|numbers|, i requires 0 <= i < |numbers| => Decimal(numbers[i]))
  }

  /** The decimal numbers announced by the events of the process transaction, in the
      order of the events, and none at all if one of them does not decode. */
  method ParseScheduledIDs(a: Announcement, events: seq<Event>) returns (ids: Option<seq<string>>)
    ensures ids == match Announced(a, events) case None => None case Some(numbers) => Some(Printed(numbers))
    ensures ids.None? <==> Undecodable(a, events)
    ensures ids.Some? ==> exists positions, numbers :: AnnouncedAt(a, events, positions, numbers) && ids.value == Printed(numbers)
  {
    hide Decimal, Undecodable, AnnouncedAt;
    ghost var positions := AnnouncedIs(a, events);
    var found: seq<string> := [];
    ghost var numbers: seq<nat> := [];
    for i := 0 to |events|
      invariant Announced(a, events[..i]) == Some(numbers) && found == Printed(numbers)
    {
      assert events[..i + 1][..i] == events[..i];
      if events[i].kind != a.kind {
        continue;
      }
      var number := a.number(events[i].payload);
      if number.None? {
        FailureStays(a, events, i + 1);
        return None;
      }
      found := found + [Decimal(number.value)];
      numbers := numbers + [number.value];
    }
    assert events[..|events|] == events;
    ids := Some(found);
  }

  lemma {:induction false} FailureStays(a: Announcement, events: seq<Event>, i: nat)
    requires i <= |events| && Announced(a, events[..i]).None?
    ensures Announced(a, events).None?
    decreases |events| - i
  {
    if i < |events| {
      assert events[..i + 1][..i] == events[..i];
      FailureStays(a, events, i + 1);
    } else {
      assert events[..i] == events;
    }
  }

  /** The leading digits of a string. */
  function LeadingDigits(s: string): (digits: string)
    ensures digits <= s && forall c | c in digits :: IsDigit(c)
  {
    if s == [] || !IsDigit(s[0]) then [] else [s[0]] + LeadingDigits(s[1..])
  }

  /** Scanning "%d" into an unsigned 64-bit variable: it takes the leading
      digits and fails when there are none or the value does not fit. */
  function ScanUint64(s: string): (n: Option<nat>) {
    var digits := LeadingDigits(s);
    if digits == [] || FromDecimal(digits) > MAX_UINT64 then None else Some(FromDecimal(digits))
  }

  lemma {:induction false} AllDigits(s: string)
    requires forall c | c in s :: IsDigit(c)
    ensures LeadingDigits(s) == s
  {
    if s != [] {
      AllDigits(s[1..]);
    }
  }

  /** Printing a 64-bit number and scanning it back is the identity, and fails
      for every larger number. */
  lemma ScanOfDecimal(n: nat)
    ensures ScanUint64(Decimal(n)) == if n <= MAX_UINT64 then Some(n) else None
  {
    AllDigits(Decimal(n));
  }
}
