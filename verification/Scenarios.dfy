/** The shortest runs in which the collector logs something: the counterexamples of the other modules start here. */
module Scenarios {
  import opened Rows
  import opened Throttle
  import opened Database
  import opened Collector

  const DEVICE := "0000:c1:00.0"

  /** A part whose bit 0 is the SPL limit. */
  const ONE_BIT: BitNames := seq(64, i => if i == 0 then "SPL" else UNKNOWN)

  lemma {:induction false} OneBitDiff(oldMask: u64, newMask: u64, n: nat)
    requires oldMask <= 1 && newMask <= 1 && oldMask != newMask && n <= 64
    ensures DiffUpTo(ONE_BIT, oldMask, newMask, n) == if n == 0 then [] else [Change("SPL", oldMask == 1, newMask == 1)]
  {
    if n > 0 {
      OneBitDiff(oldMask, newMask, n - 1);
      if n == 1 { assert Pow2(0) == 1; }
    }
  }

  function At(ts: int, mask: u64): Reading {
    Reading(ts, DEVICE, "APU", None, mask, None, None)
  }

  /** A reading whose limit differs from the remembered one logs one transition. */
  lemma {:induction false} StoreOne(st: State, ts: int, mask: u64)
    requires mask <= 1 && DEVICE in st.masks && st.masks[DEVICE] == 1 - mask
    ensures var t := Transition(st.db.samples.sequence + 1, DEVICE, "SPL", mask == 0, mask == 1);
            Store(ONE_BIT, st, At(ts, mask), 9) == LogChange(Remember(ONE_BIT, st, At(ts, mask)), ts, t)
    ensures Cost(ONE_BIT, st, At(ts, mask)) == 2
  {
    OneBitDiff(1 - mask, mask, 64);
    var c := Change("SPL", mask == 0, mask == 1);
    assert ChangesFor(ONE_BIT, st.masks, At(ts, mask)) == [c];
    var start := Remember(ONE_BIT, st, At(ts, mask));
    assert [c][..0] == [];
    assert LogChanges(start, ts, st.db.samples.sequence + 1, DEVICE, [c][..0]) == start;
  }

  /** A device's first reading logs nothing. */
  lemma {:induction false} StoreFirst(ts: int, mask: u64)
    ensures Store(ONE_BIT, INITIAL, At(ts, mask), 9) == Remember(ONE_BIT, INITIAL, At(ts, mask))
    ensures Cost(ONE_BIT, INITIAL, At(ts, mask)) == 1
  {
    SameMaskNoDiff(ONE_BIT, mask, 64);
    assert ChangesFor(ONE_BIT, INITIAL.masks, At(ts, mask)) == [];
  }

  /** The limit is off at ts and on one millisecond later. */
  function TwoReadings(ts: int): seq<Event> {
    [StoreReading(At(ts, 0), 9), StoreReading(At(ts + 1, 1), 9)]
  }

  function FirstRow(names: BitNames, ts: int): Row<Sample> {
    Row(1, ts, SampleFor(names, At(ts, 0)))
  }

  function SecondRow(names: BitNames, ts: int): Row<Sample> {
    Row(2, ts + 1, SampleFor(names, At(ts + 1, 1)))
  }

  function Assertion(ts: int): Row<Transition> {
    Row(1, ts + 1, Transition(2, DEVICE, "SPL", false, true))
  }

  function AfterTwo(names: BitNames, ts: int): State {
    State(EMPTY_DB.(samples := Table([FirstRow(names, ts), SecondRow(names, ts)], 2), transitions := Table([Assertion(ts)], 1)),
          map[DEVICE := 1], map[], [FlagLookup(Assertion(ts), 0)], 0, 0)
  }

  lemma {:induction false} RunOne(names: BitNames, policies: map<string, Context.Policy>, st: State, e: Event)
    ensures Run(names, policies, st, [e]) == Step(names, policies, st, e)
  {
    assert [e][..0] == [];
  }

  lemma {:induction false} RunTwoReadings(policies: map<string, Context.Policy>, ts: int)
    ensures Run(ONE_BIT, policies, INITIAL, TwoReadings(ts)) == AfterTwo(ONE_BIT, ts)
  {
    var first := [StoreReading(At(ts, 0), 9)];
    RunOne(ONE_BIT, policies, INITIAL, StoreReading(At(ts, 0), 9));
    StoreFirst(ts, 0);
    var s1 := Run(ONE_BIT, policies, INITIAL, first);
    RunPush(ONE_BIT, policies, INITIAL, first, StoreReading(At(ts + 1, 1), 9));
    assert TwoReadings(ts) == first + [StoreReading(At(ts + 1, 1), 9)];
    StoreOne(s1, ts + 1, 1);
  }

  /** The first pending lookup's event arrives while its id is in use. */
  lemma {:induction false} DeliverFirst(policies: map<string, Context.Policy>, st: State, ts: int, message: string)
    requires st.lookups != [] && st.lookups[0].FlagLookup? && st.db.journal == Table([], 0)
    requires |st.db.transitions.rows| == 1 && st.db.transitions.rows[0].id == st.lookups[0].flagRow.id
    ensures Step(ONE_BIT, policies, st, Deliver(0, ts, message))
         == st.(db := st.db.(journal := Table([Row(1, ts, JournalEvent(st.lookups[0].flagRow.id, message))], 1)))
  {
    assert HasId(st.db.transitions, st.lookups[0].flagRow.id);
  }

  lemma {:induction false} NewestOfTwo<T>(a: Row<T>, b: Row<T>)
    requires a.ts < b.ts
    ensures MaxTs([a, b]) == Some(b.ts)
  {
    assert [a, b][..1] == [a] && [a][..0] == [];
    assert MaxTs([a]) == Some(a.ts);
  }

  /** Five quiet seconds after the second reading both callers of a reset go ahead. */
  lemma {:induction false} TwoReadingsAreQuiet(ts: int, now: int)
    requires now - (ts + 1) >= QUIET_MS
    ensures Quiet(AfterTwo(ONE_BIT, ts).db, now, QUIET_MS)
  {
    NewestOfTwo(FirstRow(ONE_BIT, ts), SecondRow(ONE_BIT, ts));
  }
}
