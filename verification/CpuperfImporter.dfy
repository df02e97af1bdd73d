/**
 Importing cpu performance records in tally mode: one pass over a stream in which the records
 of all cpus and events are interleaved keeps a running total for each (cpu, event).
 */
module CpuperfImporter {
  import opened Basics

  type Cpu = bv32
  type EventId = bv16

  const MAX_NUM_CPUS: bv32 := 32
  const EVENT_NONE: EventId := 0

  datatype Kind = Time | Tick | Count | Value | Pc | LastBranch

  // `payload` is the count or value; `time` is the reader's clock after a Time record.
  datatype Record = Record(cpu: Cpu, event: EventId, kind: Kind, payload: uint64, time: int)

  // ---------- one (cpu, event) at a time ----------

  // A record of some event with the time it is taken to happen at.
  datatype Sample = Sample(cpu: Cpu, event: EventId, kind: Kind, payload: uint64, time: int)

  function Clock(records: seq<Record>, now: int): int {
    if records == [] then now
    else
      var r := records[|records| - 1];
      if r.kind == Time then r.time else Clock(records[..|records| - 1], now)
  }

  predicate IsClockOnly(r: Record) {
    r.kind == Time && r.event == EVENT_NONE
  }

  function Samples(records: seq<Record>, now: int): seq<Sample> {
    if records == [] then []
    else
      var r := records[|records| - 1];
      Samples(records[..|records| - 1], now) +
      if IsClockOnly(r) then [] else [Sample(r.cpu, r.event, r.kind, r.payload, Clock(records, now))]
  }

  // The clock is that of the last Time record, if there was one.
  lemma {:induction false} ClockIs(records: seq<Record>, now: int, i: int)
    requires -1 <= i < |records| && forall j | i < j < |records| :: records[j].kind != Time
    requires i >= 0 ==> records[i].kind == Time
    ensures Clock(records, now) == if i < 0 then now else records[i].time
  {
    if i < |records| - 1 {
      ClockIs(records[..|records| - 1], now, i);
    }
  }

  // Every record but a mere clock update is one sample, in order, at the time of the last Time record
  // up to and including it.
  lemma {:induction false} SampleOf(records: seq<Record>, now: int, i: nat, clock: int)
    requires i < |records| && !(records[i].kind == Time && records[i].event == EVENT_NONE)
    requires -1 <= clock <= i && forall j | clock < j <= i :: records[j].kind != Time
    requires clock >= 0 ==> records[clock].kind == Time
    ensures |Samples(records[..i], now)| < |Samples(records, now)|
    ensures var r, time := records[i], if clock < 0 then now else records[clock].time;
      Samples(records, now)[|Samples(records[..i], now)|] == Sample(r.cpu, r.event, r.kind, r.payload, time)
  {
    var init := records[..|records| - 1];
    if i == |records| - 1 {
      ClockIs(records, now, clock);
    } else {
      assert init[..i] == records[..i];
      SampleOf(init, now, i, clock);
    }
  }

  // The samples of one event on one cpu, in order.
  function Only(samples: seq<Sample>, cpu: Cpu, event: EventId): seq<Sample> {
    if samples == [] then []
    else
      var x := samples[|samples| - 1];
      Only(samples[..|samples| - 1], cpu, event) + if x.cpu == cpu && x.event == event then [x] else []
  }

  // What is known about an event: when it was last seen, and its total or latest value.
  datatype Data = Data(time: int, isValue: bool, amount: uint64)

  const NO_DATA := Data(0, false, 0)

  function OrElse(d: Option<Data>): Data {
    if d.Some? then d.value else NO_DATA
  }

  function PreviousTime(d: Option<Data>, start: int): int {
    if d.Some? then d.value.time else start
  }

  function Add64(a: uint64, b: uint64): uint64 {
    (a + b) % TWO_TO_THE_64
  }

  // The effect of a sample that falls into the trace.
  function Absorb(d: Data, x: Sample): Data {
    match x.kind
    case Time => d.(isValue := false)    // counts the sample rate, which is zero in tally mode
    case Tick => d.(isValue := false)
    case Count => d.(isValue := false, amount := Add64(d.amount, x.payload))
    case Value => d.(isValue := true, amount := x.payload)
    case Pc => d
    case LastBranch => d
  }

  // A sample counts when it is later than the previous one and not later than the end.
  predicate InTrace(previous: int, x: Sample, stop: int) {
    previous < x.time <= stop
  }

  function Track(d: Option<Data>, x: Sample, start: int, stop: int): Data {
    (if InTrace(PreviousTime(d, start), x, stop) then Absorb(OrElse(d), x) else OrElse(d)).(time := x.time)
  }

  // The tally of one event from its own samples alone.
  function Tally(xs: seq<Sample>, start: int, stop: int): Option<Data> {
    if xs == [] then None
    else Some(Track(Tally(xs[..|xs| - 1], start, stop), xs[|xs| - 1], start, stop))
  }

  // ---------- closed forms ----------

  predicate Counts(xs: seq<Sample>, i: nat, start: int, stop: int)
    requires i < |xs|
  {
    (if i == 0 then start else xs[i - 1].time) < xs[i].time <= stop
  }

  // The last sample before `n` that is in the trace and of one of these kinds, or -1.
  function LastOf(xs: seq<Sample>, n: nat, start: int, stop: int, kinds: set<Kind>): (i: int)
    requires n <= |xs|
    ensures -1 <= i < n && (i >= 0 ==> Counts(xs, i, start, stop) && xs[i].kind in kinds)
    ensures forall j | i < j < n :: !(Counts(xs, j, start, stop) && xs[j].kind in kinds)
  {
    if n == 0 then -1
    else if Counts(xs, n - 1, start, stop) && xs[n - 1].kind in kinds then n - 1
    else LastOf(xs, n - 1, start, stop, kinds)
  }

  // The counts of the samples from `from` to `n` that are in the trace, added up.
  function CountsFrom(xs: seq<Sample>, from: nat, n: nat, start: int, stop: int): int
    requires from <= n <= |xs|
  {
    if n == from then 0
    else
      CountsFrom(xs, from, n - 1, start, stop) +
      if Counts(xs, n - 1, start, stop) && xs[n - 1].kind == Count then xs[n - 1].payload else 0
  }

  // The last value in the trace, and the counts since.
  function Amount(xs: seq<Sample>, n: nat, start: int, stop: int): int
    requires n <= |xs|
  {
    var v := LastOf(xs, n, start, stop, {Value});
    (if v < 0 then 0 else xs[v].payload) + CountsFrom(xs, v + 1, n, start, stop)
  }

  // Whether the last sample in the trace that says anything was a value.
  predicate EndsInValue(xs: seq<Sample>, n: nat, start: int, stop: int)
    requires n <= |xs|
  {
    var i := LastOf(xs, n, start, stop, {Time, Tick, Count, Value});
    i >= 0 && xs[i].kind == Value
  }

  // A sum after one more sample.
  function Grown(sum: int, x: Sample, counts: bool): int {
    if !counts then sum
    else if x.kind == Value then x.payload
    else sum + if x.kind == Count then x.payload else 0
  }

  lemma AmountSnoc(xs: seq<Sample>, n: nat, start: int, stop: int)
    requires n < |xs|
    ensures Amount(xs, n + 1, start, stop) == Grown(Amount(xs, n, start, stop), xs[n], Counts(xs, n, start, stop))
    ensures EndsInValue(xs, n + 1, start, stop) <==>
      if Counts(xs, n, start, stop) && xs[n].kind in {Time, Tick, Count, Value} then xs[n].kind == Value
      else EndsInValue(xs, n, start, stop)
  {
  }

  // Wrapping around at every step is wrapping around once.
  lemma TrackWraps(d: Option<Data>, sum: int, x: Sample, start: int, stop: int)
    requires OrElse(d).amount == sum % TWO_TO_THE_64
    ensures Track(d, x, start, stop).amount ==
      Grown(sum, x, InTrace(PreviousTime(d, start), x, stop)) % TWO_TO_THE_64
  {
    ModAdd(sum, x.payload);
  }

  lemma {:induction false} TallyPrefix(xs: seq<Sample>, n: nat, start: int, stop: int)
    requires 0 < n <= |xs|
    ensures Tally(xs[..n], start, stop)
         == Some(Data(xs[n - 1].time, EndsInValue(xs, n, start, stop), Amount(xs, n, start, stop) % TWO_TO_THE_64))
  {
    var x := xs[n - 1];
    assert xs[..n][..n - 1] == xs[..n - 1];
    if n > 1 {
      TallyPrefix(xs, n - 1, start, stop);
    }
    AmountSnoc(xs, n - 1, start, stop);
    var before := Tally(xs[..n - 1], start, stop);
    TrackWraps(before, Amount(xs, n - 1, start, stop), x, start, stop);
  }

  lemma ModAdd(a: int, b: uint64)
    ensures Add64(a % TWO_TO_THE_64, b) == (a + b) % TWO_TO_THE_64
  {
  }

  // The tally of any samples: the last value in the trace plus the counts in the trace after it,
  // in 64 bits, reported as a value or a count as the last of them was.
  lemma TallyIs(xs: seq<Sample>, start: int, stop: int)
    requires xs != []
    ensures Tally(xs, start, stop)
         == Some(Data(xs[|xs| - 1].time, EndsInValue(xs, |xs|, start, stop),
                      Amount(xs, |xs|, start, stop) % TWO_TO_THE_64))
  {
    assert xs[..|xs|] == xs;
    TallyPrefix(xs, |xs|, start, stop);
  }

  lemma {:induction false} NothingCounted(xs: seq<Sample>, from: nat, n: nat, start: int, stop: int)
    requires from <= n <= |xs| && forall i | from <= i < n :: !Counts(xs, i, start, stop) || xs[i].kind != Count
    ensures CountsFrom(xs, from, n, start, stop) == 0
  {
    if from < n {
      NothingCounted(xs, from, n - 1, start, stop);
    }
  }

  // An event that never reports values is tallied as the 64-bit sum of its counts.
  lemma TallyIsSum(xs: seq<Sample>, start: int, stop: int)
    requires xs != [] && forall i | 0 <= i < |xs| :: xs[i].kind != Value
    ensures Tally(xs, start, stop).Some? && !Tally(xs, start, stop).value.isValue
    ensures Tally(xs, start, stop).value.amount == CountsFrom(xs, 0, |xs|, start, stop) % TWO_TO_THE_64
  {
    TallyIs(xs, start, stop);
  }

  // An event that only reports values is tallied as the last one in the trace.
  lemma TallyIsLastValue(xs: seq<Sample>, start: int, stop: int, i: nat)
    requires i < |xs| && forall j | 0 <= j < |xs| :: xs[j].kind == Value
    requires Counts(xs, i, start, stop)
    requires forall j | i < j < |xs| :: !Counts(xs, j, start, stop)
    ensures Tally(xs, start, stop).Some? && Tally(xs, start, stop).value.isValue
    ensures Tally(xs, start, stop).value.amount == xs[i].payload
  {
    TallyIs(xs, start, stop);
    NothingCounted(xs, i + 1, |xs|, start, stop);
  }

  // An event whose samples all fall outside the trace, of whatever kind, is a count of zero.
  lemma TallyOfRejected(xs: seq<Sample>, start: int, stop: int)
    requires xs != [] && forall j | 0 <= j < |xs| :: !Counts(xs, j, start, stop)
    ensures Tally(xs, start, stop) == Some(Data(xs[|xs| - 1].time, false, 0))
  {
    TallyIs(xs, start, stop);
    assert LastOf(xs, |xs|, start, stop, {Value}) == -1;
    NothingCounted(xs, 0, |xs|, start, stop);
    assert Amount(xs, |xs|, start, stop) == 0;
  }

  // ---------- the tracker ----------

  datatype Key = Key(bits: bv32)

  function GenKey(cpu: Cpu, id: EventId): Key {
    Key((cpu << 16) | (id as bv32))
  }

  // Packing a cpu and an event into 32 bits loses nothing.
  lemma GenKeyIsInjective(cpu: Cpu, id: EventId, cpu': Cpu, id': EventId)
    requires cpu < MAX_NUM_CPUS && cpu' < MAX_NUM_CPUS
    ensures GenKey(cpu, id) == GenKey(cpu', id') <==> cpu == cpu' && id == id'
  {
    if GenKey(cpu, id) == GenKey(cpu', id') {
      BitsAreDisjoint(cpu, id, cpu', id');
    }
  }

  lemma BitsAreDisjoint(cpu: Cpu, id: EventId, cpu': Cpu, id': EventId)
    requires cpu < 65536 && cpu' < 65536
    requires (cpu << 16) | (id as bv32) == (cpu' << 16) | (id' as bv32)
    ensures cpu == cpu' && id == id'
  {
  }

  class EventTracker {
    const startTime: int
    var data: map<Key, Data>

    constructor (startTime: int)
      ensures this.startTime == startTime && forall cpu, id :: At(cpu, id) == None
    {
      this.startTime, data := startTime, map[];
    }

    // The tracker as a map from pairs.
    ghost function At(cpu: Cpu, id: EventId): Option<Data>
      reads this
    {
      if GenKey(cpu, id) in data then Some(data[GenKey(cpu, id)]) else None
    }

    // Only the entry for (cpu, id) changed, to `d`.
    twostate predicate OnlyChanged(cpu: Cpu, id: EventId, d: Data)
      reads this
    {
      && At(cpu, id) == Some(d)
      && forall cpu', id' :: cpu' < MAX_NUM_CPUS && (cpu' != cpu || id' != id) ==> At(cpu', id') == old(At(cpu', id'))
    }

    method Put(cpu: Cpu, id: EventId, d: Data)
      requires cpu < MAX_NUM_CPUS
      modifies this`data
      ensures OnlyChanged(cpu, id, d)
    {
      data := data[GenKey(cpu, id) := d];
      forall cpu', id' | cpu' < MAX_NUM_CPUS && (cpu' != cpu || id' != id)
        ensures At(cpu', id') == old(At(cpu', id'))
      {
        GenKeyIsInjective(cpu, id, cpu', id');
      }
    }

    method HaveValue(cpu: Cpu, id: EventId) returns (have: bool)
      ensures have == At(cpu, id).Some?
    {
      have := GenKey(cpu, id) in data;
    }

    method GetTime(cpu: Cpu, id: EventId) returns (t: int)
      ensures t == PreviousTime(At(cpu, id), startTime)
    {
      var key := GenKey(cpu, id);
      t := if key in data then data[key].time else startTime;
    }

    method Get(cpu: Cpu, id: EventId) returns (d: Data)
      ensures d == OrElse(At(cpu, id))
    {
      var key := GenKey(cpu, id);
      d := if key in data then data[key] else NO_DATA;
    }

    method UpdateTime(cpu: Cpu, id: EventId, time: int)
      requires cpu < MAX_NUM_CPUS
      modifies this`data
      ensures OnlyChanged(cpu, id, OrElse(old(At(cpu, id))).(time := time))
    {
      var d := Get(cpu, id);
      Put(cpu, id, d.(time := time));
    }

    method UpdateValue(cpu: Cpu, id: EventId, value: uint64)
      requires cpu < MAX_NUM_CPUS
      modifies this`data
      ensures OnlyChanged(cpu, id, OrElse(old(At(cpu, id))).(isValue := true, amount := value))
    {
      var d := Get(cpu, id);
      Put(cpu, id, d.(isValue := true, amount := value));
    }

    method AccumulateCount(cpu: Cpu, id: EventId, value: uint64)
      requires cpu < MAX_NUM_CPUS
      modifies this`data
      ensures var d := OrElse(old(At(cpu, id)));
        OnlyChanged(cpu, id, d.(isValue := false, amount := Add64(d.amount, value)))
    {
      var d := Get(cpu, id);
      Put(cpu, id, d.(isValue := false, amount := Add64(d.amount, value)));
    }
  }

  // ---------- the import ----------

  function TallyFor(records: seq<Record>, now: int, start: int, stop: int, cpu: Cpu, id: EventId): Option<Data> {
    Tally(Only(Samples(records, now), cpu, id), start, stop)
  }

  lemma TallyForSnoc(records: seq<Record>, r: Record, now: int, start: int, stop: int, cpu: Cpu, id: EventId)
    ensures var before := TallyFor(records, now, start, stop, cpu, id);
      TallyFor(records + [r], now, start, stop, cpu, id) ==
      if !IsClockOnly(r) && r.cpu == cpu && r.event == id
      then Some(Track(before, Sample(r.cpu, r.event, r.kind, r.payload, Clock(records + [r], now)), start, stop))
      else before
  {
    var xs := Samples(records, now);
    assert (records + [r])[..|records|] == records;
    if !IsClockOnly(r) {
      var x := Sample(r.cpu, r.event, r.kind, r.payload, Clock(records + [r], now));
      assert (xs + [x])[..|xs|] == xs;
      var own := Only(xs, cpu, id);
      if r.cpu == cpu && r.event == id {
        assert (own + [x])[..|own|] == own;
      } else {
        assert own + [] == own;
      }
    } else {
      assert xs + [] == xs;
    }
  }

  datatype TallyRecord = TallyRecord(cpu: Cpu, event: EventId, time: int, isValue: bool, value: uint64)

  // A value is reported at the end; a count also starts from zero at the beginning.
  function Report(d: Option<Data>, cpu: Cpu, id: EventId, start: int, stop: int): seq<TallyRecord> {
    if d.None? then []
    else if d.value.isValue then [TallyRecord(cpu, id, stop, true, d.value.amount)]
    else [TallyRecord(cpu, id, start, false, 0), TallyRecord(cpu, id, stop, false, d.value.amount)]
  }

  datatype Trace = Trace(records: seq<Record>, now: int, start: int, stop: int)

  function ReportFor(t: Trace, cpu: Cpu, id: EventId): seq<TallyRecord> {
    Report(TallyFor(t.records, t.now, t.start, t.stop, cpu, id), cpu, id, t.start, t.stop)
  }

  function ReportEvents(t: Trace, cpu: Cpu, events: seq<EventId>): seq<TallyRecord> {
    if events == [] then []
    else ReportEvents(t, cpu, events[..|events| - 1]) + ReportFor(t, cpu, events[|events| - 1])
  }

  function ReportAll(t: Trace, cpus: seq<Cpu>, events: seq<EventId>): seq<TallyRecord> {
    if cpus == [] then []
    else ReportAll(t, cpus[..|cpus| - 1], events) + ReportEvents(t, cpus[|cpus| - 1], events)
  }

  // ---------- what is in the report ----------

  // The records for one pair, in order.
  function For(out: seq<TallyRecord>, cpu: Cpu, id: EventId): seq<TallyRecord> {
    if out == [] then []
    else
      var r := out[|out| - 1];
      For(out[..|out| - 1], cpu, id) + if r.cpu == cpu && r.event == id then [r] else []
  }

  function Repeat(s: seq<TallyRecord>, n: nat): seq<TallyRecord> {
    if n == 0 then [] else Repeat(s, n - 1) + s
  }

  lemma {:induction false} ForConcat(a: seq<TallyRecord>, b: seq<TallyRecord>, cpu: Cpu, id: EventId)
    ensures For(a + b, cpu, id) == For(a, cpu, id) + For(b, cpu, id)
  {
    if b == [] {
      assert a + b == a;
    } else {
      var init := b[..|b| - 1];
      assert (a + b)[..|a + b| - 1] == a + init;
      ForConcat(a, init, cpu, id);
    }
  }

  lemma {:induction false} RepeatAdds(s: seq<TallyRecord>, a: nat, b: nat)
    ensures Repeat(s, a) + Repeat(s, b) == Repeat(s, a + b)
  {
    if b > 0 {
      RepeatAdds(s, a, b - 1);
    }
  }

  lemma RepeatMore(s: seq<TallyRecord>, n: nat, m: nat, more: bool)
    ensures Repeat(s, n * m) + Repeat(s, if more then m else 0) == Repeat(s, (n + if more then 1 else 0) * m)
  {
    assert (n + 1) * m == n * m + m;
    RepeatAdds(s, n * m, if more then m else 0);
  }

  function CountOf<T(==)>(s: seq<T>, x: T): nat {
    if s == [] then 0 else CountOf(s[..|s| - 1], x) + if s[|s| - 1] == x then 1 else 0
  }

  // What is due to a pair, by the closed form of its tally: nothing without samples, else one value at
  // the end, or a count of zero at the start and the count at the end.
  function Due(t: Trace, cpu: Cpu, id: EventId): seq<TallyRecord> {
    var xs := Only(Samples(t.records, t.now), cpu, id);
    var amount := Amount(xs, |xs|, t.start, t.stop) % TWO_TO_THE_64;
    if xs == [] then []
    else if EndsInValue(xs, |xs|, t.start, t.stop) then [TallyRecord(cpu, id, t.stop, true, amount)]
    else [TallyRecord(cpu, id, t.start, false, 0), TallyRecord(cpu, id, t.stop, false, amount)]
  }

  lemma ReportIsDue(t: Trace, cpu: Cpu, id: EventId)
    ensures ReportFor(t, cpu, id) == Due(t, cpu, id)
  {
    var xs := Only(Samples(t.records, t.now), cpu, id);
    if xs != [] {
      TallyIs(xs, t.start, t.stop);
    }
  }

  lemma ForOwn(t: Trace, c: Cpu, e: EventId, cpu: Cpu, id: EventId)
    ensures For(ReportFor(t, c, e), cpu, id) == if c == cpu && e == id then ReportFor(t, cpu, id) else []
  {
    var r := ReportFor(t, c, e);
    if |r| == 2 {
      assert r == [r[0]] + [r[1]];
      ForConcat([r[0]], [r[1]], cpu, id);
    }
  }

  lemma {:induction false} ForEvents(t: Trace, c: Cpu, events: seq<EventId>, cpu: Cpu, id: EventId)
    ensures For(ReportEvents(t, c, events), cpu, id) ==
      Repeat(ReportFor(t, cpu, id), if c == cpu then CountOf(events, id) else 0)
  {
    if events != [] {
      var init, last := events[..|events| - 1], events[|events| - 1];
      ForEvents(t, c, init, cpu, id);
      ForConcat(ReportEvents(t, c, init), ReportFor(t, c, last), cpu, id);
      ForOwn(t, c, last, cpu, id);
    }
  }

  lemma {:induction false} ForAll(t: Trace, cpus: seq<Cpu>, events: seq<EventId>, cpu: Cpu, id: EventId)
    ensures For(ReportAll(t, cpus, events), cpu, id) ==
      Repeat(ReportFor(t, cpu, id), CountOf(cpus, cpu) * CountOf(events, id))
  {
    if cpus != [] {
      var init, last := cpus[..|cpus| - 1], cpus[|cpus| - 1];
      ForAll(t, init, events, cpu, id);
      ForConcat(ReportAll(t, init, events), ReportEvents(t, last, events), cpu, id);
      ForEvents(t, last, events, cpu, id);
      RepeatMore(ReportFor(t, cpu, id), CountOf(init, cpu), CountOf(events, id), last == cpu);
    }
  }

  // Each pair has what is due to it, once for each time it is configured; any other has nothing.
  ghost predicate Accounts(t: Trace, cpus: seq<Cpu>, events: seq<EventId>, out: seq<TallyRecord>) {
    forall cpu, id :: For(out, cpu, id) == Repeat(Due(t, cpu, id), CountOf(cpus, cpu) * CountOf(events, id))
  }

  lemma ReportAccounts(t: Trace, cpus: seq<Cpu>, events: seq<EventId>)
    ensures Accounts(t, cpus, events, ReportAll(t, cpus, events))
  {
    forall cpu, id
      ensures For(ReportAll(t, cpus, events), cpu, id)
           == Repeat(Due(t, cpu, id), CountOf(cpus, cpu) * CountOf(events, id))
    {
      ForAll(t, cpus, events, cpu, id);
      ReportIsDue(t, cpu, id);
    }
  }

  // Where a record of the report comes from.
  datatype Place = Place(cpu: nat, event: nat)

  predicate Before(a: Place, b: Place) {
    a.cpu < b.cpu || (a.cpu == b.cpu && a.event <= b.event)
  }

  // Every record is for a configured pair, and the pairs come in cpu-major configured order.
  ghost predicate InOrder(cpus: seq<Cpu>, events: seq<EventId>, out: seq<TallyRecord>, places: seq<Place>) {
    && |places| == |out|
    && (forall k | 0 <= k < |out| ::
          && places[k].cpu < |cpus| && places[k].event < |events|
          && out[k].cpu == cpus[places[k].cpu] && out[k].event == events[places[k].event])
    && (forall k, l | 0 <= k < l < |out| :: Before(places[k], places[l]))
  }

  lemma {:induction false} EventsInOrder(t: Trace, c: nat, cpus: seq<Cpu>, events: seq<EventId>, n: nat)
    returns (places: seq<Place>)
    requires c < |cpus| && n <= |events|
    ensures InOrder(cpus, events, ReportEvents(t, cpus[c], events[..n]), places)
    ensures forall k | 0 <= k < |places| :: places[k].cpu == c && places[k].event < n
  {
    places := [];
    if n > 0 {
      places := EventsInOrder(t, c, cpus, events, n - 1);
      assert events[..n][..n - 1] == events[..n - 1];
      var more := ReportFor(t, cpus[c], events[n - 1]);
      places := places + seq(|more|, i => Place(c, n - 1));
    }
  }

  lemma {:induction false} AllInOrder(t: Trace, cpus: seq<Cpu>, events: seq<EventId>, n: nat)
    returns (places: seq<Place>)
    requires n <= |cpus|
    ensures InOrder(cpus, events, ReportAll(t, cpus[..n], events), places)
    ensures forall k | 0 <= k < |places| :: places[k].cpu < n
  {
    places := [];
    if n > 0 {
      places := AllInOrder(t, cpus, events, n - 1);
      assert cpus[..n][..n - 1] == cpus[..n - 1];
      assert events[..|events|] == events;
      var more := EventsInOrder(t, n - 1, cpus, events, |events|);
      places := places + more;
    }
  }

  // The tracker knows, for every (cpu, event), the tally of its own samples.
  ghost predicate Knows(tracker: EventTracker, t: Trace)
    reads tracker
  {
    && tracker.startTime == t.start
    && forall cpu, id :: cpu < MAX_NUM_CPUS ==>
         tracker.At(cpu, id) == TallyFor(t.records, t.now, t.start, t.stop, cpu, id)
  }

  // One pass of the import loop for a record that is not a mere clock update.
  method ImportRecord(tracker: EventTracker, r: Record, currentTime: int, stop: int)
    requires r.cpu < MAX_NUM_CPUS
    modifies tracker
    ensures tracker.OnlyChanged(r.cpu, r.event,
      Track(old(tracker.At(r.cpu, r.event)), Sample(r.cpu, r.event, r.kind, r.payload, currentTime),
            tracker.startTime, stop))
  {
    var previousTime := tracker.GetTime(r.cpu, r.event);
    if currentTime < previousTime {
    } else if currentTime == previousTime {
    } else if currentTime > stop {
    } else {
      match r.kind
      case Time => tracker.AccumulateCount(r.cpu, r.event, 0);
      case Tick => tracker.AccumulateCount(r.cpu, r.event, 0);
      case Count => tracker.AccumulateCount(r.cpu, r.event, r.payload);
      case Value => tracker.UpdateValue(r.cpu, r.event, r.payload);
      case Pc =>
      case LastBranch =>
    }
    tracker.UpdateTime(r.cpu, r.event, currentTime);
  }

  // The body of the import loop; the result is the new current time.
  method ImportNext(tracker: EventTracker, ghost t: Trace, r: Record, currentTime: int, stop: int) returns (time: int)
    requires Knows(tracker, t) && r.cpu < MAX_NUM_CPUS && stop == t.stop && currentTime == Clock(t.records, t.now)
    modifies tracker
    ensures Knows(tracker, t.(records := t.records + [r])) && time == Clock(t.records + [r], t.now)
  {
    assert (t.records + [r])[..|t.records|] == t.records;
    forall cpu, id {
      TallyForSnoc(t.records, r, t.now, t.start, t.stop, cpu, id);
    }
    time := currentTime;
    if r.kind == Time {
      time := r.time;
    }
    if !IsClockOnly(r) {
      ImportRecord(tracker, r, time, stop);
    }
  }

  // ImportRecords in tally mode: the number of records read and the tallies emitted.
  method ImportRecords(t: Trace, cpus: seq<Cpu>, events: seq<EventId>) returns (count: nat, out: seq<TallyRecord>)
    requires forall i | 0 <= i < |t.records| :: t.records[i].cpu < MAX_NUM_CPUS
    requires forall i | 0 <= i < |cpus| :: cpus[i] < MAX_NUM_CPUS
    ensures count == |t.records| && out == ReportAll(t, cpus, events)
    ensures Accounts(t, cpus, events, out) && exists places :: InOrder(cpus, events, out, places)
  {
    var tracker := new EventTracker(t.start);
    var currentTime := t.now;
    count := 0;
    assert t.records[..0] == [];
    while count < |t.records|
      invariant count <= |t.records|
      invariant currentTime == Clock(t.records[..count], t.now)
      invariant Knows(tracker, t.(records := t.records[..count]))
    {
      ghost var seen := t.(records := t.records[..count]);
      assert t.records[..count + 1] == seen.records + [t.records[count]];
      currentTime := ImportNext(tracker, seen, t.records[count], currentTime, t.stop);
      count := count + 1;
    }
    assert t.records[..count] == t.records;
    out := EmitTallyCounts(tracker, t, cpus, events);
    ReportAccounts(t, cpus, events);
    assert cpus[..|cpus|] == cpus;
    ghost var places := AllInOrder(t, cpus, events, |cpus|);
  }

  method EmitTallyCounts(tracker: EventTracker, t: Trace, cpus: seq<Cpu>, events: seq<EventId>)
    returns (out: seq<TallyRecord>)
    requires Knows(tracker, t) && forall i | 0 <= i < |cpus| :: cpus[i] < MAX_NUM_CPUS
    ensures out == ReportAll(t, cpus, events)
  {
    out := [];
    assert cpus[..0] == [];
    for i := 0 to |cpus|
      invariant out == ReportAll(t, cpus[..i], events)
    {
      assert cpus[..i + 1][..i] == cpus[..i];
      var more := EmitEvents(tracker, t, cpus[i], events);
      out := out + more;
    }
    assert cpus[..|cpus|] == cpus;
  }

  // The body of the loop over cpus.
  method EmitEvents(tracker: EventTracker, t: Trace, cpu: Cpu, events: seq<EventId>) returns (out: seq<TallyRecord>)
    requires Knows(tracker, t) && cpu < MAX_NUM_CPUS
    ensures out == ReportEvents(t, cpu, events)
  {
    out := [];
    assert events[..0] == [];
    for i := 0 to |events|
      invariant out == ReportEvents(t, cpu, events[..i])
    {
      assert events[..i + 1][..i] == events[..i];
      var have := tracker.HaveValue(cpu, events[i]);
      if have {
        var d := tracker.Get(cpu, events[i]);
        if d.isValue {
          out := out + [TallyRecord(cpu, events[i], t.stop, true, d.amount)];
        } else {
          out := out + [TallyRecord(cpu, events[i], t.start, false, 0),
                        TallyRecord(cpu, events[i], t.stop, false, d.amount)];
        }
      } else {
        assert out + [] == out;
      }
    }
    assert events[..|events|] == events;
  }
}
