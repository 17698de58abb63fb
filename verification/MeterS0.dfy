/** The S0 impulse counter, src/protocols/MeterS0.cpp. */
module MeterS0 {
  import opened Common

  const BILLION: int := 1_000_000_000
  const MILLION: int := 1_000_000
  const SHIFT: int := 0x4000_0000      // 1 << 30

  datatype Timespec = Timespec(sec: int, nsec: int)

  predicate Norm(t: Timespec) { 0 <= t.nsec < BILLION }

  function Ns(t: Timespec): int { t.sec * BILLION + t.nsec }

  /** Widths of unsigned long on the supported targets. */
  predicate Width(w: int) { w == TWO32 || w == TWO64 }

  // ------------------------------------------------------------------ the timespec helpers

  function Sub(a: Timespec, b: Timespec): Timespec {
    if a.nsec - b.nsec < 0 then Timespec(a.sec - b.sec - 1, a.nsec - b.nsec + BILLION)
    else Timespec(a.sec - b.sec, a.nsec - b.nsec)
  }

  lemma SubExact(a: Timespec, b: Timespec)
    requires Norm(a) && Norm(b)
    ensures Norm(Sub(a, b)) && Ns(Sub(a, b)) == Ns(a) - Ns(b)
  {
  }

  /** The normalized time at a number of nanoseconds. */
  function AtNs(ns: int): (t: Timespec)
    ensures Norm(t) && Ns(t) == ns
  {
    Timespec(ns / BILLION, ns % BILLION)
  }

  lemma AtNsUnique(t: Timespec)
    requires Norm(t)
    ensures t == AtNs(Ns(t))
  {
  }

  method Normalize(a: Timespec) returns (r: Timespec)
    requires a.nsec >= 0
    ensures r == AtNs(Ns(a))
  {
    r := a;
    while r.nsec >= BILLION
      invariant r.nsec >= 0 && Ns(r) == Ns(a)
      decreases r.nsec
    {
      r := Timespec(r.sec + 1, r.nsec - BILLION);
    }
    AtNsUnique(r);
  }

  method TimespecAdd(a: Timespec, b: Timespec) returns (r: Timespec)
    requires Norm(a) && Norm(b)
    ensures r == AtNs(Ns(a) + Ns(b))
  {
    r := Normalize(Timespec(a.sec + b.sec, a.nsec + b.nsec));
  }

  method TimespecAddMs(a: Timespec, ms: nat) returns (r: Timespec)
    requires Norm(a)
    ensures r == AtNs(Ns(a) + ms * MILLION)
  {
    assert ms == ms / 1000 * 1000 + ms % 1000;
    r := Normalize(Timespec(a.sec + ms / 1000, a.nsec + ms % 1000 * MILLION));
  }

  /** Difference in milliseconds as unsigned long arithmetic of width w computes it. */
  function SubMs(w: int, a: Timespec, b: Timespec): int
    requires Width(w)
  {
    var ret := (a.sec - b.sec) % w;
    if a.nsec < b.nsec then
      ((ret - 1) % w * 1000 % w + (BILLION + a.nsec - b.nsec) % w / MILLION) % w
    else
      (ret * 1000 % w + (a.nsec - b.nsec) % w / MILLION) % w
  }

  lemma WrapSteps(s: int, borrow: int, f: int, w: int)
    requires Width(w)
    ensures ((s % w - borrow) % w * 1000 % w + f) % w == ((s - borrow) * 1000 + f) % w
  {
    var q := s / w;
    assert s % w - borrow == s - borrow + (-q) * w;
    ModAdd(s - borrow, -q, w);
    var x := s - borrow;
    var p := x / w;
    assert x % w * 1000 == x * 1000 + (-1000 * p) * w;
    ModAdd(x * 1000, -1000 * p, w);
    var y := x * 1000;
    var r := y / w;
    assert y % w + f == y + f + (-r) * w;
    ModAdd(y + f, -r, w);
  }

  /** The result is the floor of the true difference in milliseconds, modulo the width: for every pair of
      normalized times, later or earlier. */
  lemma SubMsExact(w: int, a: Timespec, b: Timespec)
    requires Width(w) && Norm(a) && Norm(b)
    ensures SubMs(w, a, b) == (Ns(a) - Ns(b)) / MILLION % w
    ensures 0 <= Ns(a) - Ns(b) < w * MILLION <==> SubMs(w, a, b) == (Ns(a) - Ns(b)) / MILLION
  {
    var borrow := if a.nsec < b.nsec then 1 else 0;
    var part := a.nsec - b.nsec + borrow * BILLION;
    var f := part / MILLION;
    var q := (a.sec - b.sec - borrow) * 1000 + f;
    DifferenceParts(a, b, borrow);
    SubMsParts(w, a, b, borrow);
    QuotientFits(Ns(a) - Ns(b), q, w);
  }

  lemma DifferenceParts(a: Timespec, b: Timespec, borrow: int)
    requires Norm(a) && Norm(b) && borrow == if a.nsec < b.nsec then 1 else 0
    ensures var part := a.nsec - b.nsec + borrow * BILLION;
            var q := (a.sec - b.sec - borrow) * 1000 + part / MILLION;
            && (Ns(a) - Ns(b)) / MILLION == q
            && q * MILLION <= Ns(a) - Ns(b) < (q + 1) * MILLION
  {
    var part := a.nsec - b.nsec + borrow * BILLION;
    var q := (a.sec - b.sec - borrow) * 1000 + part / MILLION;
    assert Ns(a) - Ns(b) == q * MILLION + part % MILLION;
    ModOf(q, part % MILLION, MILLION);
  }

  lemma SubMsParts(w: int, a: Timespec, b: Timespec, borrow: int)
    requires Width(w) && Norm(a) && Norm(b) && borrow == if a.nsec < b.nsec then 1 else 0
    ensures var part := a.nsec - b.nsec + borrow * BILLION;
            SubMs(w, a, b) == ((a.sec - b.sec - borrow) * 1000 + part / MILLION) % w
  {
    var part := a.nsec - b.nsec + borrow * BILLION;
    SmallMod(part, w);
    NoBorrow(a.sec - b.sec, w);
    WrapSteps(a.sec - b.sec, borrow, part / MILLION, w);
  }

  lemma NoBorrow(s: int, w: int)
    requires Width(w)
    ensures s % w % w == s % w
  {
    SmallMod(s % w, w);
  }

  lemma QuotientFits(diff: int, q: int, w: int)
    requires Width(w) && q * MILLION <= diff < (q + 1) * MILLION
    ensures 0 <= diff < w * MILLION <==> q % w == q
  {
    if 0 <= q < w { SmallMod(q, w); }
  }

  /** Adding the difference back lands less than a millisecond before the later time. */
  lemma AddBackMs(w: int, a: Timespec, b: Timespec)
    requires Width(w) && Norm(a) && Norm(b) && 0 <= Ns(a) - Ns(b) < w * MILLION
    ensures Ns(a) - MILLION < Ns(AtNs(Ns(b) + SubMs(w, a, b) * MILLION)) <= Ns(a)
  {
    SubMsExact(w, a, b);
  }

  // ------------------------------------------------------------------ the meter

  /** Fields shared by the counter thread and the reader. */
  datatype State = State(impulses: int, impulsesNeg: int, lastRead: Timespec, lastRef: Timespec,
                         msLast: int, lastReturned: Timespec, first: bool)

  datatype Reading = Reading(id: string, time: Timespec, value: real)

  datatype Config = Config(width: int, blocking: bool, sendZero: bool, resolution: int)

  ghost predicate ConfigOk(c: Config) { Width(c.width) && c.resolution > 0 }

  function Opened(now: Timespec): State { State(0, 0, now, now, 0, now, true) }

  /** A trigger seen by the counter thread of a blocking interface: the time is always noted, the
      impulse only if the interface confirms it (a UART always does). */
  function Trigger(w: int, s: State, now: Timespec, confirmed: bool, negative: bool): State
    requires Width(w)
  {
    var s1 := s.(msLast := SubMs(w, now, s.lastRef));
    if !confirmed then s1
    else if negative then s1.(impulsesNeg := (s.impulsesNeg + 1) % TWO32)
    else s1.(impulses := (s.impulses + 1) % TWO32)
  }

  /** Time of the last impulse in nanoseconds. */
  function Last(s: State): int { Ns(s.lastRef) + s.msLast * MILLION }

  function ShiftRef(s: State): State {
    if s.msLast > SHIFT then
      s.(lastRef := AtNs(Ns(s.lastRef) + SHIFT * MILLION), msLast := s.msLast - SHIFT)
    else s
  }

  /** Moving 2^30 ms into the reference keeps the time of the last impulse. */
  lemma ShiftRefKeepsLast(s: State)
    ensures Last(ShiftRef(s)) == Last(s) && Ns(ShiftRef(s).lastRef) <= Ns(s.lastRef) + SHIFT * MILLION
    ensures s.msLast >= 0 ==> 0 <= ShiftRef(s).msLast <= s.msLast
  {
  }

  function Zero(s: State): bool { s.impulses == 0 && s.impulsesNeg == 0 }

  /** The impulse counters taken over by the reader; the first readings are returned with the first impulse,
      or with the first read if zeros are sent. */
  function Taken(c: Config, s: State): State {
    s.(impulses := 0, impulsesNeg := 0, first := s.first && !c.sendZero && Zero(s))
  }

  /** The time a read returns, with the moving reference behind it. A zero read moves the reference on
      by the time since the last read. */
  function Advance(c: Config, s: State, now: Timespec, isZero: bool): (State, Timespec) {
    if c.blocking then
      var s1 := if isZero then s.(lastRef := AtNs(Ns(s.lastRef) + Ns(Sub(now, s.lastRead)))) else s;
      var time := AtNs(Last(s1));
      (ShiftRef(s1).(lastReturned := time, lastRead := now), time)
    else (s.(lastRead := now), now)
  }

  lemma AdvanceFirst(c: Config, s: State, now: Timespec, isZero: bool, first: bool)
    ensures Advance(c, s.(first := first), now, isZero) ==
            (Advance(c, s, now, isZero).0.(first := first), Advance(c, s, now, isZero).1)
    ensures Advance(c, s, now, isZero).0.first == s.first
  {
  }

  /** One read: the waiting impulses are taken over and the time advances. */
  function Read(c: Config, s: State, now: Timespec): (State, Timespec) {
    Advance(c, Taken(c, s), now, Zero(s))
  }

  function Seconds(t: Timespec): real { t.sec as real + t.nsec as real / 1000000000.0 }

  function Power(c: Config, t1: real, t2: real, n: int): real
    requires c.resolution > 0 && t1 != t2
  {
    3600000.0 / ((t2 - t1) * c.resolution as real) * n as real
  }

  /** Readings of one direction: the power, except on the first impulse, and the count. */
  function Emit(c: Config, first: bool, suffix: string, time: Timespec, t1: real, t2: real, n: int): seq<Reading>
    requires c.resolution > 0 && t1 != t2
  {
    if !c.sendZero && n <= 0 then []
    else
      (if first then [] else [Reading("Power" + suffix, time, Power(c, t1, t2, n))]) +
      [Reading("Impulse" + suffix, time, n as real)]
  }

  /** All readings of one call. */
  function Readings(c: Config, s: State, now: Timespec): seq<Reading>
    requires c.resolution > 0
  {
    var (s1, time) := Read(c, s, now);
    var t1 := Seconds(if c.blocking then s.lastReturned else s.lastRead);
    var t := Seconds(time);
    var t2 := if t == t1 then t + 0.000001 else t;
    Emit(c, s.first, "", time, t1, t2, s.impulses) + Emit(c, s.first, "_neg", time, t1, t2, s.impulsesNeg)
  }

  // ------------------------------------------------------------------ time never runs backwards

  /** A confirmed impulse, a trigger the interface rejects after debounce, or a read. */
  datatype Event = Impulse(now: Timespec, negative: bool) | Rejected(now: Timespec) | Reads(now: Timespec)

  function Apply(c: Config, s: State, e: Event): State
    requires ConfigOk(c)
  {
    match e
    case Impulse(now, negative) => Trigger(c.width, s, now, true, negative)
    case Rejected(now) => Trigger(c.width, s, now, false, false)
    case Reads(now) => Read(c, s, now).0
  }

  /** The clock does not go back; a trigger comes within one turn of the millisecond counter after the
      reference; fewer than 2^32 impulses wait; without send_zero a read returns only with impulses. */
  ghost predicate Enabled(c: Config, s: State, clock: int, e: Event) {
    && Norm(e.now) && clock <= Ns(e.now)
    && match e
       case Impulse(now, _) =>
         && Ns(now) - Ns(s.lastRef) < c.width * MILLION
         && s.impulses + 1 < TWO32 && s.impulsesNeg + 1 < TWO32
       case Rejected(now) => Ns(now) - Ns(s.lastRef) < c.width * MILLION
       case Reads(_) => c.sendZero || !Zero(s)
  }

  ghost predicate Inv(s: State, clock: int) {
    && Norm(s.lastRead) && Norm(s.lastRef) && Norm(s.lastReturned)
    && 0 <= s.impulses < TWO32 && 0 <= s.impulsesNeg < TWO32 && 0 <= s.msLast
    && Last(s) <= clock && Ns(s.lastRead) <= clock
    && Ns(s.lastReturned) <= Last(s) && Ns(s.lastRef) <= Ns(s.lastRead)
  }

  /** Without waiting impulses the last trigger is not later than the last read. */
  ghost predicate Settled(s: State) { Zero(s) ==> Last(s) <= Ns(s.lastRead) }

  lemma OpenedInv(now: Timespec)
    requires Norm(now)
    ensures Inv(Opened(now), Ns(now)) && Settled(Opened(now))
  {
  }

  /** The milliseconds noted for a trigger within one turn of the counter. */
  lemma TriggerMs(w: int, now: Timespec, ref: Timespec)
    requires Width(w) && Norm(now) && Norm(ref) && 0 <= Ns(now) - Ns(ref) < w * MILLION
    ensures var ms := SubMs(w, now, ref); 0 <= ms && ms * MILLION <= Ns(now) - Ns(ref) < ms * MILLION + MILLION
  {
    hide SubMs, Ns;
    SubMsExact(w, now, ref);
  }

  lemma TriggerKeepsInv(c: Config, s: State, clock: int, now: Timespec, confirmed: bool, negative: bool)
    requires ConfigOk(c) && c.blocking && Inv(s, clock)
    requires Enabled(c, s, clock, if confirmed then Impulse(now, negative) else Rejected(now))
    ensures var s1 := Trigger(c.width, s, now, confirmed, negative);
            Inv(s1, Ns(now)) && Last(s) <= Last(s1) && (confirmed ==> Settled(s1))
  {
    hide SubMs, Ns;
    TriggerMs(c.width, now, s.lastRef);
    if confirmed {
      SmallMod(s.impulses + 1, TWO32);
      SmallMod(s.impulsesNeg + 1, TWO32);
    }
  }

  /** Each event keeps the invariant, if a zero read finds the state settled. */
  lemma ApplyKeepsInv(c: Config, s: State, clock: int, e: Event)
    requires ConfigOk(c) && c.blocking && Inv(s, clock) && Enabled(c, s, clock, e)
    requires e.Reads? ==> Settled(s)
    ensures Inv(Apply(c, s, e), Ns(e.now)) && clock <= Ns(e.now)
    ensures !e.Rejected? ==> Settled(Apply(c, s, e))
    ensures if e.Reads? then
              var time := Read(c, s, e.now).1;
              Ns(s.lastReturned) <= Ns(time) <= Ns(e.now) && Apply(c, s, e).lastReturned == time
            else Apply(c, s, e).lastReturned == s.lastReturned
  {
    hide Inv, Enabled, Read, Settled;
    EnabledClock(c, s, clock, e);
    match e
    case Impulse(now, negative) => TriggerKeepsInv(c, s, clock, now, true, negative);
    case Rejected(now) => TriggerKeepsInv(c, s, clock, now, false, false);
    case Reads(now) => ReadKeepsInv(c, s, clock, now);
  }

  lemma EnabledClock(c: Config, s: State, clock: int, e: Event)
    requires ConfigOk(c) && Enabled(c, s, clock, e)
    ensures clock <= Ns(e.now)
  {
  }

  lemma ReadKeepsInv(c: Config, s: State, clock: int, now: Timespec)
    requires c.blocking && Inv(s, clock) && Enabled(c, s, clock, Reads(now)) && Settled(s)
    ensures var (s1, time) := Read(c, s, now);
            && Inv(s1, Ns(now)) && Settled(s1) && Last(s) <= Last(s1)
            && Ns(s.lastReturned) <= Ns(time) == Last(s1) <= Ns(s1.lastRead) == Ns(now)
            && time == s1.lastReturned && Zero(s1)
  {
    SubExact(now, s.lastRead);
    var s1 := if Zero(s) then s.(lastRef := AtNs(Ns(s.lastRef) + Ns(Sub(now, s.lastRead)))) else Taken(c, s);
    ShiftRefKeepsLast(s1);
  }

  ghost predicate AllEnabled(c: Config, s: State, clock: int, events: seq<Event>)
    requires ConfigOk(c)
    decreases |events|
  {
    events == [] ||
    (Enabled(c, s, clock, events[0]) && AllEnabled(c, Apply(c, s, events[0]), Ns(events[0].now), events[1..]))
  }

  /** Times returned by the reads of a run. */
  function Returned(c: Config, s: State, events: seq<Event>): seq<Timespec>
    requires ConfigOk(c)
    decreases |events|
  {
    if events == [] then []
    else
      (if events[0].Reads? then [Read(c, s, events[0].now).1] else []) +
      Returned(c, Apply(c, s, events[0]), events[1..])
  }

  function End(clock: int, events: seq<Event>): int {
    if events == [] then clock else Ns(events[|events| - 1].now)
  }

  /** Times in ascending order between two bounds. */
  ghost predicate Ordered(low: int, ts: seq<Timespec>, high: int) {
    && (forall i :: 0 <= i < |ts| ==> low <= Ns(ts[i]) <= high)
    && (forall i, j :: 0 <= i < j < |ts| ==> Ns(ts[i]) <= Ns(ts[j]))
  }

  lemma OrderedNone(low: int, high: int)
    ensures Ordered(low, [], high)
  {
  }

  lemma OrderedCons(low: int, t: Timespec, ts: seq<Timespec>, high: int)
    requires low <= Ns(t) <= high && Ordered(Ns(t), ts, high)
    ensures Ordered(low, [t] + ts, high)
  {
    hide Ns;
  }

  /** Every zero read of a run finds the state settled. */
  ghost predicate Guarded(c: Config, s: State, events: seq<Event>)
    requires ConfigOk(c)
    decreases |events|
  {
    events == [] || ((events[0].Reads? ==> Settled(s)) && Guarded(c, Apply(c, s, events[0]), events[1..]))
  }

  /** Every read of a run returns a time not after the clock. */
  ghost predicate OnTime(c: Config, s: State, events: seq<Event>)
    requires ConfigOk(c)
    decreases |events|
  {
    events == [] ||
    (&& (events[0].Reads? ==> Ns(Read(c, s, events[0].now).1) <= Ns(events[0].now))
     && OnTime(c, Apply(c, s, events[0]), events[1..]))
  }

  ghost predicate AllConfirmed(events: seq<Event>) {
    forall i :: 0 <= i < |events| ==> !events[i].Rejected?
  }

  /** Over every run, rejected triggers included: all returned times are on time if and only if each zero
      read comes when the last trigger is not later than the last read. */
  lemma {:induction false} OnTimeIffGuarded(c: Config, s: State, clock: int, events: seq<Event>)
    requires ConfigOk(c) && c.blocking && Inv(s, clock) && AllEnabled(c, s, clock, events)
    ensures OnTime(c, s, events) <==> Guarded(c, s, events)
    decreases |events|
  {
    hide Inv, Enabled, Apply, Read, Settled;
    if events != [] {
      var e := events[0];
      if e.Reads? { ReadOnTime(c, s, clock, e.now); }
      if e.Reads? ==> Settled(s) {
        ApplyKeepsInv(c, s, clock, e);
        OnTimeIffGuarded(c, Apply(c, s, e), Ns(e.now), events[1..]);
      }
    }
  }

  lemma ReadOnTime(c: Config, s: State, clock: int, now: Timespec)
    requires c.blocking && Inv(s, clock) && Enabled(c, s, clock, Reads(now))
    ensures Ns(Read(c, s, now).1) <= Ns(now) <==> Settled(s)
  {
    hide Ns;
    if Zero(s) { ZeroReadOnTime(c, s, now); }
  }

  /** In such a run returned times never decrease, never lie before the last one returned, and never after
      the clock. */
  lemma {:induction false} GuardedTimesMonotone(c: Config, s: State, clock: int, events: seq<Event>)
    requires ConfigOk(c) && c.blocking && Inv(s, clock) && AllEnabled(c, s, clock, events) && Guarded(c, s, events)
    ensures Ordered(Ns(s.lastReturned), Returned(c, s, events), End(clock, events)) && clock <= End(clock, events)
    decreases |events|
  {
    hide Inv, Enabled, Apply, Read, Ordered, Settled;
    if events == [] {
      OrderedNone(Ns(s.lastReturned), clock);
    } else {
      var e := events[0];
      ApplyKeepsInv(c, s, clock, e);
      var s1 := Apply(c, s, e);
      GuardedTimesMonotone(c, s1, Ns(e.now), events[1..]);
      assert End(Ns(e.now), events[1..]) == End(clock, events);
      if e.Reads? {
        OrderedCons(Ns(s.lastReturned), Read(c, s, e.now).1, Returned(c, s1, events[1..]), End(clock, events));
      } else {
        assert Returned(c, s, events) == [] + Returned(c, s1, events[1..]) == Returned(c, s1, events[1..]);
      }
    }
  }

  /** If every trigger is confirmed, each zero read comes at such a moment. */
  lemma {:induction false} ConfirmedGuarded(c: Config, s: State, clock: int, events: seq<Event>)
    requires ConfigOk(c) && c.blocking && Inv(s, clock) && Settled(s) && AllEnabled(c, s, clock, events)
    requires AllConfirmed(events)
    ensures Guarded(c, s, events)
    decreases |events|
  {
    hide Inv, Enabled, Apply, Settled;
    if events != [] {
      ApplyKeepsInv(c, s, clock, events[0]);
      ConfirmedGuarded(c, Apply(c, s, events[0]), Ns(events[0].now), events[1..]);
    }
  }

  /** Over every run with confirmed triggers: returned times never decrease, never lie before the last one
      returned, and never after the clock. */
  lemma TimesMonotone(c: Config, s: State, clock: int, events: seq<Event>)
    requires ConfigOk(c) && c.blocking && Inv(s, clock) && Settled(s) && AllEnabled(c, s, clock, events)
    requires AllConfirmed(events)
    ensures Ordered(Ns(s.lastReturned), Returned(c, s, events), End(clock, events)) && clock <= End(clock, events)
  {
    hide Inv, Settled, AllEnabled, Guarded, Returned, Ordered, End;
    ConfirmedGuarded(c, s, clock, events);
    GuardedTimesMonotone(c, s, clock, events);
  }

  /** A run in which no more than 2^30 ms, twelve days, pass between a read and the next event; nothing is
      said about the reference. */
  ghost predicate Timely(c: Config, s: State, clock: int, e: Event) {
    && Norm(e.now) && clock <= Ns(e.now) <= Ns(s.lastRead) + 0x4000_0000 * MILLION
    && match e
       case Impulse(_, _) => s.impulses + 1 < TWO32 && s.impulsesNeg + 1 < TWO32
       case Rejected(_) => true
       case Reads(_) => c.sendZero || !Zero(s)
  }

  ghost predicate AllTimely(c: Config, s: State, clock: int, events: seq<Event>)
    requires ConfigOk(c)
    decreases |events|
  {
    events == [] ||
    (Timely(c, s, clock, events[0]) && AllTimely(c, Apply(c, s, events[0]), Ns(events[0].now), events[1..]))
  }

  /** The reference is never far behind the last read, and a waiting impulse came after that read. */
  ghost predicate Lag(s: State) {
    && Ns(s.lastRead) - Ns(s.lastRef) <= (2 * 0x4000_0000 + 1) * MILLION
    && (!Zero(s) ==> Last(s) > Ns(s.lastRead) - MILLION)
  }

  lemma TimelyEnabled(c: Config, s: State, clock: int, e: Event)
    requires ConfigOk(c) && Lag(s) && Timely(c, s, clock, e)
    ensures Enabled(c, s, clock, e)
  {
    hide Ns;
  }

  lemma TriggerKeepsLag(c: Config, s: State, clock: int, now: Timespec, confirmed: bool, negative: bool)
    requires ConfigOk(c) && Inv(s, clock) && Lag(s)
    requires Enabled(c, s, clock, if confirmed then Impulse(now, negative) else Rejected(now))
    ensures Lag(Trigger(c.width, s, now, confirmed, negative))
  {
    hide SubMs, Ns;
    TriggerMs(c.width, now, s.lastRef);
  }

  lemma ReadKeepsLag(c: Config, s: State, clock: int, now: Timespec)
    requires ConfigOk(c) && c.blocking && Inv(s, clock) && Lag(s) && Timely(c, s, clock, Reads(now))
    ensures Lag(Read(c, s, now).0)
  {
    hide Sub, AtNs, Ns;
    SubExact(now, s.lastRead);
  }

  /** The overflow guard is enough: in a run with timely events, whatever the width of unsigned long, each
      trigger comes within one turn of the millisecond counter after the reference. Zero reads must come at
      a settled moment, as they do if all triggers are confirmed. */
  lemma {:induction false} GuardSuffices(c: Config, s: State, clock: int, events: seq<Event>)
    requires ConfigOk(c) && c.blocking && Inv(s, clock) && Lag(s) && AllTimely(c, s, clock, events)
    requires Guarded(c, s, events) || (Settled(s) && AllConfirmed(events))
    ensures AllEnabled(c, s, clock, events)
    decreases |events|
  {
    hide Inv, Lag, Timely, Enabled, Read, Trigger, Settled;
    if events != [] {
      var e := events[0];
      TimelyEnabled(c, s, clock, e);
      ApplyKeepsInv(c, s, clock, e);
      match e {
        case Impulse(now, negative) => TriggerKeepsLag(c, s, clock, now, true, negative);
        case Rejected(now) => TriggerKeepsLag(c, s, clock, now, false, false);
        case Reads(now) => ReadKeepsLag(c, s, clock, now);
      }
      GuardSuffices(c, Apply(c, s, e), Ns(e.now), events[1..]);
    }
  }

  /** From opening on, with timely events and confirmed triggers: returned times ascend between the opening
      and the clock. */
  lemma TimesFromOpen(c: Config, now: Timespec, events: seq<Event>)
    requires ConfigOk(c) && c.blocking && Norm(now) && AllTimely(c, Opened(now), Ns(now), events)
    requires AllConfirmed(events)
    ensures Ordered(Ns(now), Returned(c, Opened(now), events), End(Ns(now), events))
  {
    hide Returned, AllEnabled, AllTimely, Ordered, End, Guarded;
    OpenedInv(now);
    GuardSuffices(c, Opened(now), Ns(now), events);
    TimesMonotone(c, Opened(now), Ns(now), events);
  }

  /** Reading Power from a run's readings: never negative. */
  lemma PowerNotNegative(c: Config, s: State, clock: int, now: Timespec)
    requires ConfigOk(c) && c.blocking && Inv(s, clock) && Enabled(c, s, clock, Reads(now)) && Settled(s)
    ensures forall i :: 0 <= i < |Readings(c, s, now)| ==> Readings(c, s, now)[i].value >= 0.0
  {
    ReadKeepsInv(c, s, clock, now);
    var time := Read(c, s, now).1;
    var t1, t := Seconds(s.lastReturned), Seconds(time);
    SecondsMonotone(s.lastReturned, time);
    var t2 := if t == t1 then t + 0.000001 else t;
    PowerSign(c, t1, t2, s.impulses);
    PowerSign(c, t1, t2, s.impulsesNeg);
  }

  lemma SecondsMonotone(a: Timespec, b: Timespec)
    requires Norm(a) && Norm(b) && Ns(a) <= Ns(b)
    ensures Seconds(a) <= Seconds(b)
  {
  }

  lemma PowerSign(c: Config, t1: real, t2: real, n: int)
    requires c.resolution > 0 && t1 < t2 && n >= 0
    ensures Power(c, t1, t2, n) >= 0.0
  {
    var d := (t2 - t1) * c.resolution as real;
    assert d > 0.0;
    var q := 3600000.0 / d;
    assert q * d == 3600000.0;
    assert q > 0.0;
    assert q * n as real >= 0.0;
  }

  /** A zero read returns a time no later than the clock exactly when the last trigger is not later than
      the last read; a trigger that was not confirmed can break this. */
  lemma ZeroReadOnTime(c: Config, s: State, now: Timespec)
    requires c.blocking && Zero(s) && Norm(now) && Norm(s.lastRead) && Norm(s.lastRef)
    ensures Ns(Read(c, s, now).1) <= Ns(now) <==> Last(s) <= Ns(s.lastRead)
  {
    SubExact(now, s.lastRead);
  }

  lemma UnconfirmedTriggerRunsAhead(c: Config, now: Timespec)
    requires ConfigOk(c) && c.blocking && c.sendZero && Norm(now)
    ensures var trigger := Timespec(now.sec + 1, now.nsec); var read := Timespec(now.sec + 2, now.nsec);
            var s := Trigger(c.width, Opened(now), trigger, false, false);
            Ns(Read(c, s, read).1) == Ns(read) + BILLION
  {
    var trigger := Timespec(now.sec + 1, now.nsec);
    SubMsExact(c.width, trigger, now);
    SubExact(Timespec(now.sec + 2, now.nsec), now);
  }

  function Later(now: Timespec, ms: nat): Timespec { AtNs(Ns(now) + ms * MILLION) }

  /** A trigger within the turn of the counter, in whole milliseconds after the reference. */
  lemma TriggerAt(w: int, s: State, now: Timespec, ms: nat, confirmed: bool)
    requires Width(w) && Norm(now) && Norm(s.lastRef) && ms < TWO32 && Ns(now) == Ns(s.lastRef) + ms * MILLION
    ensures Trigger(w, s, now, confirmed, false).msLast == ms
  {
    hide SubMs;
    SubMsExact(w, now, s.lastRef);
    ModOf(ms, 0, MILLION);
  }

  /** A run that goes back: a trigger rejected one second after opening makes the zero read a second later
      return three seconds; the impulse confirmed after two and a half seconds then returns that time. */
  lemma RejectedTriggerRunsBack(c: Config, now: Timespec)
    requires ConfigOk(c) && c.blocking && c.sendZero && Norm(now)
    ensures var events := [Rejected(Later(now, 1000)), Reads(Later(now, 2000)),
                           Impulse(Later(now, 2500), false), Reads(Later(now, 3000))];
            && AllTimely(c, Opened(now), Ns(now), events)
            && Returned(c, Opened(now), events) == [Later(now, 3000), Later(now, 2500)]
  {
    var e0, e1, e2, e3 := Rejected(Later(now, 1000)), Reads(Later(now, 2000)),
                          Impulse(Later(now, 2500), false), Reads(Later(now, 3000));
    var s0 := Opened(now);
    var s1, s2 := s0.(msLast := 1000), s0.(lastRef := Later(now, 2000), msLast := 1000, lastRead := Later(now, 2000),
                                          lastReturned := Later(now, 3000), first := false);
    var s3 := s2.(msLast := 500, impulses := 1);
    RunsBackSteps(c, now);
    hide Read, Trigger;
    TimelyCons(c, s3, Ns(e2.now), e3, []);
    TimelyCons(c, s2, Ns(e1.now), e2, [e3]);
    TimelyCons(c, s1, Ns(e0.now), e1, [e2, e3]);
    TimelyCons(c, s0, Ns(now), e0, [e1, e2, e3]);
    assert [e0] + ([e1] + ([e2] + ([e3] + []))) == [e0, e1, e2, e3];
    assert [e1] + [e2, e3] == [e1, e2, e3] && [e2] + [e3] == [e2, e3] && [e3] + [] == [e3];
    assert [e0] + [e1, e2, e3] == [e0, e1, e2, e3];
  }

  /** One event in front of a run. */
  lemma TimelyCons(c: Config, s: State, clock: int, e: Event, rest: seq<Event>)
    requires ConfigOk(c) && Timely(c, s, clock, e) && AllTimely(c, Apply(c, s, e), Ns(e.now), rest)
    ensures AllTimely(c, s, clock, [e] + rest)
    ensures Returned(c, s, [e] + rest) ==
            (if e.Reads? then [Read(c, s, e.now).1] else []) + Returned(c, Apply(c, s, e), rest)
  {
    hide Timely, Apply, Read;
    assert ([e] + rest)[1..] == rest;
  }

  lemma EnabledCons(c: Config, s: State, clock: int, e: Event, rest: seq<Event>)
    requires ConfigOk(c) && Enabled(c, s, clock, e) && AllEnabled(c, Apply(c, s, e), Ns(e.now), rest)
    ensures AllEnabled(c, s, clock, [e] + rest)
    ensures Returned(c, s, [e] + rest) ==
            (if e.Reads? then [Read(c, s, e.now).1] else []) + Returned(c, Apply(c, s, e), rest)
  {
    hide Enabled, Apply, Read;
    assert ([e] + rest)[1..] == rest;
  }

  /** The states of that run. */
  lemma RunsBackSteps(c: Config, now: Timespec)
    requires ConfigOk(c) && c.blocking && c.sendZero && Norm(now)
    ensures var s0 := Opened(now);
            var s1, s2 := s0.(msLast := 1000), s0.(lastRef := Later(now, 2000), msLast := 1000,
                                                  lastRead := Later(now, 2000), lastReturned := Later(now, 3000),
                                                  first := false);
            var s3 := s2.(msLast := 500, impulses := 1);
            && Trigger(c.width, s0, Later(now, 1000), false, false) == s1
            && Read(c, s1, Later(now, 2000)) == (s2, Later(now, 3000))
            && Trigger(c.width, s2, Later(now, 2500), true, false) == s3
            && Read(c, s3, Later(now, 3000)).1 == Later(now, 2500)
  {
    hide SubMs, Sub;
    var s0 := Opened(now);
    var s2 := s0.(lastRef := Later(now, 2000), msLast := 1000, lastRead := Later(now, 2000),
                  lastReturned := Later(now, 3000), first := false);
    TriggerAt(c.width, s0, Later(now, 1000), 1000, false);
    SubExact(Later(now, 2000), now);
    TriggerAt(c.width, s2, Later(now, 2500), 500, true);
    SmallMod(1, TWO32);
  }

  function Max(a: int, b: int): int { if a < b then b else a }

  /** After a zero read that finds the state unsettled, an impulse can come before the time it returned: at
      the read itself, or at the reference if the shift has moved that beyond the clock. */
  lemma BackByImpulse(c: Config, s: State, clock: int, now: Timespec, trigger: Timespec)
    requires ConfigOk(c) && c.blocking && Inv(s, clock) && Enabled(c, s, clock, Reads(now)) && !Settled(s)
    requires s.msLast < c.width
    requires trigger == AtNs(Max(Ns(now), Ns(Read(c, s, now).0.lastRef)))
    ensures var (s1, time) := Read(c, s, now); var s2 := Trigger(c.width, s1, trigger, true, false);
            && Ns(s1.lastRef) <= Ns(trigger) < Ns(time) && Ns(trigger) - Ns(s1.lastRef) < c.width * MILLION
            && Enabled(c, s1, Ns(now), Impulse(trigger, false))
            && Enabled(c, s2, Ns(trigger), Reads(Later(trigger, 1000)))
            && Ns(Read(c, s2, Later(trigger, 1000)).1) < Ns(time)
  {
    hide SubMs, Sub;
    var (s1, time) := Read(c, s, now);
    SubExact(now, s.lastRead);
    ShiftRefKeepsLast(s.(lastRef := AtNs(Ns(s.lastRef) + Ns(Sub(now, s.lastRead)))));
    TriggerMs(c.width, trigger, s1.lastRef);
    SmallMod(1, TWO32);
  }

  /** After an unsettled zero read some continuation returns an earlier time, with the second that the code
      waits between two reads. */
  lemma UnsettledRunsBack(c: Config, s: State, clock: int, now: Timespec) returns (trigger: Timespec)
    requires ConfigOk(c) && c.blocking && Inv(s, clock) && Enabled(c, s, clock, Reads(now)) && !Settled(s)
    requires s.msLast < c.width
    ensures var later := Later(trigger, 1000);
            var events := [Reads(now), Impulse(trigger, false), Reads(later)]; var ts := Returned(c, s, events);
            && Ns(later) >= Ns(now) + BILLION
            && AllEnabled(c, s, clock, events) && |ts| == 2 && Ns(ts[1]) < Ns(ts[0])
  {
    var s1 := Read(c, s, now).0;
    trigger := AtNs(Max(Ns(now), Ns(s1.lastRef)));
    BackByImpulse(c, s, clock, now, trigger);
    hide Read, Trigger, Enabled, Inv;
    var e0, e1, e2 := Reads(now), Impulse(trigger, false), Reads(Later(trigger, 1000));
    var s2 := Apply(c, s1, e1);
    EnabledCons(c, s2, Ns(trigger), e2, []);
    assert [e2] + [] == [e2];
    EnabledCons(c, s1, Ns(now), e1, [e2]);
    assert [e1] + [e2] == [e1, e2];
    EnabledCons(c, s, clock, e0, [e1, e2]);
    assert [e0] + [e1, e2] == [e0, e1, e2];
  }

  /** A run that is not guarded shares everything up to its first unsettled zero read with a run whose
      returned times go back. With GuardedTimesMonotone: times ascend in all continuations of a run's reads
      exactly if those are guarded. */
  lemma {:induction false} UnguardedRunsBack(c: Config, s: State, clock: int, events: seq<Event>)
    returns (k: nat, other: seq<Event>, i: nat)
    requires ConfigOk(c) && c.blocking && Inv(s, clock) && AllEnabled(c, s, clock, events) && s.msLast < c.width
    requires !Guarded(c, s, events)
    ensures k < |events| && events[k].Reads? && |other| == k + 3 && other[..k + 1] == events[..k + 1]
    ensures other[k + 2].Reads? && Ns(other[k + 2].now) >= Ns(events[k].now) + BILLION
    ensures AllEnabled(c, s, clock, other)
    ensures var ts := Returned(c, s, other); i + 1 < |ts| && Ns(ts[i + 1]) < Ns(ts[i])
    decreases |events|
  {
    hide Inv, Enabled, Apply, Read, Settled;
    var e := events[0];
    if e.Reads? && !Settled(s) {
      var trigger := UnsettledRunsBack(c, s, clock, e.now);
      k, other, i := 0, [e, Impulse(trigger, false), Reads(Later(trigger, 1000))], 0;
    } else {
      ApplyKeepsInv(c, s, clock, e);
      ApplyFits(c, s, e);
      var rest, j;
      k, rest, j := UnguardedRunsBack(c, Apply(c, s, e), Ns(e.now), events[1..]);
      other := [e] + rest;
      EnabledCons(c, s, clock, e, rest);
      i := if e.Reads? then j + 1 else j;
      assert events[..k + 2] == [e] + events[1..][..k + 1];
      assert other[..k + 2] == [e] + rest[..k + 1];
      k := k + 1;
    }
  }

  /** The millisecond counter is an unsigned long. */
  lemma ApplyFits(c: Config, s: State, e: Event)
    requires ConfigOk(c) && c.blocking && s.msLast < c.width
    ensures Apply(c, s, e).msLast < c.width
  {
  }

  // ------------------------------------------------------------------ what a read reports

  /** Seconds that a power is the mean of: since the time returned before, or, without a blocking interface,
      since the read before; a microsecond if no time has passed. */
  function Elapsed(c: Config, s: State, time: Timespec): (r: real)
    ensures r != 0.0
  {
    var d := (Ns(time) - Ns(if c.blocking then s.lastReturned else s.lastRead)) as real / 1000000000.0;
    if d == 0.0 then 0.000001 else d
  }

  /** Readings of one direction, from position o on: the count, and before it, except on the first impulse,
      the mean power of that many impulses. */
  ghost predicate Reports(c: Config, first: bool, suffix: string, time: Timespec, seconds: real, n: int,
                          rs: seq<Reading>, o: nat) {
    var k := if first then 0 else 1;
    && o + k < |rs| && rs[o + k] == Reading("Impulse" + suffix, time, n as real)
    && (!first ==>
          && rs[o].id == "Power" + suffix && rs[o].time == time
          && rs[o].value * (seconds * c.resolution as real) == 3600000.0 * n as real)
  }

  lemma PowerLaw(c: Config, t1: real, t2: real, n: int)
    requires c.resolution > 0 && t1 != t2
    ensures Power(c, t1, t2, n) * ((t2 - t1) * c.resolution as real) == 3600000.0 * n as real
  {
    var d := (t2 - t1) * c.resolution as real;
    NotZero(t2 - t1, c.resolution as real);
    var q := 3600000.0 / d;
    assert q * d == 3600000.0;
    Swap(q, n as real, d);
  }

  lemma NotZero(a: real, b: real)
    requires a != 0.0 && b > 0.0
    ensures a * b != 0.0
  {
  }

  lemma Swap(a: real, b: real, d: real)
    ensures a * b * d == a * d * b
  {
  }

  lemma EmitReports(c: Config, first: bool, suffix: string, time: Timespec, t1: real, t2: real, n: int)
    requires c.resolution > 0 && t1 != t2
    ensures var rs := Emit(c, first, suffix, time, t1, t2, n);
            if c.sendZero || n > 0 then
              Reports(c, first, suffix, time, t2 - t1, n, rs, 0) && |rs| == if first then 1 else 2
            else rs == []
  {
    hide Power;
    PowerLaw(c, t1, t2, n);
  }

  /** The difference of the two times the code computes with. */
  lemma SecondsElapsed(c: Config, s: State, time: Timespec)
    ensures var t1 := Seconds(if c.blocking then s.lastReturned else s.lastRead); var t := Seconds(time);
            (if t == t1 then t + 0.000001 else t) - t1 == Elapsed(c, s, time)
  {
  }

  /** All a read returns: the forward direction if zeros are sent or there were forward impulses, then the
      backward one likewise, each with its own count and power, all at the time of the read. */
  lemma ReadingsMean(c: Config, s: State, now: Timespec)
    requires c.resolution > 0 && 0 <= s.impulses && 0 <= s.impulsesNeg
    ensures var rs, time := Readings(c, s, now), Read(c, s, now).1;
            var forward, backward := c.sendZero || s.impulses > 0, c.sendZero || s.impulsesNeg > 0;
            var size := if s.first then 1 else 2; var o := if forward then size else 0;
            && |rs| == o + (if backward then size else 0)
            && (forward ==> Reports(c, s.first, "", time, Elapsed(c, s, time), s.impulses, rs, 0))
            && (backward ==> Reports(c, s.first, "_neg", time, Elapsed(c, s, time), s.impulsesNeg, rs, o))
            && (Read(c, s, now).0.first <==> s.first && rs == [])
  {
    hide Emit, Seconds, Elapsed, Sub, AtNs, Reports;
    var time := Read(c, s, now).1;
    var t1, t := Seconds(if c.blocking then s.lastReturned else s.lastRead), Seconds(time);
    var t2 := if t == t1 then t + 0.000001 else t;
    SecondsElapsed(c, s, time);
    EmitReports(c, s.first, "", time, t1, t2, s.impulses);
    EmitReports(c, s.first, "_neg", time, t1, t2, s.impulsesNeg);
    ReportsJoined(c, s.first, time, t2 - t1, s.impulses, s.impulsesNeg, Emit(c, s.first, "", time, t1, t2, s.impulses),
                  Emit(c, s.first, "_neg", time, t1, t2, s.impulsesNeg));
    ReadFirst(c, s, now);
  }

  lemma ReadFirst(c: Config, s: State, now: Timespec)
    ensures Read(c, s, now).0.first == (s.first && !c.sendZero && Zero(s))
  {
  }

  lemma ReportsJoined(c: Config, first: bool, time: Timespec, seconds: real, n: int, m: int,
                      a: seq<Reading>, b: seq<Reading>)
    ensures Reports(c, first, "", time, seconds, n, a, 0) ==> Reports(c, first, "", time, seconds, n, a + b, 0)
    ensures Reports(c, first, "_neg", time, seconds, m, b, 0) ==>
              Reports(c, first, "_neg", time, seconds, m, a + b, |a|)
  {
    assert forall i :: 0 <= i < |a| ==> (a + b)[i] == a[i];
    assert forall i :: 0 <= i < |b| ==> (a + b)[|a| + i] == b[i];
  }

  /** Sum of the values of the readings with an identifier. */
  function Total(rs: seq<Reading>, id: string): real
    decreases |rs|
  {
    if rs == [] then 0.0 else (if rs[0].id == id then rs[0].value else 0.0) + Total(rs[1..], id)
  }

  lemma {:induction false} TotalConcat(a: seq<Reading>, b: seq<Reading>, id: string)
    ensures Total(a + b, id) == Total(a, id) + Total(b, id)
    decreases |a|
  {
    if a == [] {
      assert a + b == b;
    } else {
      assert (a + b)[1..] == a[1..] + b;
      TotalConcat(a[1..], b, id);
    }
  }

  function ApplyAll(c: Config, s: State, events: seq<Event>): State
    requires ConfigOk(c)
    decreases |events|
  {
    if events == [] then s else ApplyAll(c, Apply(c, s, events[0]), events[1..])
  }

  /** Everything the reads of a run return. */
  function AllReadings(c: Config, s: State, events: seq<Event>): seq<Reading>
    requires ConfigOk(c)
    decreases |events|
  {
    if events == [] then []
    else
      (if events[0].Reads? then Readings(c, s, events[0].now) else []) +
      AllReadings(c, Apply(c, s, events[0]), events[1..])
  }

  /** Confirmed triggers of one direction. */
  function Confirmed(events: seq<Event>, negative: bool): nat
    decreases |events|
  {
    if events == [] then 0
    else (if events[0].Impulse? && events[0].negative == negative then 1 else 0) + Confirmed(events[1..], negative)
  }

  /** One event: what it reports and what then waits is what waited and what it brings. */
  lemma EventCounts(c: Config, s: State, clock: int, e: Event)
    requires ConfigOk(c) && Enabled(c, s, clock, e) && 0 <= s.impulses && 0 <= s.impulsesNeg
    ensures var rs := if e.Reads? then Readings(c, s, e.now) else []; var s1 := Apply(c, s, e);
            && 0 <= s1.impulses && 0 <= s1.impulsesNeg
            && Total(rs, "Impulse") + s1.impulses as real == (s.impulses + Confirmed([e], false)) as real
            && Total(rs, "Impulse_neg") + s1.impulsesNeg as real == (s.impulsesNeg + Confirmed([e], true)) as real
  {
    hide SubMs, Sub, Readings, Elapsed, Ns;
    assert Confirmed([e][1..], false) == Confirmed([e][1..], true) == 0;
    match e {
      case Impulse(now, negative) =>
        SmallMod(s.impulses + 1, TWO32);
        SmallMod(s.impulsesNeg + 1, TWO32);
      case Rejected(now) =>
      case Reads(now) => ReadCounts(c, s, now);
    }
  }

  lemma ReadCounts(c: Config, s: State, now: Timespec)
    requires ConfigOk(c) && 0 <= s.impulses && 0 <= s.impulsesNeg
    ensures var rs := Readings(c, s, now);
            Total(rs, "Impulse") == s.impulses as real && Total(rs, "Impulse_neg") == s.impulsesNeg as real
  {
    hide Readings, Elapsed, Read;
    ReadingsMean(c, s, now);
    var rs := Readings(c, s, now);
    var size, forward := if s.first then 1 else 2, c.sendZero || s.impulses > 0;
    var o := if forward then size else 0;
    assert "Impulse" + "" == "Impulse" && "Power" + "" == "Power" && "Impulse_neg" == "Impulse" + "_neg";
    assert rs == rs[..o] + rs[o..];
    TotalConcat(rs[..o], rs[o..], "Impulse");
    TotalConcat(rs[..o], rs[o..], "Impulse_neg");
    Names();
    TotalPart(rs[..o], s.first, "Power", "Impulse", s.impulses, "Impulse_neg");
    TotalPart(rs[o..], s.first, "Power_neg", "Impulse_neg", s.impulsesNeg, "Impulse");
  }

  /** The identifiers are different. */
  lemma Names()
    ensures "Power" != "Impulse" && "Power" != "Impulse_neg" && "Power_neg" != "Impulse" && "Power_neg" != "Impulse_neg"
    ensures "Impulse" != "Impulse_neg" && "Power" + "_neg" == "Power_neg"
  {
    assert "Power"[0] == 'P' && "Power_neg"[0] == 'P' && "Impulse"[0] == 'I' && "Impulse_neg"[0] == 'I';
    assert |"Impulse"| != |"Impulse_neg"|;
  }

  lemma TotalPart(rs: seq<Reading>, first: bool, power: string, id: string, n: int, other: string)
    requires rs == [] || (|rs| == (if first then 1 else 2) && rs[|rs| - 1].id == id && rs[|rs| - 1].value == n as real)
    requires rs != [] && !first ==> rs[0].id == power
    requires rs == [] ==> n == 0
    ensures power != id ==> Total(rs, id) == n as real
    ensures other != power && other != id ==> Total(rs, other) == 0.0
  {
    if |rs| == 1 {
      assert rs[1..] == [];
    } else if |rs| == 2 {
      assert rs[1..][1..] == [] && rs[1..][0] == rs[1];
      assert Total(rs[1..], id) == n as real + Total([], id);
      assert other != id ==> Total(rs[1..], other) == 0.0 + Total([], other);
    }
  }

  /** Over every run: the counts reported for a direction and the impulses still waiting are those that waited
      at the start and the confirmed triggers of that direction. */
  lemma {:induction false} ImpulsesReported(c: Config, s: State, clock: int, events: seq<Event>)
    requires ConfigOk(c) && AllEnabled(c, s, clock, events) && 0 <= s.impulses && 0 <= s.impulsesNeg
    ensures var e, rs := ApplyAll(c, s, events), AllReadings(c, s, events);
            && Total(rs, "Impulse") + e.impulses as real == (s.impulses + Confirmed(events, false)) as real
            && Total(rs, "Impulse_neg") + e.impulsesNeg as real == (s.impulsesNeg + Confirmed(events, true)) as real
    decreases |events|
  {
    hide Enabled, Apply, Readings;
    if events == [] {
      NothingReported();
    } else {
      var e := events[0];
      EventCounts(c, s, clock, e);
      ImpulsesReported(c, Apply(c, s, e), Ns(e.now), events[1..]);
      var first, rest := if e.Reads? then Readings(c, s, e.now) else [], AllReadings(c, Apply(c, s, e), events[1..]);
      TotalConcat(first, rest, "Impulse");
      TotalConcat(first, rest, "Impulse_neg");
      ConfirmedFirst(events, false);
      ConfirmedFirst(events, true);
    }
  }

  lemma NothingReported()
    ensures Total([], "Impulse") == 0.0 && Total([], "Impulse_neg") == 0.0
  {
  }

  lemma ConfirmedFirst(events: seq<Event>, negative: bool)
    requires events != []
    ensures Confirmed(events, negative) == Confirmed([events[0]], negative) + Confirmed(events[1..], negative)
  {
    assert [events[0]][1..] == [];
  }

  // ------------------------------------------------------------------ which time a read returns

  /** With impulses waiting, a read returns the time of the last trigger, less than a millisecond early. */
  lemma ImpulseTime(c: Config, s: State, clock: int, trigger: Event, now: Timespec)
    requires ConfigOk(c) && c.blocking && Inv(s, clock) && Enabled(c, s, clock, trigger) && !trigger.Reads?
    requires !Zero(Apply(c, s, trigger))
    ensures var time := Read(c, Apply(c, s, trigger), now).1;
            Norm(time) && Ns(trigger.now) - MILLION < Ns(time) <= Ns(trigger.now)
  {
    hide SubMs, Ns, Sub;
    TriggerMs(c.width, trigger.now, s.lastRef);
  }

  /** Between two reads without a trigger the returned time moves on as the clock does. */
  lemma ZeroReadMoves(c: Config, s: State, clock: int, now: Timespec, later: Timespec)
    requires ConfigOk(c) && c.blocking && Inv(s, clock) && Norm(now) && Norm(later) && Ns(now) <= Ns(later)
    ensures var (s1, time) := Read(c, s, now);
            Ns(Read(c, s1, later).1) - Ns(time) == Ns(later) - Ns(now) && s1.lastReturned == time
  {
    SubExact(now, s.lastRead);
    SubExact(later, now);
    var s1 := if Zero(s) then s.(lastRef := AtNs(Ns(s.lastRef) + Ns(Sub(now, s.lastRead)))) else Taken(c, s);
    ShiftRefKeepsLast(s1);
  }

  /** The first read after opening, if no trigger came, returns the clock. */
  lemma FirstReadTime(c: Config, start: Timespec, now: Timespec)
    requires c.blocking && Norm(start) && Norm(now)
    ensures Read(c, Opened(start), now).1 == now
  {
    SubExact(now, start);
    AtNsUnique(now);
  }

  lemma {:induction false} FirstStays(c: Config, s: State, events: seq<Event>)
    requires ConfigOk(c) && forall i :: 0 <= i < |events| ==> !events[i].Reads?
    ensures ApplyAll(c, s, events).first == s.first
    ensures s.impulses >= 0 && s.impulsesNeg >= 0 ==>
              ApplyAll(c, s, events).impulses >= 0 && ApplyAll(c, s, events).impulsesNeg >= 0
    decreases |events|
  {
    hide SubMs;
    if events != [] { FirstStays(c, Apply(c, s, events[0]), events[1..]); }
  }

  /** The first read after opening reports no power, whatever triggers came before it. */
  lemma FirstReadCounts(c: Config, start: Timespec, triggers: seq<Event>, now: Timespec)
    requires ConfigOk(c) && forall i :: 0 <= i < |triggers| ==> !triggers[i].Reads?
    ensures var rs := Readings(c, ApplyAll(c, Opened(start), triggers), now);
            forall i :: 0 <= i < |rs| ==> rs[i].id in {"Impulse", "Impulse_neg"}
  {
    hide Readings;
    FirstStays(c, Opened(start), triggers);
    FirstIds(c, ApplyAll(c, Opened(start), triggers), now);
  }

  lemma FirstIds(c: Config, s: State, now: Timespec)
    requires c.resolution > 0 && 0 <= s.impulses && 0 <= s.impulsesNeg && s.first
    ensures forall i :: 0 <= i < |Readings(c, s, now)| ==> Readings(c, s, now)[i].id in {"Impulse", "Impulse_neg"}
  {
    hide Read, Readings, Elapsed;
    ReadingsMean(c, s, now);
    assert "Impulse" + "" == "Impulse" && "Impulse" + "_neg" == "Impulse_neg";
  }

  /** Without a blocking interface reads return the clock, and the next one measures from there. */
  lemma PolledRead(c: Config, s: State, now: Timespec)
    requires !c.blocking
    ensures var (s1, time) := Read(c, s, now);
            time == now && s1 == s.(impulses := 0, impulsesNeg := 0, lastRead := now, first := s1.first)
  {
  }

  // ------------------------------------------------------------------ no impulse lost or counted twice

  /** Where the reader is inside read. */
  datatype ReaderAt =
    | Waiting                            // before the load of the first counter
    | LoadedOne(t: int)
    | LoadedBoth(t: int, tn: int)
    | SubtractedOne(t: int, tn: int)
    | SubtractedBoth(t: int, tn: int)    // before the readings are returned

  /** One direction's bookkeeping: what the counter thread counted and what reads reported. */
  datatype Counters = Counters(impulses: int, impulsesNeg: int, at: ReaderAt,
                               counted: int, countedNeg: int, reported: int, reportedNeg: int)

  const COUNTERS_START := Counters(0, 0, Waiting, 0, 0, 0, 0)

  /** Atomic steps of the two threads. */
  datatype CountStep = Count | CountNeg | Reader

  function ReaderStep(sendZero: bool, c: Counters): Counters {
    match c.at
    case Waiting => c.(at := LoadedOne(c.impulses))
    case LoadedOne(t) => c.(at := LoadedBoth(t, c.impulsesNeg))
    case LoadedBoth(t, tn) =>
      if t > 0 || tn > 0 then c.(at := SubtractedOne(t, tn), impulses := (c.impulses - t) % TWO32)
      else if sendZero then c.(at := SubtractedBoth(0, 0))
      else c.(at := Waiting)
    case SubtractedOne(t, tn) => c.(at := SubtractedBoth(t, tn), impulsesNeg := (c.impulsesNeg - tn) % TWO32)
    case SubtractedBoth(t, tn) => c.(at := Waiting, reported := c.reported + t, reportedNeg := c.reportedNeg + tn)
  }

  function CountersStep(sendZero: bool, c: Counters, step: CountStep): Counters {
    match step
    case Count => c.(impulses := (c.impulses + 1) % TWO32, counted := c.counted + 1)
    case CountNeg => c.(impulsesNeg := (c.impulsesNeg + 1) % TWO32, countedNeg := c.countedNeg + 1)
    case Reader => ReaderStep(sendZero, c)
  }

  function CountersRun(sendZero: bool, c: Counters, steps: seq<CountStep>): Counters
    decreases |steps|
  {
    if steps == [] then c else CountersRun(sendZero, CountersStep(sendZero, c, steps[0]), steps[1..])
  }

  /** Impulses taken off a counter but not yet reported. */
  function InFlight(c: Counters): int {
    if c.at.SubtractedOne? || c.at.SubtractedBoth? then c.at.t else 0
  }

  function InFlightNeg(c: Counters): int {
    if c.at.SubtractedBoth? then c.at.tn else 0
  }

  ghost predicate Balanced(c: Counters) {
    && 0 <= c.impulses < TWO32 && 0 <= c.impulsesNeg < TWO32
    && (c.counted - c.reported - InFlight(c) - c.impulses) % TWO32 == 0
    && (c.countedNeg - c.reportedNeg - InFlightNeg(c) - c.impulsesNeg) % TWO32 == 0
  }

  lemma WrapBalance(a: int, b: int)
    ensures (a - b % TWO32) % TWO32 == (a - b) % TWO32
  {
    var q := b / TWO32;
    assert a - b % TWO32 == a - b + q * TWO32;
    ModAdd(a - b, q, TWO32);
  }

  lemma StepKeepsBalance(sendZero: bool, c: Counters, step: CountStep)
    requires Balanced(c)
    ensures Balanced(CountersStep(sendZero, c, step))
  {
    match step
    case Count => WrapBalance(c.counted + 1 - c.reported - InFlight(c), c.impulses + 1);
    case CountNeg => WrapBalance(c.countedNeg + 1 - c.reportedNeg - InFlightNeg(c), c.impulsesNeg + 1);
    case Reader =>
      match c.at {
        case LoadedBoth(t, tn) => WrapBalance(c.counted - c.reported - t, c.impulses - t);
        case SubtractedOne(t, tn) => WrapBalance(c.countedNeg - c.reportedNeg - tn, c.impulsesNeg - tn);
        case _ =>
      }
  }

  /** Under any interleaving of increments with the load and subtract steps of read, counted impulses
      are the reported ones, those in flight and those still in the counter, modulo the width of the
      counter; exactly so whenever fewer than 2^32 impulses are outstanding. */
  lemma {:induction false} CountsConserved(sendZero: bool, c: Counters, steps: seq<CountStep>)
    requires Balanced(c)
    ensures var e := CountersRun(sendZero, c, steps);
            && Balanced(e)
            && (0 <= e.counted - e.reported - InFlight(e) < TWO32 ==>
                  e.counted == e.reported + InFlight(e) + e.impulses)
            && (0 <= e.countedNeg - e.reportedNeg - InFlightNeg(e) < TWO32 ==>
                  e.countedNeg == e.reportedNeg + InFlightNeg(e) + e.impulsesNeg)
    decreases |steps|
  {
    if steps != [] {
      StepKeepsBalance(sendZero, c, steps[0]);
      CountsConserved(sendZero, CountersStep(sendZero, c, steps[0]), steps[1..]);
    }
  }

  /** Exact bookkeeping, as long as no counter has wrapped: what was loaded is still there to subtract. */
  ghost predicate Exact(c: Counters) {
    && c.counted == c.reported + InFlight(c) + c.impulses
    && c.countedNeg == c.reportedNeg + InFlightNeg(c) + c.impulsesNeg
    && 0 <= c.impulses && 0 <= c.impulsesNeg && 0 <= c.reported && 0 <= c.reportedNeg
    && match c.at
       case Waiting => true
       case LoadedOne(t) => 0 <= t <= c.impulses
       case LoadedBoth(t, tn) => 0 <= t <= c.impulses && 0 <= tn <= c.impulsesNeg
       case SubtractedOne(t, tn) => 0 <= t && 0 <= tn <= c.impulsesNeg
       case SubtractedBoth(t, tn) => 0 <= t && 0 <= tn
  }

  lemma StepExact(sendZero: bool, c: Counters, step: CountStep)
    requires Exact(c) && c.counted < TWO32 && c.countedNeg < TWO32
    requires step == Count ==> c.counted + 1 < TWO32
    requires step == CountNeg ==> c.countedNeg + 1 < TWO32
    ensures Exact(CountersStep(sendZero, c, step))
  {
    hide ReaderStep;
    match step
    case Count => SmallMod(c.impulses + 1, TWO32);
    case CountNeg => SmallMod(c.impulsesNeg + 1, TWO32);
    case Reader => ReaderExact(sendZero, c);
  }

  lemma ReaderExact(sendZero: bool, c: Counters)
    requires Exact(c) && c.counted < TWO32 && c.countedNeg < TWO32
    ensures Exact(ReaderStep(sendZero, c))
  {
    match c.at
    case LoadedBoth(t, tn) => SmallMod(c.impulses - t, TWO32);
    case SubtractedOne(t, tn) => SmallMod(c.impulsesNeg - tn, TWO32);
    case _ =>
  }

  function Times(steps: seq<CountStep>, step: CountStep): nat
    decreases |steps|
  {
    if steps == [] then 0 else (if steps[0] == step then 1 else 0) + Times(steps[1..], step)
  }

  /** Up to 2^32 - 1 impulses of a direction, none is lost and none is counted twice, however increments,
      loads and subtractions interleave. */
  lemma {:induction false} NoImpulseLost(sendZero: bool, c: Counters, steps: seq<CountStep>)
    requires Exact(c)
    requires c.counted + Times(steps, Count) < TWO32 && c.countedNeg + Times(steps, CountNeg) < TWO32
    ensures var e := CountersRun(sendZero, c, steps);
            && e.counted == c.counted + Times(steps, Count) == e.reported + InFlight(e) + e.impulses
            && e.countedNeg == c.countedNeg + Times(steps, CountNeg) == e.reportedNeg + InFlightNeg(e) + e.impulsesNeg
            && Exact(e)
    decreases |steps|
  {
    hide Exact, CountersStep;
    if steps == [] {
      ExactMeans(c);
    } else {
      StepExact(sendZero, c, steps[0]);
      StepCounts(sendZero, c, steps[0]);
      NoImpulseLost(sendZero, CountersStep(sendZero, c, steps[0]), steps[1..]);
    }
  }

  lemma ExactMeans(c: Counters)
    requires Exact(c)
    ensures c.counted == c.reported + InFlight(c) + c.impulses
    ensures c.countedNeg == c.reportedNeg + InFlightNeg(c) + c.impulsesNeg
  {
  }

  lemma StepCounts(sendZero: bool, c: Counters, step: CountStep)
    ensures var e := CountersStep(sendZero, c, step);
            && e.counted == c.counted + (if step == Count then 1 else 0)
            && e.countedNeg == c.countedNeg + (if step == CountNeg then 1 else 0)
  {
  }

  /** From the start: every increment is reported, in flight or still in its counter, exactly below 2^32
      impulses of a direction and modulo 2^32 beyond. */
  lemma CountsFromStart(sendZero: bool, steps: seq<CountStep>)
    ensures var e := CountersRun(sendZero, COUNTERS_START, steps);
            && Balanced(e)
            && (Times(steps, Count) < TWO32 && Times(steps, CountNeg) < TWO32 ==>
                  && Times(steps, Count) == e.reported + InFlight(e) + e.impulses
                  && Times(steps, CountNeg) == e.reportedNeg + InFlightNeg(e) + e.impulsesNeg)
  {
    hide Balanced, Exact, CountersRun, Times;
    StartExact();
    CountsConserved(sendZero, COUNTERS_START, steps);
    if Times(steps, Count) < TWO32 && Times(steps, CountNeg) < TWO32 {
      NoImpulseLost(sendZero, COUNTERS_START, steps);
    }
  }

  /** The reader alone, n steps on. */
  function ReaderTurns(sendZero: bool, c: Counters, n: nat): Counters
    decreases n
  {
    if n == 0 then c else ReaderTurns(sendZero, ReaderStep(sendZero, c), n - 1)
  }

  /** A read that is not disturbed reports everything that waited, and leaves nothing; without impulses it ends
      if zeros are sent, and else starts anew. */
  lemma ReadCompletes(sendZero: bool, c: Counters)
    requires c.at == Waiting && 0 <= c.impulses && 0 <= c.impulsesNeg
    ensures c.impulses > 0 || c.impulsesNeg > 0 ==>
              ReaderTurns(sendZero, c, 5) ==
              c.(impulses := 0, impulsesNeg := 0, reported := c.reported + c.impulses,
                 reportedNeg := c.reportedNeg + c.impulsesNeg)
    ensures c.impulses == c.impulsesNeg == 0 ==>
              && ReaderTurns(sendZero, c, if sendZero then 4 else 3) == c
              && (sendZero <==> ReaderTurns(sendZero, c, 3).at == SubtractedBoth(0, 0))
  {
    var three := ReaderTurns(sendZero, c, 3);
    assert three == ReaderStep(sendZero, ReaderStep(sendZero, ReaderStep(sendZero, c)));
    assert ReaderTurns(sendZero, c, 4) == ReaderStep(sendZero, three);
    assert ReaderTurns(sendZero, c, 5) == ReaderStep(sendZero, ReaderStep(sendZero, three));
  }

  lemma StartExact()
    ensures Exact(COUNTERS_START) && Balanced(COUNTERS_START)
  {
    var c := COUNTERS_START;
    assert InFlight(c) == 0 && InFlightNeg(c) == 0;
    SmallMod(0, TWO32);
  }

  // ------------------------------------------------------------------ polling a non-blocking interface

  /** The valid samples among the results of status(); negative results are errors. */
  function Valid(samples: seq<int>): seq<int>
    decreases |samples|
  {
    if samples == [] then [] else (if samples[0] >= 0 then [samples[0]] else []) + Valid(samples[1..])
  }

  /** Number of steps from low to high. */
  function Rises(levels: seq<int>): nat
    decreases |levels|
  {
    if |levels| < 2 then 0
    else (if levels[0] == 0 && levels[1] != 0 then 1 else 0) + Rises(levels[1..])
  }

  lemma {:induction false} RisesSnoc(levels: seq<int>, x: int)
    requires levels != []
    ensures Rises(levels + [x]) == Rises(levels) + if levels[|levels| - 1] == 0 && x != 0 then 1 else 0
  {
    if |levels| == 1 {
      assert (levels + [x])[1..] == [x];
    } else {
      assert (levels + [x])[1..] == levels[1..] + [x];
      RisesSnoc(levels[1..], x);
    }
  }

  lemma {:induction false} ValidSnoc(samples: seq<int>, x: int)
    ensures Valid(samples + [x]) == Valid(samples) + if x >= 0 then [x] else []
    decreases |samples|
  {
    if samples == [] {
      assert samples + [x] == [x] && [x][1..] == [] && Valid([]) == [];
    } else {
      var rest, last := Valid(samples[1..]), if x >= 0 then [x] else [];
      var head := if samples[0] >= 0 then [samples[0]] else [];
      assert (samples + [x])[1..] == samples[1..] + [x];
      ValidSnoc(samples[1..], x);
      assert Valid(samples + [x]) == head + (rest + last);
      assert head + (rest + last) == (head + rest) + last;
    }
  }

  lemma NothingSampled(start: int)
    ensures [start] + Valid([]) == [start] && Rises([start]) == 0 && Level(start, []) == start
    ensures forall on :: RisesWith(start, [], [], on) == 0
  {
  }

  /** The last valid level before the end of the samples. */
  function Level(start: int, samples: seq<int>): int {
    if samples == [] then start
    else if samples[|samples| - 1] >= 0 then samples[|samples| - 1]
    else Level(start, samples[..|samples| - 1])
  }

  /** Samples above zero that follow a low level, with the direction input on or off at that moment. */
  function RisesWith(start: int, samples: seq<int>, direction: seq<int>, on: bool): nat
    requires |direction| == |samples|
  {
    if samples == [] then 0
    else
      var n := |samples| - 1;
      RisesWith(start, samples[..n], direction[..n], on) +
      if samples[n] > 0 && Level(start, samples[..n]) == 0 && (direction[n] > 0) == on then 1 else 0
  }

  lemma {:induction false} LevelIsLastValid(start: int, samples: seq<int>)
    ensures var levels := [start] + Valid(samples); Level(start, samples) == levels[|levels| - 1]
  {
    if samples != [] {
      var n := |samples| - 1;
      LevelIsLastValid(start, samples[..n]);
      assert samples[..n] + [samples[n]] == samples;
      ValidSnoc(samples[..n], samples[n]);
    }
  }

  lemma WithSnoc(start: int, samples: seq<int>, direction: seq<int>, i: nat, on: bool)
    requires |direction| == |samples| && i < |samples|
    ensures RisesWith(start, samples[..i + 1], direction[..i + 1], on) ==
            RisesWith(start, samples[..i], direction[..i], on) +
            if samples[i] > 0 && Level(start, samples[..i]) == 0 && (direction[i] > 0) == on then 1 else 0
    ensures Level(start, samples[..i + 1]) == if samples[i] >= 0 then samples[i] else Level(start, samples[..i])
  {
    assert samples[..i + 1][..i] == samples[..i] && direction[..i + 1][..i] == direction[..i];
  }

  /** The polling loop counts each low-to-high transition among the valid samples once, for the direction
      input of that moment, starting from the first state, or from low if that could not be read. */
  method CountEdges(first: int, samples: seq<int>, direction: seq<int>) returns (impulses: nat, impulsesNeg: nat)
    requires |direction| == |samples|
    ensures var start := if first >= 0 then first else 0;
            && impulses + impulsesNeg == Rises([start] + Valid(samples))
            && impulses == RisesWith(start, samples, direction, false)
            && impulsesNeg == RisesWith(start, samples, direction, true)
  {
    hide Valid, Rises, RisesWith, Level;
    var start := if first >= 0 then first else 0;
    var lastState := start;
    impulses, impulsesNeg := 0, 0;
    NothingSampled(start);
    for i := 0 to |samples|
      invariant lastState == Level(start, samples[..i]) >= 0
      invariant impulses + impulsesNeg == Rises([start] + Valid(samples[..i]))
      invariant impulses == RisesWith(start, samples[..i], direction[..i], false)
      invariant impulsesNeg == RisesWith(start, samples[..i], direction[..i], true)
    {
      var state := samples[i];
      WithSnoc(start, samples, direction, i, false);
      WithSnoc(start, samples, direction, i, true);
      RisesNext(start, samples, i);
      if state >= 0 && state != lastState {
        if lastState == 0 {
          if direction[i] > 0 {
            impulsesNeg := impulsesNeg + 1;
          } else {
            impulses := impulses + 1;
          }
        }
        lastState := state;
      }
    }
    assert samples[..|samples|] == samples && direction[..|direction|] == direction;
  }

  lemma RisesNext(start: int, samples: seq<int>, i: nat)
    requires i < |samples|
    ensures Rises([start] + Valid(samples[..i + 1])) ==
            Rises([start] + Valid(samples[..i])) +
            if samples[i] > 0 && Level(start, samples[..i]) == 0 then 1 else 0
  {
    hide Rises, Valid, Level;
    var levels := [start] + Valid(samples[..i]);
    assert samples[..i + 1] == samples[..i] + [samples[i]];
    ValidSnoc(samples[..i], samples[i]);
    LevelIsLastValid(start, samples[..i]);
    if samples[i] >= 0 {
      RisesSnoc(levels, samples[i]);
      assert [start] + Valid(samples[..i + 1]) == levels + [samples[i]];
    } else {
      assert Valid(samples[..i + 1]) == Valid(samples[..i]);
    }
  }

  // ------------------------------------------------------------------ the class

  class Meter {
    const config: Config
    var impulses: int
    var impulsesNeg: int
    var timeLastRead: Timespec
    var timeLastRef: Timespec
    var msLastImpulse: int
    var timeLastImpulseReturned: Timespec
    var firstImpulse: bool

    ghost function View(): State
      reads this
    {
      State(impulses, impulsesNeg, timeLastRead, timeLastRef, msLastImpulse, timeLastImpulseReturned, firstImpulse)
    }

    ghost predicate Normal()
      reads this
    {
      && Norm(timeLastRead) && Norm(timeLastRef) && Norm(timeLastImpulseReturned)
      && 0 <= impulses && 0 <= impulsesNeg && 0 <= msLastImpulse
    }

    constructor Open(config: Config, now: Timespec)
      requires ConfigOk(config) && Norm(now)
      ensures this.config == config && View() == Opened(now) && Normal()
    {
      this.config := config;
      impulses, impulsesNeg := 0, 0;
      timeLastRead, timeLastRef, timeLastImpulseReturned := now, now, now;
      msLastImpulse := 0;
      firstImpulse := true;
    }

    /** The counter thread after waitForImpulse and the debounce delay. */
    method OnTrigger(now: Timespec, status: int, direction: int)
      requires ConfigOk(config) && Normal() && Norm(now)
      modifies this`impulses, this`impulsesNeg, this`msLastImpulse
      ensures Normal() && View() == Trigger(config.width, old(View()), now, status != 0, direction > 0)
    {
      msLastImpulse := SubMs(config.width, now, timeLastRef);
      if status != 0 {
        if direction > 0 {
          impulsesNeg := (impulsesNeg + 1) % TWO32;
        } else {
          impulses := (impulses + 1) % TWO32;
        }
      }
    }

    method CheckRefForOverflow()
      requires Normal()
      modifies this`timeLastRef, this`msLastImpulse
      ensures Normal() && View() == ShiftRef(old(View()))
    {
      if msLastImpulse > SHIFT {
        timeLastRef := TimespecAddMs(timeLastRef, SHIFT);
        msLastImpulse := msLastImpulse - SHIFT;
      }
    }

    method AdvanceTime(now: Timespec, isZero: bool) returns (req: Timespec, t1: real)
      requires Normal() && Norm(now) && Ns(timeLastRead) <= Ns(now)
      modifies this`timeLastRef, this`msLastImpulse, this`timeLastImpulseReturned, this`timeLastRead
      ensures Normal() && (View(), req) == Advance(config, old(View()), now, isZero)
      ensures t1 == Seconds(if config.blocking then old(timeLastImpulseReturned) else old(timeLastRead))
    {
      hide Ns, Sub, AtNs, Seconds;
      req := now;
      if config.blocking {
        if isZero {
          SubExact(req, timeLastRead);
          timeLastRef := TimespecAdd(timeLastRef, Sub(req, timeLastRead));
        }
        t1 := Seconds(timeLastImpulseReturned);
        var time := TimespecAddMs(timeLastRef, msLastImpulse);
        CheckRefForOverflow();
        timeLastImpulseReturned := time;
        timeLastRead := req;
        req := time;
      } else {
        t1 := Seconds(timeLastRead);
        timeLastRead := req;
      }
    }

    /** One read that ends at time `now`; without send_zero it ends only when impulses have come. */
    method ReadOnce(now: Timespec) returns (rds: seq<Reading>)
      requires ConfigOk(config) && Normal() && Norm(now) && Ns(timeLastRead) <= Ns(now)
      requires config.sendZero || !Zero(View())
      modifies this
      ensures rds == Readings(config, old(View()), now)
      ensures Normal() && View() == Read(config, old(View()), now).0
    {
      hide Power, Ns, SubMs, Advance, Seconds;
      var tImp, tImpNeg := impulses, impulsesNeg;
      var isZero := true;
      if tImp > 0 || tImpNeg > 0 {
        isZero := false;
        impulses := impulses - tImp;
        impulsesNeg := impulsesNeg - tImpNeg;
      }
      assert View() == Taken(config, old(View())).(first := firstImpulse) && isZero == Zero(old(View()));
      AdvanceFirst(config, Taken(config, old(View())), now, isZero, firstImpulse);
      var req, t1 := AdvanceTime(now, isZero);
      var t2 := Seconds(req);
      if t2 == t1 { t2 := t2 + 0.000001; }
      var forward, backward := [], [];
      if config.sendZero || tImp > 0 {
        forward := EmitOne(firstImpulse, "", req, t1, t2, tImp);
      }
      if config.sendZero || tImpNeg > 0 {
        backward := EmitOne(firstImpulse, "_neg", req, t1, t2, tImpNeg);
      }
      rds := forward + backward;
      if firstImpulse && |rds| > 0 { firstImpulse := false; }
    }

    method EmitOne(first: bool, suffix: string, time: Timespec, t1: real, t2: real, n: int) returns (rds: seq<Reading>)
      requires config.resolution > 0 && t1 != t2 && (config.sendZero || n > 0)
      ensures rds == Emit(config, first, suffix, time, t1, t2, n)
    {
      rds := [];
      if !first {
        rds := rds + [Reading("Power" + suffix, time, Power(config, t1, t2, n))];
      }
      rds := rds + [Reading("Impulse" + suffix, time, n as real)];
    }
  }
}
