/** The channel buffer and its aggregation, src/Buffer.cpp. */
module Buffer {
  import opened Common

  /** A buffered reading; the time is in milliseconds. */
  datatype Reading = Reading(time: int, value: real, deleted: bool)

  datatype Mode = NONE | MAX | AVG | SUM

  function Doubled(x: real, n: nat): real {
    if n == 0 then x else 2.0 * Doubled(x, n - 1)
  }

  /** The largest double: (2^53 - 1) * 2^971. */
  const DBL_MAX: real := Doubled(9007199254740991.0, 971)

  function Pow2(n: nat): real {
    if n == 0 then 1.0 else 2.0 * Pow2(n - 1)
  }

  lemma {:induction false} DoubledIs(x: real, n: nat)
    ensures Doubled(x, n) == x * Pow2(n)
  {
    if n > 0 { DoubledIs(x, n - 1); }
  }

  /** The bound below which no double lies, by the format of IEEE 754: 53 ones, shifted by 971. */
  lemma LargestDouble()
    ensures DBL_MAX == (Pow2(53) - 1.0) * Pow2(971)
  {
    assert Pow2(10) == 1024.0;
    assert Pow2(20) == 1048576.0;
    assert Pow2(30) == 1073741824.0;
    assert Pow2(40) == 1099511627776.0;
    assert Pow2(50) == 1125899906842624.0;
    DoubledIs(9007199254740991.0, 971);
  }

  // ------------------------------------------------------------------ what aggregation computes

  /** The readings not marked as deleted. */
  function Live(s: seq<Reading>): seq<Reading> {
    if s == [] then [] else Live(Init(s)) + if Last(s).deleted then [] else [Last(s)]
  }

  function Marked(s: seq<Reading>): seq<Reading> {
    if s == [] then [] else Marked(Init(s)) + if Last(s).deleted then [Last(s)] else []
  }

  /** The latest reading, the first one of those with the same time. */
  function LatestOf(live: seq<Reading>): Reading
    requires live != []
  {
    if |live| == 1 then live[0]
    else
      var best := LatestOf(Init(live));
      if Last(live).time > best.time then Last(live) else best
  }

  ghost predicate FirstMaximum(live: seq<Reading>, k: nat) {
    && k < |live|
    && (forall j :: 0 <= j < k ==> live[j].time < live[k].time)
    && (forall j :: k <= j < |live| ==> live[j].time <= live[k].time)
  }

  lemma {:induction false} LatestIsLatest(live: seq<Reading>) returns (k: nat)
    requires live != []
    ensures FirstMaximum(live, k) && live[k] == LatestOf(live)
  {
    if |live| == 1 {
      k := 0;
    } else {
      k := LatestIsLatest(Init(live));
      if Last(live).time > live[k].time {
        k := |live| - 1;
      }
    }
  }

  function SumOf(live: seq<Reading>): real {
    if live == [] then 0.0 else SumOf(Init(live)) + Last(live).value
  }

  function Greater(a: real, b: real): real { if a < b then b else a }

  function MaxOf(live: seq<Reading>): real {
    if live == [] then -DBL_MAX else Greater(MaxOf(Init(live)), Last(live).value)
  }

  /** For values a double can hold, MaxOf is the maximum. */
  lemma {:induction false} MaxIsMaximum(live: seq<Reading>)
    requires live != [] && forall k :: 0 <= k < |live| ==> live[k].value >= -DBL_MAX
    ensures forall k :: 0 <= k < |live| ==> live[k].value <= MaxOf(live)
    ensures exists k :: 0 <= k < |live| && live[k].value == MaxOf(live)
  {
    var init := Init(live);
    assert forall k :: 0 <= k < |init| ==> init[k] == live[k];
    if init == [] {
      assert live[0].value == MaxOf(live);
    } else {
      MaxIsMaximum(init);
      var k :| 0 <= k < |init| && init[k].value == MaxOf(init);
      if MaxOf(init) < Last(live).value {
        assert live[|live| - 1].value == MaxOf(live);
      } else {
        assert live[k].value == MaxOf(live);
      }
    }
  }

  /** The reading before the next one: the last of these, or the one kept from before. */
  function Before(prev: Option<Reading>, live: seq<Reading>): Option<Reading> {
    if live == [] then prev else Some(Last(live))
  }

  function Seconds(from: Reading, to: Reading): real { (to.time - from.time) as real / 1000.0 }

  /** Seconds passed since the reading before. */
  function Gap(before: Option<Reading>, to: Reading): real {
    if before.Some? then Seconds(before.value, to) else 0.0
  }

  /** The value of the reading before, held until the next one. */
  function Area(before: Option<Reading>, to: Reading): real {
    if before.Some? then before.value.value * Gap(before, to) else 0.0
  }

  /** Integral of the step function that holds each value until the next reading. */
  function Weighted(prev: Option<Reading>, live: seq<Reading>): real {
    if live == [] then 0.0 else Weighted(prev, Init(live)) + Area(Before(prev, Init(live)), Last(live))
  }

  function Span(prev: Option<Reading>, live: seq<Reading>): real {
    if live == [] then 0.0 else Span(prev, Init(live)) + Gap(Before(prev, Init(live)), Last(live))
  }

  function Average(prev: Option<Reading>, live: seq<Reading>): real
    requires live != []
  {
    if Span(prev, live) > 0.0 then Weighted(prev, live) / Span(prev, live) else LatestOf(live).value
  }

  function Combined(mode: Mode, prev: Option<Reading>, live: seq<Reading>): real
    requires live != [] && mode != NONE
  {
    match mode
    case MAX => MaxOf(live)
    case AVG => Average(prev, live)
    case SUM => SumOf(live)
  }

  /** The timestamp after the fixed-interval option. */
  function FixTime(aggtime: int, fixed: bool, time: int): int {
    if fixed && aggtime > 0 then 1000 * (aggtime * TruncDiv(TruncDiv(time, 1000), aggtime)) else time
  }

  /** The fixed timestamp is the last multiple of the interval not after the reading. */
  lemma FixedTimeOnGrid(aggtime: int, time: int)
    requires aggtime > 0 && time >= 0
    ensures var t := FixTime(aggtime, true, time);
            t % (1000 * aggtime) == 0 && t <= time < t + 1000 * aggtime
  {
    var s := time / 1000;
    var q := s / aggtime;
    assert s == aggtime * q + s % aggtime;
    assert 1000 * (aggtime * q) == q * (1000 * aggtime);
    ModOf(q, 0, 1000 * aggtime);
  }

  /** Buffer content and the reading kept from the last average. */
  datatype State = State(sent: seq<Reading>, lastAvg: Option<Reading>)

  /** What aggregate leaves behind: at most one reading. */
  function Aggregated(mode: Mode, aggtime: int, fixed: bool, s: State): State {
    var live := Live(s.sent);
    if mode == NONE then s
    else if live == [] then State([], s.lastAvg)
    else
      State([Reading(FixTime(aggtime, fixed, LatestOf(live).time), Combined(mode, s.lastAvg, live), false)],
            if mode == AVG then Some(LatestOf(live)) else s.lastAvg)
  }

  function Undeleted(s: seq<Reading>): seq<Reading> {
    seq(|s|, i requires 0 <= i < |s| => s[i].(deleted := false))
  }

  // ------------------------------------------------------------------ lists with one survivor

  lemma {:induction false} LiveMembers(s: seq<Reading>)
    ensures forall k :: 0 <= k < |Live(s)| ==> !Live(s)[k].deleted && Live(s)[k] in s
    ensures |Live(s)| <= |s|
  {
    if s != [] {
      LiveMembers(Init(s));
    }
  }

  lemma {:induction false} NoneLive(s: seq<Reading>)
    requires forall k :: 0 <= k < |s| ==> s[k].deleted
    ensures Live(s) == []
  {
    if s != [] {
      NoneLive(Init(s));
    }
  }

  lemma {:induction false} OneLive(s: seq<Reading>, k: nat)
    requires k < |s| && !s[k].deleted && forall j :: 0 <= j < |s| && j != k ==> s[j].deleted
    ensures Live(s) == [s[k]]
  {
    if k == |s| - 1 {
      NoneLive(Init(s));
    } else {
      OneLive(Init(s), k);
    }
  }

  lemma {:induction false} AllLive(s: seq<Reading>)
    requires forall k :: 0 <= k < |s| ==> !s[k].deleted
    ensures Live(s) == s && Marked(s) == []
  {
    hide Live, Marked;
    if s == [] {
      NoneThere();
    } else {
      LastLive(s);
      AllLive(Init(s));
      assert Init(s) + [Last(s)] == s;
    }
  }

  lemma NoneThere()
    ensures Live([]) == [] && Marked([]) == []
  {
  }

  lemma LastMarked(s: seq<Reading>)
    requires s != [] && Last(s).deleted
    ensures Live(s) == Live(Init(s)) && Marked(s) == Marked(Init(s)) + [Last(s)]
  {
    assert Live(Init(s)) + [] == Live(Init(s));
  }

  lemma LastLive(s: seq<Reading>)
    requires s != [] && !Last(s).deleted
    ensures Live(s) == Live(Init(s)) + [Last(s)] && Marked(s) == Marked(Init(s))
  {
    assert Marked(Init(s)) + [] == Marked(Init(s));
  }

  lemma LiveSnoc(s: seq<Reading>, i: nat)
    requires i < |s|
    ensures Live(s[..i + 1]) == if s[i].deleted then Live(s[..i]) else Live(s[..i]) + [s[i]]
  {
    assert Init(s[..i + 1]) == s[..i];
  }

  lemma InitLast(live: seq<Reading>, r: Reading)
    ensures Init(live + [r]) == live && Last(live + [r]) == r
  {
  }

  /** latest is the index of the latest live reading among the first n. */
  ghost predicate LatestAt(s: seq<Reading>, latest: Option<nat>, n: nat)
    requires n <= |s|
  {
    match latest
    case None => Live(s[..n]) == []
    case Some(k) => k < n && !s[k].deleted && Live(s[..n]) != [] && s[k] == LatestOf(Live(s[..n]))
  }

  lemma LatestSnoc(live: seq<Reading>, r: Reading)
    ensures LatestOf(live + [r]) == if live != [] && r.time <= LatestOf(live).time then LatestOf(live) else r
  {
    InitLast(live, r);
  }

  lemma LatestNext(s: seq<Reading>, latest: Option<nat>, n: nat)
    requires n < |s| && LatestAt(s, latest, n)
    ensures LatestAt(s, if s[n].deleted then latest
                        else if latest.None? || s[n].time > s[latest.value].time then Some(n)
                        else latest, n + 1)
  {
    hide Live, LatestOf;
    LiveSnoc(s, n);
    LatestSnoc(Live(s[..n]), s[n]);
  }

  lemma FoldSnoc(prev: Option<Reading>, live: seq<Reading>, r: Reading)
    ensures SumOf(live + [r]) == SumOf(live) + r.value
    ensures MaxOf(live + [r]) == Greater(MaxOf(live), r.value)
    ensures Before(prev, live + [r]) == Some(r)
    ensures Weighted(prev, live + [r]) == Weighted(prev, live) + Area(Before(prev, live), r)
    ensures Span(prev, live + [r]) == Span(prev, live) + Gap(Before(prev, live), r)
  {
    hide Area, Gap, Greater;
    InitLast(live, r);
  }

  lemma NoGap(r: Reading)
    ensures Area(None, r) == 0.0 && Gap(None, r) == 0.0
  {
  }

  lemma FoldEmpty(prev: Option<Reading>)
    ensures Live([]) == [] && SumOf([]) == 0.0 && MaxOf([]) == -DBL_MAX
    ensures Before(prev, []) == prev && Weighted(prev, []) == 0.0 && Span(prev, []) == 0.0
  {
  }

  // ------------------------------------------------------------------ the class

  class Buffer {
    var sent: seq<Reading>
    var aggmode: Mode
    var lastAvg: Option<Reading>

    function View(): State
      reads this
    {
      State(sent, lastAvg)
    }

    constructor ()
      ensures View() == State([], None) && aggmode == NONE
    {
      sent, aggmode, lastAvg := [], NONE, None;
    }

    method Push(rd: Reading)
      modifies this`sent
      ensures sent == old(sent) + [rd]
    {
      sent := sent + [rd];
    }

    /** The second loop of every mode: the latest reading gets the value, the others are marked. */
    method KeepOnly(latest: Option<nat>, value: Option<real>)
      requires LatestAt(sent, latest, |sent|)
      modifies this`sent
      ensures latest.None? ==> Live(sent) == []
      ensures latest.Some? ==>
                var r := old(sent)[latest.value];
                Live(sent) == [if value.Some? then r.(value := value.value) else r]
    {
      hide Live, LatestOf;
      ghost var was := sent;
      assert was[..|was|] == was;
      var i: nat := 0;
      while i < |sent|
        invariant i <= |sent| == |was|
        invariant forall j :: i <= j < |was| ==> sent[j] == was[j]
        invariant forall j :: 0 <= j < i ==>
          sent[j] == if was[j].deleted then was[j]
                     else if Some(j) == latest then
                       (if value.Some? then was[j].(value := value.value) else was[j])
                     else was[j].(deleted := true)
      {
        if !sent[i].deleted {
          if latest == Some(i) {
            if value.Some? {
              sent := sent[i := sent[i].(value := value.value)];
            }
          } else {
            sent := sent[i := sent[i].(deleted := true)];
          }
        }
        i := i + 1;
      }
      if latest.Some? {
        OneLive(sent, latest.value);
      } else {
        NoneLive(sent);
      }
    }

    method AggregateMax()
      modifies this`sent
      ensures Live(sent) == var live := Live(old(sent));
                            if live == [] then [] else [LatestOf(live).(value := MaxOf(live))]
    {
      hide Live, LatestOf, SumOf, MaxOf, Weighted, Span, Before, Area, Gap, Greater;
      FoldEmpty(lastAvg);
      var latest: Option<nat>, aggvalue := None, -DBL_MAX;
      var i: nat := 0;
      assert sent[..|sent|] == sent;
      while i < |sent|
        invariant i <= |sent| && sent == old(sent) && LatestAt(sent, latest, i)
        invariant aggvalue == MaxOf(Live(sent[..i]))
      {
        LatestNext(sent, latest, i);
        LiveSnoc(sent, i);
        if !sent[i].deleted {
          FoldSnoc(lastAvg, Live(sent[..i]), sent[i]);
          if latest.None? || sent[i].time > sent[latest.value].time {
            latest := Some(i);
          }
          aggvalue := Greater(aggvalue, sent[i].value);
        }
        i := i + 1;
      }
      KeepOnly(latest, Some(aggvalue));
    }

    method AggregateSum()
      modifies this`sent
      ensures Live(sent) == var live := Live(old(sent));
                            if live == [] then [] else [LatestOf(live).(value := SumOf(live))]
    {
      hide Live, LatestOf, SumOf, MaxOf, Weighted, Span, Before, Area, Gap, Greater;
      FoldEmpty(lastAvg);
      var latest: Option<nat>, aggvalue := None, 0.0;
      var i: nat := 0;
      assert sent[..|sent|] == sent;
      while i < |sent|
        invariant i <= |sent| && sent == old(sent) && LatestAt(sent, latest, i)
        invariant aggvalue == SumOf(Live(sent[..i]))
      {
        LatestNext(sent, latest, i);
        LiveSnoc(sent, i);
        if !sent[i].deleted {
          FoldSnoc(lastAvg, Live(sent[..i]), sent[i]);
          if latest.None? || sent[i].time > sent[latest.value].time {
            latest := Some(i);
          }
          aggvalue := aggvalue + sent[i].value;
        }
        i := i + 1;
      }
      KeepOnly(latest, Some(aggvalue));
    }

    method AggregateAvg()
      modifies this`sent, this`lastAvg
      ensures Live(sent) == var live := Live(old(sent));
                            if live == [] then []
                            else [LatestOf(live).(value := Average(old(lastAvg), live))]
      ensures lastAvg == var live := Live(old(sent));
                         if live == [] then old(lastAvg) else Some(LatestOf(live))
    {
      hide Live, LatestOf, SumOf, MaxOf, Weighted, Span, Before, Area, Gap, Greater;
      FoldEmpty(lastAvg);
      var latest: Option<nat>, aggvalue, aggtimespan := None, 0.0, 0.0;
      var previous := lastAvg;
      var i: nat := 0;
      assert sent[..|sent|] == sent;
      while i < |sent|
        invariant i <= |sent| && sent == old(sent) && lastAvg == old(lastAvg) && LatestAt(sent, latest, i)
        invariant aggvalue == Weighted(lastAvg, Live(sent[..i]))
        invariant aggtimespan == Span(lastAvg, Live(sent[..i]))
        invariant previous == Before(lastAvg, Live(sent[..i]))
      {
        LatestNext(sent, latest, i);
        LiveSnoc(sent, i);
        if !sent[i].deleted {
          FoldSnoc(lastAvg, Live(sent[..i]), sent[i]);
          if latest.None? || sent[i].time > sent[latest.value].time {
            latest := Some(i);
          }
          if previous.Some? {
            aggvalue := aggvalue + Area(previous, sent[i]);
            aggtimespan := aggtimespan + Gap(previous, sent[i]);
          } else {
            NoGap(sent[i]);
          }
          previous := Some(sent[i]);
        }
        i := i + 1;
      }
      // the last value is stored before it is modified
      if latest.Some? { lastAvg := Some(sent[latest.value]); }
      KeepOnly(latest, if aggtimespan > 0.0 then Some(aggvalue / aggtimespan) else None);
    }

    method FixTimes(aggtime: int)
      requires aggtime > 0
      modifies this`sent
      ensures |sent| == |old(sent)|
      ensures forall j :: 0 <= j < |sent| ==>
                sent[j] == var r := old(sent)[j]; if r.deleted then r else r.(time := FixTime(aggtime, true, r.time))
    {
      hide TruncDiv;
      ghost var was := sent;
      var i: nat := 0;
      while i < |sent|
        invariant i <= |sent| == |was|
        invariant forall j :: i <= j < |was| ==> sent[j] == was[j]
        invariant forall j :: 0 <= j < i ==>
          sent[j] == var r := was[j]; if r.deleted then r else r.(time := FixTime(aggtime, true, r.time))
      {
        if !sent[i].deleted {
          var sec := aggtime * TruncDiv(TruncDiv(sent[i].time, 1000), aggtime);
          sent := sent[i := sent[i].(time := 1000 * sec)];
        }
        i := i + 1;
      }
    }

    method Clean(deletedOnly: bool)
      modifies this`sent
      ensures sent == if deletedOnly then Live(old(sent)) else []
    {
      if deletedOnly {
        ghost var was := sent;
        ghost var n: nat := 0;
        var i: nat := 0;
        assert was[..|was|] == was;
        while i < |sent|
          invariant i <= |sent| && n <= |was| && |sent| - i == |was| - n
          invariant sent[..i] == Live(was[..n]) && sent[i..] == was[n..]
          decreases |sent| - i
        {
          LiveSnoc(was, n);
          assert sent[i] == was[n];
          if sent[i].deleted {
            sent := sent[..i] + sent[i + 1..];
          } else {
            i := i + 1;
          }
          n := n + 1;
        }
      } else {
        sent := [];
      }
    }

    method Undelete()
      modifies this`sent
      ensures sent == Undeleted(old(sent))
    {
      ghost var was := sent;
      var i: nat := 0;
      while i < |sent|
        invariant i <= |sent| == |was|
        invariant forall j :: i <= j < |was| ==> sent[j] == was[j]
        invariant forall j :: 0 <= j < i ==> sent[j] == was[j].(deleted := false)
      {
        sent := sent[i := sent[i].(deleted := false)];
        i := i + 1;
      }
    }

    method Aggregate(aggtime: int, aggFixedInterval: bool)
      modifies this`sent, this`lastAvg
      ensures View() == Aggregated(aggmode, aggtime, aggFixedInterval, old(View()))
    {
      hide Live, LatestOf, SumOf, MaxOf, Average, FixTime;
      if aggmode == NONE { return; }
      ghost var live := Live(sent);
      if live != [] { LatestIsLive(sent); }
      match aggmode {
        case MAX => AggregateMax();
        case AVG => AggregateAvg();
        case SUM => AggregateSum();
      }
      ghost var survivors := Live(sent);
      ghost var was := sent;
      if aggFixedInterval && aggtime > 0 {
        FixTimes(aggtime);
        FixedSurvivors(was, sent, aggtime);
      } else {
        NotFixed(aggtime, aggFixedInterval);
      }
      Clean(true);
    }
  }

  lemma LatestIsLive(s: seq<Reading>)
    requires Live(s) != []
    ensures !LatestOf(Live(s)).deleted
  {
    LiveMembers(s);
    var k := LatestIsLatest(Live(s));
  }

  lemma NotFixed(aggtime: int, fixed: bool)
    requires !(fixed && aggtime > 0)
    ensures forall t :: FixTime(aggtime, fixed, t) == t
  {
  }

  lemma {:induction false} FixedSurvivors(was: seq<Reading>, now: seq<Reading>, aggtime: int)
    requires aggtime > 0 && |now| == |was|
    requires forall j :: 0 <= j < |was| ==>
               now[j] == var r := was[j]; if r.deleted then r else r.(time := FixTime(aggtime, true, r.time))
    ensures |Live(now)| == |Live(was)|
    ensures forall j :: 0 <= j < |Live(was)| ==>
              Live(now)[j] == Live(was)[j].(time := FixTime(aggtime, true, Live(was)[j].time))
  {
    hide FixTime;
    if was != [] {
      FixedSurvivors(Init(was), Init(now), aggtime);
      assert Last(now) == var r := Last(was); if r.deleted then r else r.(time := FixTime(aggtime, true, r.time));
    }
  }

  // ------------------------------------------------------------------ merged readings stay merged

  /** After aggregate at most one reading is left, it is not marked, and undelete cannot bring the
      merged readings back. */
  lemma MergedStayMerged(mode: Mode, aggtime: int, fixed: bool, s: State)
    requires mode != NONE
    ensures var a := Aggregated(mode, aggtime, fixed, s);
            && |a.sent| <= 1 && (a.sent == [] <==> Live(s.sent) == [])
            && Undeleted(a.sent) == a.sent && Live(a.sent) == a.sent
  {
    var a := Aggregated(mode, aggtime, fixed, s);
    AllLive(a.sent);
  }

  /** Undelete takes back what a sender has marked, and nothing else. */
  lemma UndeleteTakesBack(s: seq<Reading>, n: nat)
    requires forall i :: 0 <= i < |s| ==> !s[i].deleted
    ensures Undeleted(MarkFirst(s, n)) == s
  {
    assert forall i :: 0 <= i < |s| ==> Undeleted(MarkFirst(s, n))[i] == s[i];
  }

  // ------------------------------------------------------------------ SUM and MAX over any interleaving

  /** What happens to a buffer: readings arrive, are merged, are marked by a sender, and the sender then
      either drops what it marked (clean) or takes it back (undelete). */
  datatype Op = Push(r: Reading) | Aggregate | Mark(n: nat) | CleanOp | UndeleteOp

  /** The sender marks the first n readings. */
  function MarkFirst(s: seq<Reading>, n: nat): seq<Reading> {
    seq(|s|, i requires 0 <= i < |s| => if i < n then s[i].(deleted := true) else s[i])
  }

  /** A buffer with its history: all readings pushed, those a sender handed over, and those marked
      while aggregate removed them. */
  datatype Run = Run(state: State, pushed: seq<Reading>, handed: seq<Reading>, swept: seq<Reading>)

  datatype Setting = Setting(mode: Mode, aggtime: int, fixed: bool)

  function Apply(c: Setting, run: Run, op: Op): Run {
    var s := run.state;
    match op
    case Push(r) => run.(state := s.(sent := s.sent + [r]), pushed := run.pushed + [r])
    case Aggregate =>
      run.(state := Aggregated(c.mode, c.aggtime, c.fixed, s),
           swept := run.swept + if c.mode == NONE then [] else Marked(s.sent))
    case Mark(n) => run.(state := s.(sent := MarkFirst(s.sent, n)))
    case CleanOp => run.(state := s.(sent := Live(s.sent)), handed := run.handed + Marked(s.sent))
    case UndeleteOp => run.(state := s.(sent := Undeleted(s.sent)))
  }

  function Applied(c: Setting, run: Run, ops: seq<Op>): Run
    decreases |ops|
  {
    if ops == [] then run else Applied(c, Apply(c, run, ops[0]), ops[1..])
  }

  const EMPTY := Run(State([], None), [], [], [])

  /** SUM adds and MAX takes the greater value. */
  function Joined(mode: Mode, a: real, b: real): real {
    if mode == MAX then Greater(a, b) else a + b
  }

  function Over(mode: Mode, s: seq<Reading>): real {
    if mode == MAX then MaxOf(s) else SumOf(s)
  }

  lemma {:induction false} OverConcat(mode: Mode, a: seq<Reading>, b: seq<Reading>)
    ensures Over(mode, a + b) == Joined(mode, Over(mode, a), Over(mode, b))
  {
    if b == [] {
      assert a + b == a;
      OverFloor(a);
    } else {
      assert a + b == (a + Init(b)) + [Last(b)];
      InitLast(a + Init(b), Last(b));
      OverConcat(mode, a, Init(b));
    }
  }

  lemma {:induction false} OverFloor(s: seq<Reading>)
    ensures MaxOf(s) >= -DBL_MAX
  {
    if s != [] {
      OverFloor(Init(s));
    }
  }

  lemma {:induction false} OverSplit(mode: Mode, s: seq<Reading>)
    ensures Over(mode, s) == Joined(mode, Over(mode, Live(s)), Over(mode, Marked(s)))
  {
    hide Live, Marked, Over, Joined;
    if s == [] {
      NoneThere();
      OverNothing(mode);
    } else {
      OverSplit(mode, Init(s));
      var last := [Last(s)];
      assert Init(s) + last == s;
      OverConcat(mode, Init(s), last);
      if Last(s).deleted {
        LastMarked(s);
        OverConcat(mode, Marked(Init(s)), last);
      } else {
        LastLive(s);
        OverConcat(mode, Live(Init(s)), last);
      }
      JoinedOrder(mode, Over(mode, Live(Init(s))), Over(mode, Marked(Init(s))), Over(mode, last));
    }
  }

  lemma OverNothing(mode: Mode)
    ensures Over(mode, []) == Joined(mode, Over(mode, []), Over(mode, []))
  {
  }

  lemma JoinedOrder(mode: Mode, a: real, b: real, c: real)
    ensures Joined(mode, Joined(mode, a, b), c) == Joined(mode, a, Joined(mode, b, c)) ==
            Joined(mode, Joined(mode, a, c), b)
  {
  }

  /** Marks do not matter for sum and maximum. */
  lemma {:induction false} OverValues(mode: Mode, s: seq<Reading>, t: seq<Reading>)
    requires |s| == |t| && forall k :: 0 <= k < |s| ==> s[k].value == t[k].value
    ensures Over(mode, s) == Over(mode, t)
  {
    if s != [] {
      OverValues(mode, Init(s), Init(t));
    }
  }

  lemma OverAggregated(c: Setting, s: State)
    requires c.mode == SUM || c.mode == MAX
    ensures Over(c.mode, s.sent) ==
            Joined(c.mode, Over(c.mode, Aggregated(c.mode, c.aggtime, c.fixed, s).sent), Over(c.mode, Marked(s.sent)))
  {
    hide Live, Marked, LatestOf, FixTime, SumOf, MaxOf;
    var live := Live(s.sent);
    OverSplit(c.mode, s.sent);
    var a := Aggregated(c.mode, c.aggtime, c.fixed, s).sent;
    if live == [] {
      assert a == live;
    } else {
      assert a == [a[0]];
      OverOne(c.mode, a[0]);
      OverFloor(live);
    }
  }

  lemma OverOne(mode: Mode, r: Reading)
    ensures Over(mode, [r]) == if mode == MAX then Greater(-DBL_MAX, r.value) else r.value
  {
    FoldSnoc(None, [], r);
    FoldEmpty(None);
    assert [] + [r] == [r];
  }

  function Accounted(mode: Mode, run: Run): real {
    Joined(mode, Joined(mode, Over(mode, run.handed), Over(mode, run.swept)), Over(mode, run.state.sent))
  }

  lemma ApplyConserves(c: Setting, run: Run, op: Op)
    requires c.mode == SUM || c.mode == MAX
    requires Over(c.mode, run.pushed) == Accounted(c.mode, run)
    ensures Over(c.mode, Apply(c, run, op).pushed) == Accounted(c.mode, Apply(c, run, op))
  {
    hide Over, Live, Marked, Aggregated;
    var s := run.state;
    match op
    case Push(r) =>
      OverConcat(c.mode, run.pushed, [r]);
      OverConcat(c.mode, s.sent, [r]);
    case Aggregate =>
      OverAggregated(c, s);
      OverConcat(c.mode, run.swept, Marked(s.sent));
    case Mark(n) =>
      OverValues(c.mode, s.sent, MarkFirst(s.sent, n));
    case CleanOp =>
      OverSplit(c.mode, s.sent);
      OverConcat(c.mode, run.handed, Marked(s.sent));
    case UndeleteOp =>
      OverValues(c.mode, s.sent, Undeleted(s.sent));
  }

  /** Over every interleaving of pushes, aggregations, marks, drains and undeletes, SUM conserves the total
      and MAX the maximum of everything pushed: each value is in what was handed over, in what is still
      buffered, or in what was marked by a sender at the moment aggregate ran. */
  lemma {:induction false} InterleavingConserves(c: Setting, run: Run, ops: seq<Op>)
    requires c.mode == SUM || c.mode == MAX
    requires Over(c.mode, run.pushed) == Accounted(c.mode, run)
    ensures var e := Applied(c, run, ops); Over(c.mode, e.pushed) == Accounted(c.mode, e)
    decreases |ops|
  {
    hide Over, Accounted, Apply;
    if ops != [] {
      ApplyConserves(c, run, ops[0]);
      InterleavingConserves(c, Apply(c, run, ops[0]), ops[1..]);
    }
  }

  /** Aggregate never runs between a sender's mark and its clean or undelete. */
  ghost predicate Finished(c: Setting, run: Run, ops: seq<Op>)
    decreases |ops|
  {
    ops != [] ==>
      && (ops[0].Aggregate? ==> Marked(run.state.sent) == [])
      && Finished(c, Apply(c, run, ops[0]), ops[1..])
  }

  lemma {:induction false} NothingSwept(c: Setting, run: Run, ops: seq<Op>)
    requires Finished(c, run, ops) && run.swept == []
    ensures Applied(c, run, ops).swept == []
    decreases |ops|
  {
    hide Aggregated, Live, Marked;
    if ops != [] {
      NothingSwept(c, Apply(c, run, ops[0]), ops[1..]);
    }
  }

  /** If senders finish before the next aggregation, nothing is lost from the sum or the maximum. */
  lemma FinishedConserves(c: Setting, ops: seq<Op>)
    requires c.mode == SUM || c.mode == MAX
    requires Finished(c, EMPTY, ops)
    ensures var e := Applied(c, EMPTY, ops);
            Over(c.mode, e.pushed) == Joined(c.mode, Over(c.mode, e.handed), Over(c.mode, e.state.sent))
  {
    InterleavingConserves(c, EMPTY, ops);
    NothingSwept(c, EMPTY, ops);
    OverFloor(Applied(c, EMPTY, ops).handed);
  }

  // ------------------------------------------------------------------ AVG conserves the integral

  /** Strictly increasing times, starting after the reading kept from before. */
  ghost predicate Increasing(prev: Option<Reading>, s: seq<Reading>) {
    && (forall i :: 0 <= i < |s| ==> !s[i].deleted)
    && (forall i, j :: 0 <= i < j < |s| ==> s[i].time < s[j].time)
    && (prev.Some? && s != [] ==> prev.value.time < s[0].time)
  }

  lemma IncreasingSplit(prev: Option<Reading>, a: seq<Reading>, b: seq<Reading>)
    requires Increasing(prev, a + b)
    ensures Increasing(prev, a) && Increasing(Before(prev, a), b)
  {
    var s := a + b;
    assert forall i :: 0 <= i < |a| ==> s[i] == a[i];
    assert forall i :: 0 <= i < |b| ==> s[|a| + i] == b[i];
    if a != [] && b != [] { assert s[|a| - 1].time < s[|a|].time; }
  }

  lemma {:induction false} WeightedConcat(prev: Option<Reading>, a: seq<Reading>, b: seq<Reading>)
    ensures Weighted(prev, a + b) == Weighted(prev, a) + Weighted(Before(prev, a), b)
  {
    hide Area;
    if b == [] {
      assert a + b == a;
    } else {
      assert a + b == (a + Init(b)) + [Last(b)];
      InitLast(a + Init(b), Last(b));
      WeightedConcat(prev, a, Init(b));
      assert Before(prev, a + Init(b)) == Before(Before(prev, a), Init(b));
    }
  }

  /** Length of a window in seconds: from the reading kept from before, or from its own first reading. */
  function Length(prev: Option<Reading>, w: seq<Reading>): real
    requires w != []
  {
    Seconds(if prev.Some? then prev.value else w[0], Last(w))
  }

  lemma {:induction false} SpanIsLength(prev: Option<Reading>, w: seq<Reading>)
    requires w != []
    ensures Span(prev, w) == Length(prev, w)
  {
    if |w| > 1 {
      SpanIsLength(prev, Init(w));
    }
  }

  lemma {:induction false} LatestIsLast(prev: Option<Reading>, w: seq<Reading>)
    requires w != [] && Increasing(prev, w)
    ensures LatestOf(w) == Last(w)
  {
    if |w| > 1 {
      LatestIsLast(prev, Init(w));
    }
  }

  lemma Quotient(a: real, b: real)
    requires b > 0.0
    ensures a / b * b == a
  {
  }

  /** The average times the length of the window is the window's share of the integral. */
  lemma AverageTimesLength(prev: Option<Reading>, w: seq<Reading>)
    requires w != [] && Increasing(prev, w)
    ensures Average(prev, w) * Length(prev, w) == Weighted(prev, w)
  {
    SpanIsLength(prev, w);
    if Span(prev, w) > 0.0 {
      Quotient(Weighted(prev, w), Span(prev, w));
    } else {
      assert prev.None? && |w| == 1;
      assert Init(w) == [] && Weighted(prev, w) == 0.0 && Length(prev, w) == 0.0;
    }
  }

  /** The sum over the windows of the aggregated value times the window's length, each window being
      pushed into an empty buffer, aggregated and drained. */
  function Reported(aggtime: int, fixed: bool, prev: Option<Reading>, windows: seq<seq<Reading>>): real
    decreases |windows|
  {
    if windows == [] then 0.0
    else
      var w := windows[0];
      var a := Aggregated(AVG, aggtime, fixed, State(w, prev));
      (if a.sent == [] || w == [] then 0.0 else a.sent[0].value * Length(prev, w)) +
      Reported(aggtime, fixed, a.lastAvg, windows[1..])
  }

  /** AVG conserves the integral: however a history with increasing times is cut into windows, empty ones
      included, the averages times the lengths of their windows add up to the time-weighted sum of the
      whole history. */
  lemma {:induction false} IntegralConserved(aggtime: int, fixed: bool, prev: Option<Reading>,
                                             windows: seq<seq<Reading>>)
    requires Increasing(prev, Flatten(windows))
    ensures Reported(aggtime, fixed, prev, windows) == Weighted(prev, Flatten(windows))
    decreases |windows|
  {
    hide Weighted, Length, Increasing, Aggregated;
    if windows == [] {
      NoIntegral(prev);
    } else {
      var w, rest := windows[0], Flatten(windows[1..]);
      IncreasingSplit(prev, w, rest);
      WeightedConcat(prev, w, rest);
      OneWindow(aggtime, fixed, prev, w);
      IntegralConserved(aggtime, fixed, Before(prev, w), windows[1..]);
    }
  }

  lemma OneWindow(aggtime: int, fixed: bool, prev: Option<Reading>, w: seq<Reading>)
    requires Increasing(prev, w)
    ensures var a := Aggregated(AVG, aggtime, fixed, State(w, prev));
            && a.lastAvg == Before(prev, w)
            && (if a.sent == [] || w == [] then 0.0 else a.sent[0].value * Length(prev, w)) == Weighted(prev, w)
  {
    hide Weighted, LatestOf, Average, Length, FixTime, Increasing;
    IncreasingLive(prev, w);
    if w == [] {
      NoIntegral(prev);
    } else {
      AverageTimesLength(prev, w);
      LatestIsLast(prev, w);
    }
  }

  // ------------------------------------------------------------------ what is left lies within the window

  /** The values held in a window: that of the reading before it and all its own but the last, which is held
      only in the next one; of a single first reading its own. */
  function Held(prev: Option<Reading>, w: seq<Reading>): (h: seq<Reading>)
    requires w != []
    ensures h != []
  {
    if prev.Some? then [prev.value] + Init(w) else if |w| == 1 then w else Init(w)
  }

  /** Not below the least and not above the greatest of some values. */
  ghost predicate Between(v: real, h: seq<Reading>) {
    exists i, j :: 0 <= i < |h| && 0 <= j < |h| && h[i].value <= v <= h[j].value
  }

  ghost predicate Bounded(low: real, h: seq<Reading>, high: real) {
    forall i :: 0 <= i < |h| ==> low <= h[i].value <= high
  }

  lemma {:induction false} Extremes(h: seq<Reading>) returns (i: nat, j: nat)
    requires h != []
    ensures i < |h| && j < |h| && Bounded(h[i].value, h, h[j].value)
  {
    i, j := 0, 0;
    if |h| > 1 {
      var k := |h| - 1;
      i, j := Extremes(h[..k]);
      assert forall m :: 0 <= m < k ==> h[..k][m] == h[m];
      if h[k].value < h[i].value { i := k; }
      if h[k].value > h[j].value { j := k; }
    }
  }

  lemma Scaled(low: real, v: real, high: real, t: real)
    requires low <= v <= high && t >= 0.0
    ensures low * t <= v * t <= high * t
  {
    assert (v - low) * t >= 0.0 && (high - v) * t >= 0.0;
  }

  /** An area over t seconds that lies between those of two bounds. */
  ghost predicate AreaBetween(low: real, a: real, high: real, t: real) {
    low * t <= a <= high * t && t >= 0.0
  }

  /** The area of a window lies between those of its bounds. */
  lemma {:induction false} WeightedBetween(prev: Option<Reading>, w: seq<Reading>, low: real, high: real)
    requires w != [] && Increasing(prev, w) && Bounded(low, Held(prev, w), high)
    ensures AreaBetween(low, Weighted(prev, w), high, Span(prev, w))
  {
    hide Weighted, Span, Increasing, Held, Bounded, AreaBetween, Area, Gap;
    WindowStep(prev, w);
    if |w| == 1 {
      NoArea(low, high);
      NoGap(Last(w));
      if prev.Some? {
        HeldLast(prev, w, low, high);
        StepBetween(low, 0.0, high, 0.0, prev.value, Last(w));
      }
    } else {
      var init := Init(w);
      HeldInit(prev, w, low, high);
      WeightedBetween(prev, init, low, high);
      StepBetween(low, Weighted(prev, init), high, Span(prev, init), Last(init), Last(w));
    }
  }

  /** Area and length of a window, with its last reading taken off. */
  lemma WindowStep(prev: Option<Reading>, w: seq<Reading>)
    requires w != []
    ensures |w| == 1 ==> Weighted(prev, w) == 0.0 + Area(prev, Last(w)) && Span(prev, w) == 0.0 + Gap(prev, Last(w))
    ensures |w| > 1 ==>
              var init := Init(w);
              && Weighted(prev, w) == Weighted(prev, init) + Area(Some(Last(init)), Last(w))
              && Span(prev, w) == Span(prev, init) + Gap(Some(Last(init)), Last(w))
  {
    hide Area, Gap;
    FoldEmpty(prev);
    if |w| == 1 { assert Init(w) == []; }
  }

  lemma NoArea(low: real, high: real)
    ensures AreaBetween(low, 0.0, high, 0.0)
  {
  }

  /** The area grows by a value between the bounds times the seconds it is held. */
  lemma StepBetween(low: real, a: real, high: real, t: real, from: Reading, to: Reading)
    requires AreaBetween(low, a, high, t) && low <= from.value <= high && from.time < to.time
    ensures AreaBetween(low, a + Area(Some(from), to), high, t + Gap(Some(from), to))
  {
    var seconds := Seconds(from, to);
    Scaled(low, from.value, high, seconds);
    Spread(low, t, seconds);
    Spread(high, t, seconds);
  }

  /** The value held until the last reading of a window. */
  lemma HeldLast(prev: Option<Reading>, w: seq<Reading>, low: real, high: real)
    requires w != [] && Increasing(prev, w) && Bounded(low, Held(prev, w), high)
    ensures |w| == 1 && prev.Some? ==> low <= prev.value.value <= high && prev.value.time < Last(w).time
  {
    if |w| == 1 && prev.Some? { assert Held(prev, w)[0] == prev.value; }
  }

  lemma HeldInit(prev: Option<Reading>, w: seq<Reading>, low: real, high: real)
    requires |w| > 1 && Increasing(prev, w) && Bounded(low, Held(prev, w), high)
    ensures Increasing(prev, Init(w)) && Bounded(low, Held(prev, Init(w)), high)
    ensures low <= Last(Init(w)).value <= high && Last(Init(w)).time < Last(w).time
  {
    var h, k := Held(prev, w), Held(prev, Init(w));
    assert h[|h| - 1] == Last(Init(w));
    assert forall i :: 0 <= i < |k| ==> k[i] == h[i];
  }

  lemma QuotientBetween(low: real, a: real, high: real, t: real)
    requires t > 0.0 && AreaBetween(low, a, high, t)
    ensures low <= a / t <= high
  {
    var q := a / t;
    assert q * t == a;
    assert (q - low) * t >= 0.0 && (high - q) * t >= 0.0;
  }

  /** The average of a window lies between the least and the greatest of the values held in it; that of a
      single first reading is its value. */
  lemma AverageBetween(prev: Option<Reading>, w: seq<Reading>)
    requires w != [] && Increasing(prev, w)
    ensures Between(Average(prev, w), Held(prev, w))
    ensures prev == None && |w| == 1 ==> Average(prev, w) == w[0].value
  {
    hide Weighted, Span, Increasing;
    var h := Held(prev, w);
    var i, j := Extremes(h);
    WeightedBetween(prev, w, h[i].value, h[j].value);
    if Span(prev, w) > 0.0 {
      QuotientBetween(h[i].value, Weighted(prev, w), h[j].value, Span(prev, w));
    }
    FirstSpan(prev, w);
  }

  /** So does the reading that aggregate leaves of it. */
  lemma AggregateBetween(aggtime: int, fixed: bool, prev: Option<Reading>, w: seq<Reading>)
    requires w != [] && Increasing(prev, w)
    ensures var a := Aggregated(AVG, aggtime, fixed, State(w, prev));
            && |a.sent| == 1 && Between(a.sent[0].value, Held(prev, w))
            && (prev == None && |w| == 1 ==> a.sent[0].value == w[0].value)
  {
    hide Aggregated, Average, Between, Held, FixTime;
    IncreasingAlone(prev, w);
    AverageLeft(aggtime, fixed, prev, w);
    AverageBetween(prev, w);
  }

  lemma FirstSpan(prev: Option<Reading>, w: seq<Reading>)
    requires w != [] && Increasing(prev, w)
    ensures Span(prev, w) == 0.0 <==> prev == None && |w| == 1
    ensures prev == None && |w| == 1 ==> LatestOf(w) == w[0]
  {
    SpanIsLength(prev, w);
    if |w| > 1 { assert w[0].time < w[|w| - 1].time; }
  }

  /** What aggregate leaves, for every list and mode: nothing of nothing; else one reading, unmarked, at the
      time of the latest one, or at the last multiple of the fixed interval not after it. AVG keeps that
      latest reading as it was. */
  lemma AggregatedMeans(mode: Mode, aggtime: int, fixed: bool, s: State) returns (k: nat)
    ensures mode == NONE ==> Aggregated(mode, aggtime, fixed, s) == s
    ensures mode != NONE && Live(s.sent) == [] ==> Aggregated(mode, aggtime, fixed, s) == State([], s.lastAvg)
    ensures mode != NONE && Live(s.sent) != [] ==>
              var live, a := Live(s.sent), Aggregated(mode, aggtime, fixed, s);
              && FirstMaximum(live, k) && |a.sent| == 1 && !a.sent[0].deleted
              && a.lastAvg == (if mode == AVG then Some(live[k]) else s.lastAvg)
              && (mode == SUM || mode == MAX ==> a.sent[0].value == Over(mode, live))
              && (!fixed || aggtime <= 0 ==> a.sent[0].time == live[k].time)
              && (fixed && aggtime > 0 && live[k].time >= 0 ==>
                    && a.sent[0].time % (1000 * aggtime) == 0
                    && a.sent[0].time <= live[k].time < a.sent[0].time + 1000 * aggtime)
  {
    hide Live, LatestOf, SumOf, MaxOf, Average, FirstMaximum;
    k := 0;
    var live := Live(s.sent);
    if mode != NONE && live != [] {
      k := LatestIsLatest(live);
      FirstMaximumIndex(live, k);
      if fixed && aggtime > 0 && live[k].time >= 0 {
        hide FixTime;
        FixedTimeOnGrid(aggtime, live[k].time);
      }
    }
  }

  lemma FirstMaximumIndex(live: seq<Reading>, k: nat)
    requires FirstMaximum(live, k)
    ensures k < |live|
  {
  }

  /** The total is additive, and that of one reading is its value. */
  lemma TotalAdds(a: seq<Reading>, b: seq<Reading>, r: Reading)
    ensures Over(SUM, a + b) == Over(SUM, a) + Over(SUM, b) && Over(SUM, [r]) == r.value && Over(SUM, []) == 0.0
  {
    OverConcat(SUM, a, b);
    OverOne(SUM, r);
  }

  // ------------------------------------------------------------------ averages that are averaged again

  /** An average x that is still in the buffer when readings follow it is averaged with them. The new
      average is off the window's share of the integral by what x, in the place of the last reading
      before the window, adds from its own time to the first reading. */
  lemma AveragedAgain(aggtime: int, fixed: bool, x: Reading, last: Reading, w: seq<Reading>)
    requires w != [] && Increasing(Some(last), w) && !x.deleted && x.time <= last.time
    ensures var a := Aggregated(AVG, aggtime, fixed, State([x] + w, Some(last)));
            && |a.sent| == 1 && a.lastAvg == Some(Last(w))
            && a.sent[0] == Reading(FixTime(aggtime, fixed, Last(w).time), a.sent[0].value, false)
            && a.sent[0].value * Length(Some(last), w) ==
               Weighted(Some(last), w) + (x.value - last.value) * Seconds(x, w[0])
  {
    hide Weighted, Span, Aggregated, FixTime, Increasing, Length, Seconds, Average;
    var live := [x] + w;
    AllAfter(x, last, w);
    AverageLeft(aggtime, fixed, Some(last), live);
    SpanIsLength(Some(last), live);
    LengthInFront(x, last, w);
    SpanPositive(last, w);
    AverageTimesSpan(Some(last), live);
    InFrontOfWindow(x, last, w);
  }

  /** What aggregating a list with increasing times leaves. */
  lemma AverageLeft(aggtime: int, fixed: bool, prev: Option<Reading>, live: seq<Reading>)
    requires live != [] && Increasing(None, live)
    ensures Aggregated(AVG, aggtime, fixed, State(live, prev)) ==
            State([Reading(FixTime(aggtime, fixed, Last(live).time), Average(prev, live), false)], Some(Last(live)))
  {
    hide LatestOf, FixTime, Increasing, Average;
    IncreasingLive(None, live);
    LatestIsLast(None, live);
  }

  lemma AverageTimesSpan(prev: Option<Reading>, live: seq<Reading>)
    requires live != [] && Span(prev, live) > 0.0
    ensures Average(prev, live) * Span(prev, live) == Weighted(prev, live)
  {
    hide Weighted, Span;
    Quotient(Weighted(prev, live), Span(prev, live));
  }

  lemma LengthInFront(x: Reading, last: Reading, w: seq<Reading>)
    requires w != []
    ensures Length(Some(last), [x] + w) == Length(Some(last), w)
  {
    hide Seconds;
  }

  lemma IncreasingAlone(prev: Option<Reading>, w: seq<Reading>)
    requires Increasing(prev, w)
    ensures Increasing(None, w)
  {
  }

  lemma AllAfter(x: Reading, last: Reading, w: seq<Reading>)
    requires Increasing(Some(last), w) && !x.deleted && x.time <= last.time
    ensures Increasing(None, [x] + w)
  {
    var s := [x] + w;
    assert forall i :: 1 <= i < |s| ==> s[i] == w[i - 1];
    assert forall i, j :: 0 <= i < j < |w| ==> w[i].time < w[j].time;
  }

  lemma SpanPositive(last: Reading, w: seq<Reading>)
    requires w != [] && Increasing(Some(last), w)
    ensures Length(Some(last), w) > 0.0
  {
    if |w| > 1 { assert w[0].time < w[|w| - 1].time; }
  }

  lemma WeightedOne(prev: Option<Reading>, r: Reading)
    ensures Weighted(prev, [r]) == Area(prev, r)
  {
    assert Init([r]) == [];
    NoIntegral(prev);
  }

  lemma InFrontOfWindow(x: Reading, last: Reading, w: seq<Reading>)
    requires w != []
    ensures Weighted(Some(last), [x] + w) == Weighted(Some(last), w) + (x.value - last.value) * Seconds(x, w[0])
  {
    hide Weighted, Seconds;
    var first, rest := [w[0]], w[1..];
    assert w == first + rest;
    WeightedConcat(Some(last), [x], w);
    WeightedConcat(Some(last), first, rest);
    WeightedConcat(Some(x), first, rest);
    WeightedOne(Some(last), x);
    WeightedOne(Some(last), w[0]);
    WeightedOne(Some(x), w[0]);
    SecondsAdd(last, x, w[0]);
    Spread(last.value, Seconds(last, x), Seconds(x, w[0]));
    Spread(x.value - last.value, Seconds(x, w[0]), 0.0);
    Differ(x.value, last.value, Seconds(x, w[0]));
  }

  lemma SecondsAdd(a: Reading, b: Reading, c: Reading)
    ensures Seconds(a, c) == Seconds(a, b) + Seconds(b, c)
  {
  }

  lemma Spread(v: real, a: real, b: real)
    ensures v * (a + b) == v * a + v * b
  {
  }

  lemma Differ(v: real, u: real, a: real)
    ensures (v - u) * a == v * a - u * a
  {
  }

  /** Two windows, the first of which is averaged but not taken over before the second: one average r is
      left for both. Over both windows its area differs from the integral by exactly this: r stands in for
      the first average over the first window, and the first average for the reading it was made from,
      from its (fixed) time to the first reading of the second window. */
  lemma AveragedTwice(aggtime: int, fixed: bool, prev: Option<Reading>, w1: seq<Reading>, w2: seq<Reading>)
    requires w1 != [] && w2 != [] && Increasing(prev, w1 + w2) && Last(w1).time >= 0
    ensures var b := Aggregated(AVG, aggtime, fixed, State(w1, prev));
            var c := Aggregated(AVG, aggtime, fixed, State(b.sent + w2, b.lastAvg));
            && |b.sent| == 1 && |c.sent| == 1 && c.lastAvg == Some(Last(w2))
            && var x, r := b.sent[0], c.sent[0];
               r.value * Length(prev, w1 + w2) - Weighted(prev, w1 + w2) ==
               (r.value - x.value) * Length(prev, w1) + (x.value - Last(w1).value) * Seconds(x, w2[0])
  {
    hide Weighted, Increasing, FixTime, Aggregated, Average, Seconds, Length;
    IncreasingSplit(prev, w1, w2);
    IncreasingAlone(prev, w1);
    AverageTimesLength(prev, w1);
    AverageLeft(aggtime, fixed, prev, w1);
    var last, b := Last(w1), Aggregated(AVG, aggtime, fixed, State(w1, prev));
    var x := b.sent[0];
    FixedNotLater(aggtime, fixed, last.time);
    AveragedAgain(aggtime, fixed, x, last, w2);
    assert b.sent == [x] && b.lastAvg == Some(last);
    var r := Aggregated(AVG, aggtime, fixed, State([x] + w2, Some(last))).sent[0];
    WeightedConcat(prev, w1, w2);
    LengthAdd(prev, w1, w2);
    TwoAreas(r.value, x.value, x.value - last.value, Seconds(x, w2[0]), Length(prev, w1), Length(Some(last), w2),
             Weighted(prev, w1), Weighted(Some(last), w2));
  }

  lemma TwoAreas(r: real, x: real, d: real, gap: real, len1: real, len2: real, area1: real, area2: real)
    requires x * len1 == area1 && r * len2 == area2 + d * gap
    ensures r * (len1 + len2) - (area1 + area2) == (r - x) * len1 + d * gap
  {
  }

  lemma FixedNotLater(aggtime: int, fixed: bool, time: int)
    requires time >= 0
    ensures FixTime(aggtime, fixed, time) <= time
  {
    if fixed && aggtime > 0 { FixedTimeOnGrid(aggtime, time); }
  }

  lemma LengthAdd(prev: Option<Reading>, w1: seq<Reading>, w2: seq<Reading>)
    requires w1 != [] && w2 != []
    ensures Length(prev, w1 + w2) == Length(prev, w1) + Length(Some(Last(w1)), w2)
  {
  }

  lemma NoIntegral(prev: Option<Reading>)
    ensures Weighted(prev, []) == 0.0
  {
  }

  lemma IncreasingLive(prev: Option<Reading>, w: seq<Reading>)
    requires Increasing(prev, w)
    ensures Live(w) == w
  {
    AllLive(w);
  }
}
