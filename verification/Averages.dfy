/** Channels that average, over whole delivery runs: src/Buffer.cpp between src/MeterMap.cpp and
    src/api/Volkszaehler.cpp. */
module Averages {
  import opened Common
  import opened LwipIF
  import opened Volkszaehler
  import opened Delivery
  import Buffer

  // ------------------------------------------------------------------ windows

  /** The readings routed to a channel, cut into windows: those whose average the filter has taken over, and
      the one that is open, averaged already or not. */
  datatype Window = Window(done: seq<seq<Reading>>, open: seq<Reading>, averaged: bool)

  const NO_WINDOW := Window([], [], false)

  /** The steps in which a channel's filter takes its buffer over. */
  predicate Takes(s: Sys, step: Step, name: string) {
    && step.SendStep? && step.name == name && name in s.chans
    && s.conn.state == READY && s.chans[name].buffer.sent != []
  }

  function Watch(s: Sys, step: Step, name: string, w: Window): Window {
    match step
    case Route(to, readings) => if to == name then w.(open := w.open + readings) else w
    case Aggregate(of, _, _) => if of == name && w.open != [] then w.(averaged := true) else w
    case _ => if Takes(s, step, name) then Window(w.done + [w.open], [], false) else w
  }

  /** What sendData does between two readings of the meter: a window is averaged once, and taken over after
      that and before the next reading is routed. */
  ghost predicate Orderly(s: Sys, step: Step, name: string, w: Window) {
    match step
    case Route(to, readings) => to == name && readings != [] ==> !w.averaged
    case Aggregate(of, _, _) => of == name ==> !w.averaged
    case _ => Takes(s, step, name) ==> w.averaged
  }

  function WatchAll(s: Sys, steps: seq<Step>, name: string, w: Window): Window
    decreases |steps|
  {
    if steps == [] then w else WatchAll(Apply(s, steps[0]), steps[1..], name, Watch(s, steps[0], name, w))
  }

  ghost predicate AllOrderly(s: Sys, steps: seq<Step>, name: string, w: Window)
    decreases |steps|
  {
    steps == [] ||
    (&& Orderly(s, steps[0], name, w)
     && AllOrderly(Apply(s, steps[0]), steps[1..], name, Watch(s, steps[0], name, w)))
  }

  /** An average times the length of its window. */
  function Area(average: Reading, prev: Option<Reading>, window: seq<Reading>): real
    requires window != []
  {
    average.value * Buffer.Length(prev, window)
  }

  /** The averages times the lengths of their windows, each window reaching back to the last reading of the
      one before. */
  function Areas(windows: seq<seq<Reading>>, averages: seq<Reading>): real
    requires |averages| == |windows| && forall k :: 0 <= k < |windows| ==> windows[k] != []
  {
    if windows == [] then 0.0
    else
      Areas(Init(windows), Init(averages)) +
      Area(Last(averages), Buffer.Before(None, Flatten(Init(windows))), Last(windows))
  }

  lemma AreasSnoc(windows: seq<seq<Reading>>, averages: seq<Reading>, w: seq<Reading>, r: Reading)
    requires |averages| == |windows| && (forall k :: 0 <= k < |windows| ==> windows[k] != []) && w != []
    ensures Areas(windows + [w], averages + [r]) ==
            Areas(windows, averages) + Area(r, Buffer.Before(None, Flatten(windows)), w)
  {
    hide Area, Buffer.Before, Flatten;
    assert Init(windows + [w]) == windows && Last(windows + [w]) == w;
    assert Init(averages + [r]) == averages && Last(averages + [r]) == r;
  }

  // ------------------------------------------------------------------ what each step hands to the filter

  lemma ConsumedSnoc(log: seq<Entry>, e: Entry, name: string)
    ensures ConsumedBy(log + [e], name) ==
            if e.Consumed? && e.channel == name then ConsumedBy(log, name) + e.readings else ConsumedBy(log, name)
  {
    assert Init(log + [e]) == log && Last(log + [e]) == e;
  }

  lemma OccurConsumes(c: Conn, e: Event, name: string)
    ensures ConsumedBy(Occur(c, e).log, name) == ConsumedBy(c.log, name)
  {
    hide ConsumedBy;
    if e.Recv? && e.p.Data? { ConsumedSnoc(c.log, Answered(e.p.reply), name); }
  }

  lemma {:induction false} OccurAllConsumes(c: Conn, es: seq<Event>, name: string)
    ensures ConsumedBy(OccurAll(c, es).log, name) == ConsumedBy(c.log, name)
    decreases |es|
  {
    hide ConsumedBy, Occur;
    if es != [] {
      OccurConsumes(c, es[0], name);
      OccurAllConsumes(Occur(c, es[0]), es[1..], name);
    }
  }

  lemma PostConsumes(w: World, caller: string, o: Outcome, name: string)
    ensures ConsumedBy(Post(caller, w, o).conn.log, name) == ConsumedBy(w.conn.log, name)
    ensures Post(caller, w, o).buffer == w.buffer
  {
    hide ConsumedBy, OccurAll;
    OccurAllConsumes(w.conn, o.before, name);
    ConsumedSnoc(OccurAll(w.conn, o.before).log, Posted(caller, w.vz.values, w.vz.outputData), name);
  }

  lemma CheckConsumes(w: World, caller: string, name: string)
    ensures ConsumedBy(Check(caller, w).conn.log, name) == ConsumedBy(w.conn.log, name)
    ensures Check(caller, w).buffer == w.buffer
  {
    hide ConsumedBy, Process, Removed;
    var t := Check(caller, w);
    if t.conn.log != w.conn.log { ConsumedSnoc(w.conn.log, Last(t.conn.log), name); }
  }

  /** A send hands the whole buffer to the filter exactly if the connection is ready. */
  lemma SendConsumes(caller: string, duplicates: int, w: World, o: Outcome, name: string)
    ensures var t := Sending(caller, duplicates, w, o); var takes := w.conn.state == READY && w.buffer != [];
            && t.buffer == (if takes then [] else w.buffer)
            && ConsumedBy(t.conn.log, name) ==
               if takes && caller == name then ConsumedBy(w.conn.log, name) + w.buffer else ConsumedBy(w.conn.log, name)
  {
    hide ConsumedBy, Check, Post, OccurAll, PassAll;
    if w.conn.state == READY && w.buffer != [] {
      ConsumedSnoc(w.conn.log, Consumed(caller, w.buffer), name);
      var w1 := JsonTuples(caller, duplicates, w);
      PostConsumes(w1, caller, o, name);
      var w2 := Post(caller, w1, o);
      OccurAllConsumes(w2.conn, o.after, name);
      CheckConsumes(w2.(conn := OccurAll(w2.conn, o.after)), caller, name);
    } else {
      CheckConsumes(w, caller, name);
      ReconnectLog(w.conn, o.connect);
    }
  }

  /** Steps that neither route nor aggregate. */
  lemma StepConsumes(s: Sys, step: Step, name: string)
    requires name in s.chans && !step.Route? && !step.Aggregate?
    ensures var t, b := Apply(s, step), s.chans[name].buffer;
            && name in t.chans && t.chans[name].mode == s.chans[name].mode
            && t.chans[name].routed == s.chans[name].routed
            && t.chans[name].buffer == (if Takes(s, step, name) then b.(sent := []) else b)
            && ConsumedBy(t.conn.log, name) ==
               ConsumedBy(s.conn.log, name) + if Takes(s, step, name) then b.sent else []
  {
    hide ConsumedBy, Check, Sending, Occur, Connecting;
    match step
    case Net(event) => OccurConsumes(s.conn, event, name);
    case Construct(connect) => ConnectLog(s.conn, connect);
    case SendStep(caller, outcome) =>
      if caller in s.chans { SendConsumes(caller, s.chans[caller].duplicates, Front(s, caller), outcome, name); }
    case CheckStep(caller) =>
      if caller in s.chans { CheckConsumes(Front(s, caller), caller, name); }
  }

  // ------------------------------------------------------------------ the integral

  /** The filter has got one reading for each window, and their areas are the integral of the windows. */
  ghost predicate AvgInv(s: Sys, name: string, w: Window) {
    && name in s.chans && s.chans[name].mode == Buffer.AVG
    && s.chans[name].routed == Flatten(w.done) + w.open
    && |ConsumedBy(s.conn.log, name)| == |w.done| && (forall k :: 0 <= k < |w.done| ==> w.done[k] != [])
    && Areas(w.done, ConsumedBy(s.conn.log, name)) == Buffer.Weighted(None, Flatten(w.done))
    && AllBetween(w.done, ConsumedBy(s.conn.log, name))
    && BufferInv(s.chans[name].buffer, Buffer.Before(None, Flatten(w.done)), w)
  }

  /** Each average lies between the least and the greatest of the values held in its window. */
  ghost predicate AllBetween(windows: seq<seq<Reading>>, averages: seq<Reading>)
    requires |averages| == |windows| && forall k :: 0 <= k < |windows| ==> windows[k] != []
  {
    windows == [] ||
    (&& AllBetween(Init(windows), Init(averages))
     && Buffer.Between(Last(averages).value,
                       Buffer.Held(Buffer.Before(None, Flatten(Init(windows))), Last(windows))))
  }

  lemma BetweenSnoc(windows: seq<seq<Reading>>, averages: seq<Reading>, w: seq<Reading>, r: Reading)
    requires |averages| == |windows| && (forall k :: 0 <= k < |windows| ==> windows[k] != []) && w != []
    requires AllBetween(windows, averages)
    requires Buffer.Between(r.value, Buffer.Held(Buffer.Before(None, Flatten(windows)), w))
    ensures AllBetween(windows + [w], averages + [r])
  {
    hide Buffer.Between, Buffer.Held, Buffer.Before, Flatten;
    assert Init(windows + [w]) == windows && Last(windows + [w]) == w;
    assert Init(averages + [r]) == averages && Last(averages + [r]) == r;
  }

  /** The buffer holds the open window, or its average. */
  ghost predicate BufferInv(b: Buffer.State, prev: Option<Reading>, w: Window) {
    if w.averaged then
      && w.open != [] && |b.sent| == 1 && b.lastAvg == Buffer.Before(prev, w.open)
      && Area(b.sent[0], prev, w.open) == Buffer.Weighted(prev, w.open)
      && Buffer.Between(b.sent[0].value, Buffer.Held(prev, w.open))
    else b == Buffer.State(w.open, prev)
  }

  lemma StartAvg(s: Sys, name: string)
    requires Start(s) && name in s.chans && s.chans[name].mode == Buffer.AVG
    ensures AvgInv(s, name, NO_WINDOW)
  {
    Buffer.NoIntegral(None);
  }

  lemma RouteAvg(s: Sys, to: string, readings: seq<Reading>, name: string, w: Window)
    requires AvgInv(s, name, w) && Orderly(s, Route(to, readings), name, w)
    ensures AvgInv(Apply(s, Route(to, readings)), name, Watch(s, Route(to, readings), name, w))
  {
    hide ConsumedBy, Areas, Area, Buffer.Weighted, Buffer.Before, AllBetween, Buffer.Between, Buffer.Held;
    if to == name {
      assert (Flatten(w.done) + w.open) + readings == Flatten(w.done) + (w.open + readings);
      if readings == [] {
        assert w.open + readings == w.open && s.chans[name].buffer.sent + [] == s.chans[name].buffer.sent;
      }
    }
  }

  lemma AggregateAvg(s: Sys, of: string, aggtime: int, fixed: bool, name: string, w: Window)
    requires AvgInv(s, name, w) && Orderly(s, Aggregate(of, aggtime, fixed), name, w)
    requires Buffer.Increasing(None, s.chans[name].routed)
    ensures AvgInv(Apply(s, Aggregate(of, aggtime, fixed)), name, Watch(s, Aggregate(of, aggtime, fixed), name, w))
  {
    hide ConsumedBy, Areas, Buffer.Increasing, Buffer.Aggregated, AllBetween, Buffer.Between, Buffer.Held;
    if of == name {
      var prev := Buffer.Before(None, Flatten(w.done));
      Buffer.IncreasingSplit(None, Flatten(w.done), w.open);
      AggregateWindow(aggtime, fixed, prev, w.open);
    }
  }

  lemma AggregateWindow(aggtime: int, fixed: bool, prev: Option<Reading>, open: seq<Reading>)
    requires Buffer.Increasing(prev, open)
    ensures var b := Buffer.Aggregated(Buffer.AVG, aggtime, fixed, Buffer.State(open, prev));
            BufferInv(b, prev, Window([], open, open != []))
  {
    hide Buffer.Increasing, Buffer.Weighted, Buffer.Length, Buffer.LatestOf, Buffer.FixTime, Buffer.Average,
      Buffer.Between, Buffer.Held;
    if open != [] { Buffer.AggregateBetween(aggtime, fixed, prev, open); }
    Buffer.IncreasingLive(prev, open);
    Buffer.OneWindow(aggtime, fixed, prev, open);
  }

  lemma TakeAvg(s: Sys, step: Step, name: string, w: Window)
    requires AvgInv(s, name, w) && Takes(s, step, name) && w.averaged
    ensures AvgInv(Apply(s, step), name, Watch(s, step, name, w))
  {
    hide ConsumedBy, Areas, Area, Buffer.Weighted, Apply, AllBetween, Buffer.Between, Buffer.Held;
    StepConsumes(s, step, name);
    var past, cons, x := Flatten(w.done), ConsumedBy(s.conn.log, name), s.chans[name].buffer.sent[0];
    assert s.chans[name].buffer.sent == [x];
    FlattenSnoc(w.done, w.open);
    AreasSnoc(w.done, cons, w.open, x);
    BetweenSnoc(w.done, cons, w.open, x);
    Buffer.WeightedConcat(None, past, w.open);
    assert (past + w.open) + [] == past + w.open;
  }

  lemma StepAvg(s: Sys, step: Step, name: string, w: Window)
    requires AvgInv(s, name, w) && Orderly(s, step, name, w)
    requires Buffer.Increasing(None, s.chans[name].routed)
    ensures AvgInv(Apply(s, step), name, Watch(s, step, name, w))
  {
    hide AvgInv, Apply, Buffer.Increasing;
    match step
    case Route(to, readings) => RouteAvg(s, to, readings, name, w);
    case Aggregate(of, aggtime, fixed) => AggregateAvg(s, of, aggtime, fixed, name, w);
    case _ =>
      if Takes(s, step, name) { TakeAvg(s, step, name, w); } else { IdleAvg(s, step, name, w); }
  }

  lemma IdleAvg(s: Sys, step: Step, name: string, w: Window)
    requires AvgInv(s, name, w) && !Takes(s, step, name) && !step.Route? && !step.Aggregate?
    ensures AvgInv(Apply(s, step), name, w)
  {
    hide ConsumedBy, Areas, BufferInv, Apply, Buffer.Weighted, AllBetween;
    StepConsumes(s, step, name);
    assert ConsumedBy(s.conn.log, name) + [] == ConsumedBy(s.conn.log, name);
  }

  /** The record of routed readings only grows. */
  lemma {:induction false} RoutedGrows(s: Sys, steps: seq<Step>, name: string)
    requires name in s.chans
    ensures name in Run(s, steps).chans && s.chans[name].routed <= Run(s, steps).chans[name].routed
    decreases |steps|
  {
    hide Apply;
    if steps != [] {
      StepRouted(s, steps[0], name);
      RoutedGrows(Apply(s, steps[0]), steps[1..], name);
    }
  }

  lemma StepRouted(s: Sys, step: Step, name: string)
    requires name in s.chans
    ensures name in Apply(s, step).chans && s.chans[name].routed <= Apply(s, step).chans[name].routed
  {
    hide Check, Sending, Occur, Connecting, Buffer.Aggregated;
  }

  lemma IncreasingPrefix(a: seq<Reading>, b: seq<Reading>)
    requires Buffer.Increasing(None, b) && a <= b
    ensures Buffer.Increasing(None, a)
  {
    assert a + b[|a|..] == b;
    Buffer.IncreasingSplit(None, a, b[|a|..]);
  }

  lemma {:induction false} RunAvg(s: Sys, steps: seq<Step>, name: string, w: Window)
    requires AvgInv(s, name, w) && AllOrderly(s, steps, name, w)
    requires name in Run(s, steps).chans && Buffer.Increasing(None, Run(s, steps).chans[name].routed)
    ensures AvgInv(Run(s, steps), name, WatchAll(s, steps, name, w))
    decreases |steps|
  {
    hide Apply, Watch, Orderly, Buffer.Increasing, Areas, AllBetween, ConsumedBy, BufferInv;
    if steps != [] {
      RoutedGrows(s, steps, name);
      IncreasingPrefix(s.chans[name].routed, Run(s, steps).chans[name].routed);
      StepAvg(s, steps[0], name, w);
      RunAvg(Apply(s, steps[0]), steps[1..], name, Watch(s, steps[0], name, w));
    }
  }

  /** AVG over every orderly run: if the times of the readings routed to a channel increase, its filter has
      got one reading for each window so far, and these averages times the lengths of their windows add up
      to the time-weighted sum of all readings of the windows, each between the least and the greatest value
      held in its window; the other readings are in the open window. */
  lemma AveragesConserve(s: Sys, steps: seq<Step>, name: string)
    requires Start(s) && name in s.chans && s.chans[name].mode == Buffer.AVG
    requires AllOrderly(s, steps, name, NO_WINDOW)
    requires name in Run(s, steps).chans && Buffer.Increasing(None, Run(s, steps).chans[name].routed)
    ensures var t, w := Run(s, steps), WatchAll(s, steps, name, NO_WINDOW);
            var averages := ConsumedBy(t.conn.log, name);
            && |averages| == |w.done| && (forall k :: 0 <= k < |w.done| ==> w.done[k] != [])
            && t.chans[name].routed == Flatten(w.done) + w.open
            && Areas(w.done, averages) == Buffer.Weighted(None, Flatten(w.done))
            && AllBetween(w.done, averages)
  {
    hide Run, WatchAll, AllOrderly, Buffer.Increasing, ConsumedBy, Areas, AllBetween, BufferInv;
    StartAvg(s, name);
    RunAvg(s, steps, name, NO_WINDOW);
  }

  // ------------------------------------------------------------------ averaged again before it is taken over

  /** How far the area of the average r of two windows is above their integral, if x was the average of the
      first: r stands in for x over the first window, and x for the last reading of that window, from the
      (fixed) time of x to the first reading of the second. */
  function Excess(x: Reading, r: Reading, w1: seq<Reading>, w2: seq<Reading>): real
    requires w1 != [] && w2 != []
  {
    (r.value - x.value) * Buffer.Length(None, w1) + (x.value - Last(w1).value) * Buffer.Seconds(x, w2[0])
  }

  lemma RouteAndAggregate(s: Sys, name: string, rs: seq<Reading>, aggtime: int, fixed: bool)
    requires name in s.chans && s.chans[name].mode == Buffer.AVG
    ensures var ch := s.chans[name]; var b := ch.buffer;
            var t := Run(s, [Route(name, rs), Aggregate(name, aggtime, fixed)]);
            && name in t.chans && t.conn == s.conn
            && t.chans[name] == ch.(
                 buffer := Buffer.Aggregated(Buffer.AVG, aggtime, fixed, Buffer.State(b.sent + rs, b.lastAvg)),
                 routed := ch.routed + rs)
  {
    hide Buffer.Aggregated, Run;
    RunTwo(s, Route(name, rs), Aggregate(name, aggtime, fixed));
  }

  /** A send on a connection in its initial state only connects. */
  lemma SendConnects(s: Sys, name: string)
    requires name in s.chans && s.conn == CLOSED_CONN
    ensures var connect := Outcome(false, false, ConnectOutcome(true, Resolved(true)), [], Sent, []);
            Run(s, [SendStep(name, connect)]) == s.(conn := CLOSED_CONN.(state := CONNECTING, pcb := Opening))
  {
    var connect := Outcome(false, false, ConnectOutcome(true, Resolved(true)), [], Sent, []);
    assert [SendStep(name, connect)] + [] == [SendStep(name, connect)];
    RunOne(s, SendStep(name, connect), []);
    var t := Apply(s, SendStep(name, connect));
    RunNone(t);
    assert t.chans == s.chans;
  }

  lemma ConnectedAndSent(s: Sys, name: string)
    requires name in s.chans && s.conn == CLOSED_CONN.(state := CONNECTING, pcb := Opening)
    requires s.chans[name].buffer.sent != []
    ensures var t := Run(s, [Net(Connected(true)), SendStep(name, Prompt(None))]);
            && name in t.chans && ConsumedBy(t.conn.log, name) == s.chans[name].buffer.sent
            && t.chans[name].routed == s.chans[name].routed && t.chans[name].buffer.sent == []
  {
    hide Apply, ConsumedBy;
    var e0, e1 := Net(Connected(true)), SendStep(name, Prompt(None));
    var s1 := Apply(s, e0);
    ReadyAfter(s);
    RunTwo(s, e0, e1);
    StepConsumes(s1, e1, name);
  }

  lemma ReadyAfter(s: Sys)
    requires s.conn == CLOSED_CONN.(state := CONNECTING, pcb := Opening)
    ensures var t := Apply(s, Net(Connected(true))); t.chans == s.chans && t.conn.state == READY
    ensures forall name :: ConsumedBy(Apply(s, Net(Connected(true))).conn.log, name) == []
  {
  }

  /** Windows that are averaged again. In this run the connection is not ready when the first window has been
      averaged, so the second is averaged with it, and the filter gets one reading for both. */
  lemma NotReadyBetween(s: Sys, name: string, w1: seq<Reading>, w2: seq<Reading>, aggtime: int, fixed: bool)
      returns (steps: seq<Step>, x: Reading, r: Reading)
    requires Start(s) && name in s.chans && s.chans[name].mode == Buffer.AVG
    requires w1 != [] && w2 != [] && Buffer.Increasing(None, w1 + w2) && Last(w1).time >= 0
    ensures var t := Run(s, steps);
            && name in t.chans && t.chans[name].routed == w1 + w2 && t.chans[name].buffer.sent == []
            && ConsumedBy(t.conn.log, name) == [r]
    ensures x.time == Buffer.FixTime(aggtime, fixed, Last(w1).time) && Area(x, None, w1) == Buffer.Weighted(None, w1)
    ensures Area(r, None, w1 + w2) - Buffer.Weighted(None, w1 + w2) == Excess(x, r, w1, w2)
  {
    hide Run, Buffer.Aggregated, Buffer.Increasing, Buffer.Weighted, Buffer.Length, Buffer.FixTime, Buffer.Average,
      ConsumedBy, Area, Excess;
    var connect := SendStep(name, Outcome(false, false, ConnectOutcome(true, Resolved(true)), [], Sent, []));
    var first := [Route(name, w1), Aggregate(name, aggtime, fixed)];
    var second := [Route(name, w2), Aggregate(name, aggtime, fixed)];
    var open := [Net(Connected(true)), SendStep(name, Prompt(None))];
    steps := first + ([connect] + (second + open));
    RunConcat(s, first, [connect] + (second + open));
    RouteAndAggregate(s, name, w1, aggtime, fixed);
    var s1 := Run(s, first);
    RunConcat(s1, [connect], second + open);
    SendConnects(s1, name);
    var s2 := Run(s1, [connect]);
    RunConcat(s2, second, open);
    RouteAndAggregate(s2, name, w2, aggtime, fixed);
    var b := Buffer.Aggregated(Buffer.AVG, aggtime, fixed, Buffer.State(w1, None));
    var c := Buffer.Aggregated(Buffer.AVG, aggtime, fixed, Buffer.State(b.sent + w2, b.lastAvg));
    assert [] + w1 == w1 && b.(sent := b.sent + w2) == Buffer.State(b.sent + w2, b.lastAvg);
    BothAverages(aggtime, fixed, w1, w2);
    x, r := b.sent[0], c.sent[0];
    ConnectedAndSent(Run(s2, second), name);
    assert c.sent == [r];
  }

  lemma BothAverages(aggtime: int, fixed: bool, w1: seq<Reading>, w2: seq<Reading>)
    requires w1 != [] && w2 != [] && Buffer.Increasing(None, w1 + w2) && Last(w1).time >= 0
    ensures var b := Buffer.Aggregated(Buffer.AVG, aggtime, fixed, Buffer.State(w1, None));
            var c := Buffer.Aggregated(Buffer.AVG, aggtime, fixed, Buffer.State(b.sent + w2, b.lastAvg));
            && |b.sent| == 1 && |c.sent| == 1 && b.sent[0].time == Buffer.FixTime(aggtime, fixed, Last(w1).time)
            && Area(b.sent[0], None, w1) == Buffer.Weighted(None, w1)
            && Area(c.sent[0], None, w1 + w2) - Buffer.Weighted(None, w1 + w2) ==
               Excess(b.sent[0], c.sent[0], w1, w2)
  {
    hide Buffer.Aggregated, Buffer.Increasing, Buffer.Weighted, Buffer.Length, Buffer.FixTime, Buffer.Average,
      Buffer.Seconds;
    Buffer.IncreasingSplit(None, w1, w2);
    Buffer.AverageLeft(aggtime, fixed, None, w1);
    Buffer.AverageTimesLength(None, w1);
    Buffer.AveragedTwice(aggtime, fixed, None, w1, w2);
  }
}
