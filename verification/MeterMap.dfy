/** The reading schedule and the routing of readings to channels, src/MeterMap.cpp. */
module MeterMap {
  import opened Common
  import Averages
  import Buffer
  import Delivery
  import Obis
  import Volkszaehler

  // ------------------------------------------------------------------ identifiers

  /** The identifier classes of src/Reading.cpp. */
  datatype Identifier = ObisIdentifier(obis: Obis.Id) | StringIdentifier(text: string)
                      | ChannelIdentifier(channel: int) | NilIdentifier

  /** The comparison tries the classes in turn. */
  predicate Compare(lhs: Identifier, rhs: Identifier) {
    if lhs.ObisIdentifier? then (if rhs.ObisIdentifier? then lhs.obis == rhs.obis else false)
    else if lhs.StringIdentifier? then (if rhs.StringIdentifier? then lhs.text == rhs.text else false)
    else if lhs.ChannelIdentifier? then (if rhs.ChannelIdentifier? then lhs.channel == rhs.channel else false)
    else if lhs.NilIdentifier? then rhs.NilIdentifier?
    else false
  }

  /** A reading as a meter returns it. */
  datatype Reading = Reading(identifier: Identifier, sec: int, usec: int, value: real)

  function TimeMs(r: Reading): int { TruncDiv(r.sec * 1_000_000 + r.usec, 1000) }

  function Buffered(r: Reading): Buffer.Reading { Buffer.Reading(TimeMs(r), r.value, false) }

  // ------------------------------------------------------------------ routing, as a function

  /** The readings with a channel's identifier, in order. */
  function Matching(rds: seq<Reading>, id: Identifier): seq<Buffer.Reading> {
    if rds == [] then []
    else
      Matching(rds[..|rds| - 1], id) +
      if rds[|rds| - 1].identifier == id then [Buffered(rds[|rds| - 1])] else []
  }

  /** The readings m are those of rds at these positions, and these are all with the identifier. */
  ghost predicate Picks(rds: seq<Reading>, id: Identifier, m: seq<Buffer.Reading>, at: seq<nat>) {
    && |at| == |m|
    && (forall j :: 0 <= j < |at| ==> at[j] < |rds| && rds[at[j]].identifier == id && Carries(rds[at[j]], m[j]))
    && (forall j, k :: 0 <= j < k < |at| ==> at[j] < at[k])
    && (forall i: nat :: i < |rds| && rds[i].identifier == id ==> i in at)
  }

  /** The value, and the time in whole milliseconds. */
  ghost predicate Carries(r: Reading, b: Buffer.Reading) {
    && b.value == r.value && !b.deleted
    && (0 <= r.sec && 0 <= r.usec < 1_000_000 ==> b.time == r.sec * 1000 + r.usec / 1000)
  }

  /** Exactly the readings with the identifier, each once and in order, with their values, and their times in
      whole milliseconds. */
  lemma {:induction false} MatchingExact(rds: seq<Reading>, id: Identifier) returns (at: seq<nat>)
    ensures Picks(rds, id, Matching(rds, id), at)
  {
    hide Buffered, Matching, Picks;
    if rds == [] {
      at := [];
      MatchingNothing(id, Buffer.Reading(0, 0.0, false));
      PicksNothing(id);
    } else {
      var n := |rds| - 1;
      var before := MatchingExact(rds[..n], id);
      MatchingNext(rds, n, id);
      assert rds[..n + 1] == rds && rds[..n] + [rds[n]] == rds;
      PicksNext(rds[..n], id, Matching(rds[..n], id), before, rds[n]);
      at := if rds[n].identifier == id then before + [n] else before;
    }
  }

  lemma PicksNothing(id: Identifier)
    ensures Picks([], id, [], [])
  {
  }

  lemma PicksNext(rds: seq<Reading>, id: Identifier, m: seq<Buffer.Reading>, at: seq<nat>, r: Reading)
    requires Picks(rds, id, m, at)
    ensures if r.identifier == id then Picks(rds + [r], id, m + [Buffered(r)], at + [|rds|])
            else Picks(rds + [r], id, m, at)
  {
    hide Buffered, Carries;
    BufferedMeans(r);
    var all := rds + [r];
    assert forall i :: 0 <= i < |rds| ==> all[i] == rds[i];
    assert all[|rds|] == r;
    assert forall i :: i in at ==> i in at + [|rds|];
    assert |rds| in at + [|rds|];
  }

  lemma BufferedMeans(r: Reading)
    ensures Carries(r, Buffered(r))
  {
  }

  /** The latest reading a channel has seen; of several at one time the first. */
  function Latest(last: Buffer.Reading, rs: seq<Buffer.Reading>): Buffer.Reading {
    if rs == [] then last
    else
      var before := Latest(last, rs[..|rs| - 1]);
      if before.time < rs[|rs| - 1].time then rs[|rs| - 1] else before
  }

  /** None of those seen is later, and those before it are earlier. */
  lemma {:induction false} LatestIsMaximum(last: Buffer.Reading, rs: seq<Buffer.Reading>) returns (k: nat)
    ensures Buffer.FirstMaximum([last] + rs, k) && Latest(last, rs) == ([last] + rs)[k]
  {
    k := 0;
    if rs != [] {
      var n := |rs| - 1;
      k := LatestIsMaximum(last, rs[..n]);
      assert [last] + rs == ([last] + rs[..n]) + [rs[n]];
      if Latest(last, rs[..n]).time < rs[n].time { k := |rs|; }
    }
  }

  const YEAR_1990 := 631152000

  /** A batch with any timestamp before 1990 is ignored as a whole, unless a time machine is configured. */
  function Plausible(rds: seq<Reading>, timeMachine: bool): seq<Reading> {
    if !timeMachine && exists k :: 0 <= k < |rds| && rds[k].sec < YEAR_1990 then [] else rds
  }

  /** Midnight of the first of January 1990: twenty years, five of them leap years, after 1970. */
  lemma PlausibleExact(rds: seq<Reading>, timeMachine: bool)
    ensures if timeMachine || forall k :: 0 <= k < |rds| ==> rds[k].sec >= (20 * 365 + 5) * 24 * 3600
            then Plausible(rds, timeMachine) == rds
            else Plausible(rds, timeMachine) == []
  {
  }

  lemma {:induction false} MatchingConcat(a: seq<Reading>, b: seq<Reading>, id: Identifier)
    ensures Matching(a + b, id) == Matching(a, id) + Matching(b, id)
  {
    if b == [] {
      assert a + b == a && Matching(a, id) + [] == Matching(a, id);
    } else {
      var n := |b| - 1;
      assert (a + b)[..|a + b| - 1] == a + b[..n] && (a + b)[|a + b| - 1] == b[n];
      MatchingConcat(a, b[..n], id);
    }
  }

  lemma MatchingNext(rds: seq<Reading>, i: nat, id: Identifier)
    requires i < |rds|
    ensures Matching(rds[..i + 1], id) ==
            if rds[i].identifier == id then Matching(rds[..i], id) + [Buffered(rds[i])] else Matching(rds[..i], id)
  {
    assert rds[..i + 1][..i] == rds[..i];
  }

  lemma LatestNext(last: Buffer.Reading, rs: seq<Buffer.Reading>, r: Buffer.Reading)
    ensures Latest(last, rs + [r]) == if Latest(last, rs).time < r.time then r else Latest(last, rs)
  {
    assert (rs + [r])[..|rs|] == rs;
  }

  // ------------------------------------------------------------------ the classes

  class Channel {
    const identifier: Identifier
    const buffer: Buffer.Buffer
    var last: Buffer.Reading

    constructor (identifier: Identifier)
      ensures this.identifier == identifier && fresh(buffer)
      ensures buffer.View() == Buffer.State([], None) && last == Buffer.Reading(0, 0.0, false)
    {
      this.identifier := identifier;
      buffer := new Buffer.Buffer();
      last := Buffer.Reading(0, 0.0, false);
    }

    /** The readings of a batch go to one channel. */
    method Insert(rds: seq<Reading>)
      modifies this`last, buffer`sent
      ensures buffer.sent == old(buffer.sent) + Matching(rds, identifier)
      ensures last == Latest(old(last), Matching(rds, identifier))
    {
      hide Matching, Latest, Buffered;
      MatchingNothing(identifier, last);
      ghost var was := last;
      assert rds[..|rds|] == rds && rds[..0] == [];
      for i := 0 to |rds|
        invariant buffer.sent == old(buffer.sent) + Matching(rds[..i], identifier)
        invariant last == Latest(was, Matching(rds[..i], identifier))
      {
        MatchingNext(rds, i, identifier);
        LatestNext(was, Matching(rds[..i], identifier), Buffered(rds[i]));
        if Compare(rds[i].identifier, identifier) {
          var rd := Buffered(rds[i]);
          if last.time < rd.time {
            last := rd;
          }
          buffer.Push(rd);
        }
      }
    }
  }

  lemma MatchingNothing(id: Identifier, last: Buffer.Reading)
    ensures Matching([], id) == [] && Latest(last, []) == last
  {
  }

  /** A channel's identifier, buffer content and latest reading. */
  datatype Content = Content(id: Identifier, sent: seq<Buffer.Reading>, last: Buffer.Reading)

  /** What a channel holds after some readings. */
  function Received(c: Content, rds: seq<Reading>): Content {
    c.(sent := c.sent + Matching(rds, c.id), last := Latest(c.last, Matching(rds, c.id)))
  }

  function AllReceived(cs: seq<Content>, rds: seq<Reading>): seq<Content> {
    seq(|cs|, k requires 0 <= k < |cs| => Received(cs[k], rds))
  }

  /** Every channel keeps its identifier, has its readings of the batch behind those before, and its latest
      reading is the first with the latest time. */
  lemma ReceivedMeans(cs: seq<Content>, rds: seq<Reading>, k: nat) returns (j: nat)
    requires k < |cs|
    ensures |AllReceived(cs, rds)| == |cs|
    ensures var c, m := AllReceived(cs, rds)[k], Matching(rds, cs[k].id);
            && c.id == cs[k].id && c.sent == cs[k].sent + m
            && Buffer.FirstMaximum([cs[k].last] + m, j) && c.last == ([cs[k].last] + m)[j]
  {
    hide Matching, Latest;
    j := LatestIsMaximum(cs[k].last, Matching(rds, cs[k].id));
  }

  lemma ReceivedConcat(cs: seq<Content>, a: seq<Reading>, b: seq<Reading>)
    ensures AllReceived(AllReceived(cs, a), b) == AllReceived(cs, a + b)
  {
    hide Matching, Latest;
    var once, twice := AllReceived(cs, a + b), AllReceived(AllReceived(cs, a), b);
    forall k | 0 <= k < |cs|
      ensures once[k] == twice[k]
    {
      MatchingConcat(a, b, cs[k].id);
      LatestConcat(cs[k].last, Matching(a, cs[k].id), Matching(b, cs[k].id));
    }
    assert once == twice;
  }

  lemma ReceivedNothing(cs: seq<Content>)
    ensures AllReceived(cs, []) == cs
  {
    forall k | 0 <= k < |cs|
      ensures AllReceived(cs, [])[k] == cs[k]
    {
      MatchingNothing(cs[k].id, cs[k].last);
      assert cs[k].sent + [] == cs[k].sent;
    }
  }

  class MeterMap {
    const channels: seq<Channel>
    const buffers: seq<Buffer.Buffer>
    var nextDue: int

    /** Channels and their buffers are objects of their own. */
    ghost predicate Valid() {
      && |buffers| == |channels|
      && (forall k :: 0 <= k < |channels| ==> channels[k].buffer == buffers[k])
      && (forall k, m :: 0 <= k < m < |channels| ==> channels[k] != channels[m] && buffers[k] != buffers[m])
    }

    /** What the channels hold. */
    ghost function Contents(): (cs: seq<Content>)
      requires Valid()
      reads channels, buffers
      ensures |cs| == |channels|
    {
      seq(|channels|, k requires 0 <= k < |channels| == |buffers| reads channels, buffers =>
        Content(channels[k].identifier, buffers[k].sent, channels[k].last))
    }

    constructor (channels: seq<Channel>, buffers: seq<Buffer.Buffer>)
      requires |buffers| == |channels|
      requires forall k :: 0 <= k < |channels| ==> channels[k].buffer == buffers[k]
      requires forall k, m :: 0 <= k < m < |channels| ==> channels[k] != channels[m] && buffers[k] != buffers[m]
      ensures Valid() && this.channels == channels && this.buffers == buffers
    {
      this.channels, this.buffers, nextDue := channels, buffers, 0;
    }

    /** The schedule: nextDue moves on in whole intervals, at least one, until it is not before the clock,
        which is read again after each. The clock readings have some bound. An interval that is not positive
        must be due at once, otherwise the loop does not end. */
    method AdvanceDue(interval: int, clock: nat -> int, ghost bound: int) returns (ghost turns: nat)
      requires interval > 0 || clock(0) <= nextDue + interval
      requires forall i: nat :: clock(i) <= bound
      modifies this`nextDue
      ensures turns >= 1 && nextDue == old(nextDue) + turns * interval
      ensures clock(turns - 1) <= nextDue
      ensures forall i :: 1 <= i < turns ==> old(nextDue) + i * interval < clock(i - 1)
    {
      ghost var start := nextDue;
      nextDue := nextDue + interval;
      turns := 1;
      var i: nat := 0;
      while nextDue < clock(i)
        invariant turns == i + 1 && nextDue == start + turns * interval
        invariant forall k :: 1 <= k < turns ==> start + k * interval < clock(k - 1)
        invariant interval > 0 || clock(i) <= nextDue
        decreases bound - nextDue
      {
        nextDue := nextDue + interval;
        NextTurn(start, turns, interval);
        turns := turns + 1;
        i := i + 1;
      }
    }

    /** Readings before 1990 make the whole batch be ignored. */
    method CheckTimes(rds: seq<Reading>, timeMachine: bool) returns (n: nat)
      ensures n <= |rds| && rds[..n] == Plausible(rds, timeMachine)
    {
      n := |rds|;
      assert rds[..n] == rds;
      if n > 0 && !timeMachine {
        var i: nat := 0;
        while i < n
          invariant n == |rds| || (n == 0 && exists k :: 0 <= k < |rds| && rds[k].sec < YEAR_1990)
          invariant n == |rds| ==> i <= |rds| && forall k :: 0 <= k < i ==> rds[k].sec >= YEAR_1990
          decreases |rds| - i, n
        {
          if rds[i].sec < YEAR_1990 {
            n := 0;
          }
          i := i + 1;
        }
      }
    }

    /** Each channel gets exactly the readings of the batch with its identifier, in order, and keeps the
        latest. */
    method Route(rds: seq<Reading>)
      requires Valid()
      modifies channels, buffers
      ensures Contents() == AllReceived(old(Contents()), rds)
    {
      hide Matching, Latest;
      for c := 0 to |channels|
        invariant forall k :: 0 <= k < c ==>
          var to := Matching(rds, channels[k].identifier);
          && buffers[k].sent == old(buffers[k].sent) + to
          && channels[k].last == Latest(old(channels[k].last), to)
        invariant forall k :: c <= k < |channels| ==>
          buffers[k].sent == old(buffers[k].sent) && channels[k].last == old(channels[k].last)
      {
        channels[c].Insert(rds);
      }
    }

    method ReadBatch(rds: seq<Reading>, timeMachine: bool)
      requires Valid()
      modifies channels, buffers
      ensures Contents() == AllReceived(old(Contents()), Plausible(rds, timeMachine))
    {
      hide Contents, AllReceived, Plausible;
      var n := CheckTimes(rds, timeMachine);
      Route(rds[..n]);
    }

    /** One call of read: the schedule, then a batch from the meter, and more while the aggregation period
        lasts; every batch is checked and routed. */
    method Read(interval: int, clock: nat -> int, ghost bound: int, batches: seq<seq<Reading>>, timeMachine: bool)
        returns (ghost turns: nat)
      requires Valid() && (interval > 0 || clock(0) <= nextDue + interval)
      requires forall i: nat :: clock(i) <= bound
      modifies this`nextDue, channels, buffers
      ensures turns >= 1 && nextDue == old(nextDue) + turns * interval && clock(turns - 1) <= nextDue
      ensures forall i :: 1 <= i < turns ==> old(nextDue) + i * interval < clock(i - 1)
      ensures Contents() == AllReceived(old(Contents()), AllPlausible(batches, timeMachine))
    {
      hide Contents, AllReceived, AllPlausible, Plausible;
      turns := AdvanceDue(interval, clock, bound);
      ghost var due, was := nextDue, old(Contents());
      var i: nat := 0;
      assert batches[..0] == [] && batches[..|batches|] == batches;
      NothingPlausible(timeMachine);
      ReceivedNothing(was);
      while i < |batches|
        invariant i <= |batches| && nextDue == due
        invariant Contents() == AllReceived(was, AllPlausible(batches[..i], timeMachine))
      {
        ReadBatch(batches[i], timeMachine);
        PlausibleNext(batches, i, timeMachine);
        ReceivedConcat(was, AllPlausible(batches[..i], timeMachine), Plausible(batches[i], timeMachine));
        i := i + 1;
      }
    }
  }

  lemma {:induction false} LatestConcat(last: Buffer.Reading, a: seq<Buffer.Reading>, b: seq<Buffer.Reading>)
    ensures Latest(last, a + b) == Latest(Latest(last, a), b)
  {
    if b == [] {
      assert a + b == a;
    } else {
      var n := |b| - 1;
      assert (a + b)[..|a + b| - 1] == a + b[..n] && (a + b)[|a + b| - 1] == b[n];
      LatestConcat(last, a, b[..n]);
    }
  }

  /** Why: with such an interval, a clock that does not go back and a first turn that is too early, every
      turn is too early. */
  lemma {:induction false} NeverDue(start: int, interval: int, clock: nat -> int, turns: nat)
    requires interval <= 0 && turns >= 1 && start + interval < clock(0)
    requires forall i: nat, j: nat :: i <= j ==> clock(i) <= clock(j)
    ensures start + turns * interval < clock(turns - 1)
  {
    if turns > 1 {
      NeverDue(start, interval, clock, turns - 1);
      NextTurn(start, turns - 1, interval);
      assert clock(turns - 2) <= clock(turns - 1);
    }
  }

  lemma NextTurn(start: int, turns: int, interval: int)
    ensures start + turns * interval + interval == start + (turns + 1) * interval
  {
  }

  /** With a clock that stands still, nextDue becomes the first point of its own grid that is later than
      it was and not before now; there is just one such point. */
  lemma FirstGridPoint(start: int, interval: int, now: int, turns: nat, other: nat)
    requires interval > 0 && turns >= 1 && other >= 1
    requires now <= start + turns * interval
    requires forall i :: 1 <= i < turns ==> start + i * interval < now
    requires now <= start + other * interval
    ensures start < start + turns * interval <= start + other * interval
    ensures turns == 1 || start + turns * interval < now + interval
  {
    TimesAtLeast(turns, interval);
    if turns > 1 {
      assert start + (turns - 1) * interval < now;
      NextTurn(start, turns - 1, interval);
    }
    assert other >= turns;
    assert other * interval == turns * interval + (other - turns) * interval;
  }

  function AllPlausible(batches: seq<seq<Reading>>, timeMachine: bool): seq<Reading> {
    if batches == [] then []
    else AllPlausible(batches[..|batches| - 1], timeMachine) + Plausible(batches[|batches| - 1], timeMachine)
  }

  lemma NothingPlausible(timeMachine: bool)
    ensures AllPlausible([], timeMachine) == [] && forall id :: Matching([], id) == []
  {
  }

  lemma PlausibleNext(batches: seq<seq<Reading>>, i: nat, timeMachine: bool)
    requires i < |batches|
    ensures AllPlausible(batches[..i + 1], timeMachine) ==
            AllPlausible(batches[..i], timeMachine) + Plausible(batches[i], timeMachine)
  {
    assert batches[..i + 1][..i] == batches[..i];
  }

  lemma CompareIsEquality(a: Identifier, b: Identifier)
    ensures Compare(a, b) <==> a == b
  {
  }

  // ------------------------------------------------------------------ from the meter to the server

  datatype Target = Target(name: string, identifier: Identifier)

  /** What happens to the delivery system of src/api: batches read from the meter and routed, and any other
      step, such as aggregating, sending, replies and network callbacks. */
  datatype Round = Batch(rds: seq<Reading>) | Other(step: Delivery.Step)

  function RouteSteps(targets: seq<Target>, rds: seq<Reading>): seq<Delivery.Step>
    decreases |targets|
  {
    if targets == [] then []
    else [Delivery.Route(targets[0].name, Matching(rds, targets[0].identifier))] + RouteSteps(targets[1..], rds)
  }

  function StepsOf(targets: seq<Target>, rounds: seq<Round>, timeMachine: bool): seq<Delivery.Step>
    decreases |rounds|
  {
    if rounds == [] then []
    else RoundSteps(targets, rounds[0], timeMachine) + StepsOf(targets, rounds[1..], timeMachine)
  }

  function RoundSteps(targets: seq<Target>, round: Round, timeMachine: bool): seq<Delivery.Step> {
    match round
    case Batch(rds) => RouteSteps(targets, Plausible(rds, timeMachine))
    case Other(step) => [step]
  }

  function RoundReads(round: Round, timeMachine: bool): seq<Reading> {
    if round.Batch? then Plausible(round.rds, timeMachine) else []
  }

  /** All plausible readings the meter returned. */
  function ReadBy(rounds: seq<Round>, timeMachine: bool): seq<Reading>
    decreases |rounds|
  {
    if rounds == [] then []
    else RoundReads(rounds[0], timeMachine) + ReadBy(rounds[1..], timeMachine)
  }

  ghost predicate Distinct(targets: seq<Target>) {
    forall i, j :: 0 <= i < j < |targets| ==> targets[i].name != targets[j].name
  }

  /** Steps other than routing leave the record of routed readings alone. */
  lemma OtherKeepsRouted(s: Delivery.Sys, step: Delivery.Step, name: string)
    requires !step.Route? && name in s.chans
    ensures name in Delivery.Apply(s, step).chans
    ensures Delivery.Apply(s, step).chans[name].routed == s.chans[name].routed
    ensures Delivery.Apply(s, step).chans[name].mode == s.chans[name].mode
    ensures Delivery.Apply(s, step).chans[name].duplicates == s.chans[name].duplicates
  {
  }

  /** A batch routed to targets with different names reaches each channel once. */
  lemma {:induction false} RouteStepsReach(s: Delivery.Sys, targets: seq<Target>, rds: seq<Reading>, name: string)
    requires Distinct(targets) && name in s.chans
    ensures var t := Delivery.Run(s, RouteSteps(targets, rds));
            && name in t.chans && t.chans[name].mode == s.chans[name].mode
            && t.chans[name].duplicates == s.chans[name].duplicates
            && forall k :: 0 <= k < |targets| && targets[k].name == name ==>
                 t.chans[name].routed == s.chans[name].routed + Matching(rds, targets[k].identifier)
    ensures (forall k :: 0 <= k < |targets| ==> targets[k].name != name) ==>
              Delivery.Run(s, RouteSteps(targets, rds)).chans[name].routed == s.chans[name].routed
    decreases |targets|
  {
    hide Matching;
    if targets != [] {
      var step := Delivery.Route(targets[0].name, Matching(rds, targets[0].identifier));
      var s1 := Delivery.Apply(s, step);
      RouteStepsReach(s1, targets[1..], rds, name);
      Delivery.RunOne(s, step, RouteSteps(targets[1..], rds));
      assert forall k :: 1 <= k < |targets| ==> targets[k] == targets[1..][k - 1];
    }
  }

  /** What a channel keeps and gets in some steps. */
  ghost predicate Reached(s: Delivery.Sys, t: Delivery.Sys, name: string, rs: seq<Buffer.Reading>) {
    && name in s.chans && name in t.chans
    && t.chans[name].mode == s.chans[name].mode && t.chans[name].duplicates == s.chans[name].duplicates
    && t.chans[name].routed == s.chans[name].routed + rs
  }

  lemma RoundReaches(s: Delivery.Sys, targets: seq<Target>, round: Round, timeMachine: bool, k: nat)
    requires Distinct(targets) && k < |targets| && targets[k].name in s.chans
    requires round.Other? ==> !round.step.Route?
    ensures Reached(s, Delivery.Run(s, RoundSteps(targets, round, timeMachine)), targets[k].name,
                    Matching(RoundReads(round, timeMachine), targets[k].identifier))
  {
    hide Matching, Delivery.Apply, Delivery.Run, Plausible;
    var name := targets[k].name;
    match round
    case Batch(rds) => RouteStepsReach(s, targets, Plausible(rds, timeMachine), name);
    case Other(step) =>
      Delivery.RunOne(s, step, []);
      Delivery.RunNone(Delivery.Apply(s, step));
      assert [step] + [] == [step];
      OtherKeepsRouted(s, step, name);
      NothingPlausible(timeMachine);
  }

  lemma {:induction false} RoundsReach(s: Delivery.Sys, targets: seq<Target>, rounds: seq<Round>, timeMachine: bool,
                                       k: nat)
    requires Distinct(targets) && k < |targets| && targets[k].name in s.chans
    requires forall i :: 0 <= i < |rounds| && rounds[i].Other? ==> !rounds[i].step.Route?
    ensures Reached(s, Delivery.Run(s, StepsOf(targets, rounds, timeMachine)), targets[k].name,
                    Matching(ReadBy(rounds, timeMachine), targets[k].identifier))
    decreases |rounds|
  {
    hide Matching, Delivery.Run, RoundSteps, RoundReads, Distinct;
    var id := targets[k].identifier;
    if rounds == [] {
      Delivery.RunNone(s);
      NothingPlausible(timeMachine);
    } else {
      var first, now := RoundSteps(targets, rounds[0], timeMachine), RoundReads(rounds[0], timeMachine);
      Delivery.RunConcat(s, first, StepsOf(targets, rounds[1..], timeMachine));
      RoundReaches(s, targets, rounds[0], timeMachine, k);
      RoundsReach(Delivery.Run(s, first), targets, rounds[1..], timeMachine, k);
      MatchingConcat(now, ReadBy(rounds[1..], timeMachine), id);
    }
  }

  lemma {:induction false} MatchingUnmarked(rds: seq<Reading>, id: Identifier)
    ensures Delivery.Unmarked(Matching(rds, id))
  {
    if rds != [] {
      MatchingUnmarked(rds[..|rds| - 1], id);
    }
  }

  /** From the meter to the server, for every run. The readings with a channel's identifier become those its
      filter has seen and those still in its buffer: without aggregation they are the same, in order; with
      SUM their total, with MAX their maximum is the same. What the filter accepted are, in order, the
      readings that replies removed and those still pending. */
  lemma MeterToServer(s: Delivery.Sys, targets: seq<Target>, rounds: seq<Round>, timeMachine: bool, k: nat)
    requires Delivery.Start(s) && Distinct(targets) && k < |targets| && targets[k].name in s.chans
    requires forall i :: 0 <= i < |rounds| && rounds[i].Other? ==> !rounds[i].step.Route?
    ensures var t := Delivery.Run(s, StepsOf(targets, rounds, timeMachine)); var name := targets[k].name;
            name in t.chans &&
            var ch, seen := t.chans[name], Delivery.ConsumedBy(t.conn.log, name);
            var mode, got := s.chans[name].mode, Matching(ReadBy(rounds, timeMachine), targets[k].identifier);
            && (mode == Buffer.NONE ==> got == seen + ch.buffer.sent)
            && (mode == Buffer.SUM || mode == Buffer.MAX ==>
                  Buffer.Over(mode, got) ==
                  Buffer.Joined(mode, Buffer.Over(mode, seen), Buffer.Over(mode, ch.buffer.sent)))
            && Volkszaehler.Accepted(s.chans[name].duplicates, seen) ==
               Delivery.RetiredBy(t.conn.log, name) + ch.vz.values
  {
    hide Matching, Delivery.Run, Delivery.ConsumedBy, Delivery.RetiredBy, Delivery.GoodLog, StepsOf, ReadBy,
      Buffer.Over, Buffer.Joined, Delivery.Unmarked;
    RoundsReach(s, targets, rounds, timeMachine, k);
    Delivery.NothingLost(s, StepsOf(targets, rounds, timeMachine), targets[k].name);
    MatchingUnmarked(ReadBy(rounds, timeMachine), targets[k].identifier);
    var name := targets[k].name;
    var t := Delivery.Run(s, StepsOf(targets, rounds, timeMachine));
    assert s.chans[name].routed == [];
    assert t.chans[name].routed == Matching(ReadBy(rounds, timeMachine), targets[k].identifier);
  }

  /** The same with AVG, for runs in which each window is averaged once and taken over before the next
      reading is routed: if the times of the readings with a channel's identifier increase, its filter has
      seen one average for each window of them so far, and the averages times the lengths of the windows
      add up to the time-weighted sum of the readings. */
  lemma MeterToServerAvg(s: Delivery.Sys, targets: seq<Target>, rounds: seq<Round>, timeMachine: bool, k: nat)
    requires Delivery.Start(s) && Distinct(targets) && k < |targets| && targets[k].name in s.chans
    requires s.chans[targets[k].name].mode == Buffer.AVG
    requires forall i :: 0 <= i < |rounds| && rounds[i].Other? ==> !rounds[i].step.Route?
    requires Buffer.Increasing(None, Matching(ReadBy(rounds, timeMachine), targets[k].identifier))
    requires Averages.AllOrderly(s, StepsOf(targets, rounds, timeMachine), targets[k].name, Averages.NO_WINDOW)
    ensures var steps, name := StepsOf(targets, rounds, timeMachine), targets[k].name;
            var w := Averages.WatchAll(s, steps, name, Averages.NO_WINDOW);
            var seen := Delivery.ConsumedBy(Delivery.Run(s, steps).conn.log, name);
            && Matching(ReadBy(rounds, timeMachine), targets[k].identifier) == Flatten(w.done) + w.open
            && |seen| == |w.done| && (forall j :: 0 <= j < |w.done| ==> w.done[j] != [])
            && Averages.Areas(w.done, seen) == Buffer.Weighted(None, Flatten(w.done))
            && Averages.AllBetween(w.done, seen)
  {
    hide Matching, Delivery.Run, Delivery.ConsumedBy, StepsOf, ReadBy, Averages.AllOrderly, Averages.WatchAll,
      Averages.Areas, Averages.AllBetween, Buffer.Increasing, Buffer.Weighted;
    RoundsReach(s, targets, rounds, timeMachine, k);
    var got := Matching(ReadBy(rounds, timeMachine), targets[k].identifier);
    assert s.chans[targets[k].name].routed == [] && [] + got == got;
    Averages.AveragesConserve(s, StepsOf(targets, rounds, timeMachine), targets[k].name);
  }
}
