/** Any number of channels delivering over one shared connection: every run of routing, aggregation,
    sending, replies and network callbacks. */
module Delivery {
  import opened Common
  import opened LwipIF
  import opened Volkszaehler
  import Buffer

  // ------------------------------------------------------------------ the system

  /** A channel: its configuration, its instance of the api, its buffer, and all readings routed to it. */
  datatype Chan = Chan(duplicates: int, mode: Buffer.Mode, vz: Vz, buffer: Buffer.State, routed: seq<Reading>)

  datatype Sys = Sys(conn: Conn, chans: map<string, Chan>)

  /** Outcomes of a send that the runs admit: a flush that fails for lack of memory must not have left the
      request in the queue. */
  type Admitted = o: Outcome | o.write != FlushFailed(true)
    witness Outcome(false, false, ConnectOutcome(true, InProgress), [], Sent, [])

  datatype Step =
    | Route(name: string, readings: seq<Reading>)
    | Aggregate(name: string, aggtime: int, fixed: bool)
    | Construct(connect: ConnectOutcome)
    | Net(event: Event)
    | SendStep(name: string, outcome: Admitted)
    | CheckStep(name: string)

  /** What a channel sees, and the system after its call. */
  function Front(s: Sys, name: string): World
    requires name in s.chans
  {
    World(s.conn, s.chans[name].vz, s.chans[name].buffer.sent)
  }

  function Back(s: Sys, name: string, w: World): Sys
    requires name in s.chans
  {
    var ch := s.chans[name];
    Sys(w.conn, s.chans[name := ch.(vz := w.vz, buffer := ch.buffer.(sent := w.buffer))])
  }

  function Apply(s: Sys, step: Step): Sys {
    match step
    case Net(event) => s.(conn := Occur(s.conn, event))
    case Construct(connect) =>
      if s.conn.state == INIT && (s.conn.pcb == NoPcb || s.conn.pcb == Fresh)
      then s.(conn := Connecting(s.conn, connect)) else s
    case Route(name, readings) =>
      if name !in s.chans then s
      else
        var ch := s.chans[name];
        s.(chans := s.chans[name := ch.(buffer := ch.buffer.(sent := ch.buffer.sent + readings),
                                        routed := ch.routed + readings)])
    case Aggregate(name, aggtime, fixed) =>
      if name !in s.chans then s
      else
        var ch := s.chans[name];
        s.(chans := s.chans[name := ch.(buffer := Buffer.Aggregated(ch.mode, aggtime, fixed, ch.buffer))])
    case SendStep(name, outcome) =>
      if name !in s.chans then s
      else Back(s, name, Sending(name, s.chans[name].duplicates, Front(s, name), outcome))
    case CheckStep(name) =>
      if name !in s.chans then s else Back(s, name, Check(name, Front(s, name)))
  }

  function Run(s: Sys, steps: seq<Step>): Sys
    decreases |steps|
  {
    if steps == [] then s else Run(Apply(s, steps[0]), steps[1..])
  }

  ghost predicate Start(s: Sys) {
    && s.conn == CLOSED_CONN
    && forall name :: name in s.chans ==>
         s.chans[name].vz == VZ_START && s.chans[name].buffer == Buffer.State([], None) && s.chans[name].routed == []
  }

  // ------------------------------------------------------------------ the history

  /** Where the last request stands. */
  datatype Phase = Idle | Waiting(post: Entry) | Served(post: Entry, reply: Reply)

  function PhaseOf(log: seq<Entry>): (r: Phase)
    ensures r.Waiting? || r.Served? ==> r.post.Posted?
  {
    if log == [] then Idle
    else
      var before := PhaseOf(Init(log));
      match Last(log)
      case Posted(_, _, _) => Waiting(Last(log))
      case Answered(reply) => if before.Waiting? then Served(before.post, reply) else Idle
      case Handled(_, _, _, _) => Idle
      case Consumed(_, _) => before
  }

  /** Everything a channel took from its buffer. */
  function ConsumedBy(log: seq<Entry>, name: string): seq<Reading> {
    if log == [] then []
    else
      ConsumedBy(Init(log), name) +
      if Last(log).Consumed? && Last(log).channel == name then Last(log).readings else []
  }

  /** Everything replies removed from a channel's pending values. */
  function RetiredBy(log: seq<Entry>, name: string): seq<Reading> {
    if log == [] then []
    else
      RetiredBy(Init(log), name) +
      if Last(log).Handled? && Last(log).channel == name then Last(log).removed else []
  }

  /** The last payload in any reply the channel handled. */
  function PayloadOf(log: seq<Entry>, name: string): Option<Body> {
    if log == [] then None
    else
      var e := Last(log);
      if e.Handled? && e.channel == name && e.reply.Text? && e.reply.payload.Some? then e.reply.payload
      else PayloadOf(Init(log), name)
  }

  /** What a reply to a request may remove: with status 200 the chunk the request was built from, else at
      most its head, if the last payload says so. */
  function Earned(pending: seq<Reading>, code: int, payload: Option<Body>): seq<Reading> {
    if code == 200 then Chunk(pending)
    else if DropsHead(payload) && pending != [] then [pending[0]]
    else []
  }

  /** What each entry must look like after the ones before it: requests carry the pending values; an answer
      belongs to the last request; a reply is handled once, by the channel that made the request, and
      removes what the request it answers has earned. */
  ghost predicate GoodEntry(before: seq<Entry>, e: Entry) {
    match e
    case Posted(_, pending, text) => pending != [] ==> text == Payload(pending)
    case Answered(_) => PhaseOf(before).Waiting?
    case Consumed(_, _) => true
    case Handled(channel, reply, payload, removed) =>
      && reply.Text?
      && PhaseOf(before).Served? && PhaseOf(before).reply == reply
      && PhaseOf(before).post.channel == channel
      && payload == (if reply.payload.Some? then reply.payload else PayloadOf(before, channel))
      && removed == Earned(PhaseOf(before).post.pending, reply.code, payload)
  }

  ghost predicate GoodLog(log: seq<Entry>) {
    log != [] ==> GoodLog(Init(log)) && GoodEntry(Init(log), Last(log))
  }

  // ------------------------------------------------------------------ the invariant

  /** The request's pending values are still those of its channel. */
  ghost predicate InSync(chans: map<string, Chan>, post: Entry) {
    post.Posted? && post.channel in chans && post.pending == chans[post.channel].vz.values
  }

  ghost predicate ConnInv(c: Conn, chans: map<string, Chan>) {
    && GoodLog(c.log)
    && (c.state == READY || c.state == RETRY || c.state == REPLIED ==> c.pcb == Open(false))
    && (c.state == DNS ==> c.pcb == Fresh)
    && (c.pcb == Open(true) ==>
          && PhaseOf(c.log).Waiting?
          && PhaseOf(c.log).post.channel == c.channel && InSync(chans, PhaseOf(c.log).post))
    && (c.state == REPLIED ==>
          && PhaseOf(c.log).Served? && PhaseOf(c.log).reply == c.data
          && PhaseOf(c.log).post.channel == c.channel && InSync(chans, PhaseOf(c.log).post))
  }

  ghost predicate Unmarked(rs: seq<Reading>) {
    forall i :: 0 <= i < |rs| ==> !rs[i].deleted
  }

  /** From the readings routed to a channel to those the filter saw: without aggregation the same ones in
      the same order, with SUM the same total, with MAX the same maximum. */
  ghost predicate Carried(ch: Chan, consumed: seq<Reading>) {
    match ch.mode
    case NONE => ch.routed == consumed + ch.buffer.sent
    case AVG => true
    case _ =>
      Unmarked(ch.routed) ==>
        && Unmarked(ch.buffer.sent)
        && Buffer.Over(ch.mode, ch.routed) ==
           Buffer.Joined(ch.mode, Buffer.Over(ch.mode, consumed), Buffer.Over(ch.mode, ch.buffer.sent))
  }

  /** Accepted readings are the retired ones followed by the pending ones. */
  ghost predicate ChanInv(name: string, ch: Chan, log: seq<Entry>) {
    && Carried(ch, ConsumedBy(log, name))
    && PassAll(ch.duplicates, FILTER_START, ConsumedBy(log, name)) ==
       Filter(RetiredBy(log, name) + ch.vz.values, ch.vz.lastTimestamp, ch.vz.lastSent)
    && ch.vz.response == PayloadOf(log, name)
  }

  ghost predicate Inv(s: Sys) {
    && ConnInv(s.conn, s.chans)
    && forall name :: name in s.chans ==> ChanInv(name, s.chans[name], s.conn.log)
  }

  lemma StartInv(s: Sys)
    requires Start(s)
    ensures Inv(s)
  {
    forall name | name in s.chans
      ensures ChanInv(name, s.chans[name], s.conn.log)
    {
      PassNothing(s.chans[name].duplicates, FILTER_START);
      Buffer.OverFloor([]);
    }
  }

  /** Appending one entry. */
  lemma LogSnoc(log: seq<Entry>, e: Entry)
    ensures GoodLog(log + [e]) <==> GoodLog(log) && GoodEntry(log, e)
    ensures PhaseOf(log + [e]) == match e
                                  case Posted(_, _, _) => Waiting(e)
                                  case Answered(reply) =>
                                    if PhaseOf(log).Waiting? then Served(PhaseOf(log).post, reply) else Idle
                                  case Handled(_, _, _, _) => Idle
                                  case Consumed(_, _) => PhaseOf(log)
  {
    assert Init(log + [e]) == log && Last(log + [e]) == e;
  }

  lemma ChanSnoc(log: seq<Entry>, e: Entry, name: string)
    ensures ConsumedBy(log + [e], name) ==
            ConsumedBy(log, name) + if e.Consumed? && e.channel == name then e.readings else []
    ensures RetiredBy(log + [e], name) ==
            RetiredBy(log, name) + if e.Handled? && e.channel == name then e.removed else []
    ensures PayloadOf(log + [e], name) ==
            if e.Handled? && e.channel == name && e.reply.Text? && e.reply.payload.Some? then e.reply.payload
            else PayloadOf(log, name)
  {
    assert Init(log + [e]) == log && Last(log + [e]) == e;
  }

  /** Entries that do not concern a channel. */
  lemma Unaffected(name: string, ch: Chan, log: seq<Entry>, e: Entry)
    requires ChanInv(name, ch, log)
    requires (e.Consumed? || e.Handled?) ==> e.channel != name
    ensures ChanInv(name, ch, log + [e])
  {
    hide PassAll, Carried;
    ChanSnoc(log, e, name);
    assert ConsumedBy(log, name) + [] == ConsumedBy(log, name);
    assert RetiredBy(log, name) + [] == RetiredBy(log, name);
  }

  lemma OthersUnaffected(chans: map<string, Chan>, log: seq<Entry>, e: Entry)
    requires forall name :: name in chans ==> ChanInv(name, chans[name], log)
    ensures forall name :: name in chans && ((e.Consumed? || e.Handled?) ==> e.channel != name) ==>
              ChanInv(name, chans[name], log + [e])
  {
    hide ChanInv;
    forall name | name in chans && ((e.Consumed? || e.Handled?) ==> e.channel != name)
      ensures ChanInv(name, chans[name], log + [e])
    {
      Unaffected(name, chans[name], log, e);
    }
  }

  // ------------------------------------------------------------------ every step keeps it

  lemma OccurKeeps(s: Sys, e: Event)
    requires Inv(s)
    ensures Inv(s.(conn := Occur(s.conn, e)))
  {
    hide ChanInv, GoodLog, PhaseOf, InSync;
    if e.Recv? && e.p.Data? {
      LogSnoc(s.conn.log, Answered(e.p.reply));
      OthersUnaffected(s.chans, s.conn.log, Answered(e.p.reply));
    }
  }

  lemma {:induction false} OccurAllKeeps(s: Sys, es: seq<Event>)
    requires Inv(s)
    ensures Inv(s.(conn := OccurAll(s.conn, es)))
    decreases |es|
  {
    hide Inv, Occur;
    if es == [] {
      assert s.(conn := OccurAll(s.conn, es)) == s;
    } else {
      OccurKeeps(s, es[0]);
      OccurAllKeeps(s.(conn := Occur(s.conn, es[0])), es[1..]);
    }
  }

  lemma ConnectKeeps(s: Sys, o: ConnectOutcome)
    requires Inv(s) && s.conn.state in {INIT, CONNECTING, SENDING}
    ensures Inv(s.(conn := Reconnecting(s.conn, o)))
    ensures s.conn.pcb == NoPcb || s.conn.pcb == Fresh ==> Inv(s.(conn := Connecting(s.conn, o)))
  {
    hide ChanInv, GoodLog, PhaseOf, InSync;
  }

  /** Taking the buffer over: nothing is in flight while the connection is ready. */
  lemma TuplesKeeps(s: Sys, name: string)
    requires Inv(s) && name in s.chans && s.conn.state == READY
    ensures Inv(Back(s, name, JsonTuples(name, s.chans[name].duplicates, Front(s, name))))
  {
    hide PassAll, GoodLog, PhaseOf, Payload, ConsumedBy, RetiredBy, PayloadOf, ChanInv;
    var ch, log := s.chans[name], s.conn.log;
    var e := Consumed(name, ch.buffer.sent);
    LogSnoc(log, e);
    OthersUnaffected(s.chans, log, e);
    var t := Back(s, name, JsonTuples(name, ch.duplicates, Front(s, name)));
    TuplesKeepsChan(name, ch, t.chans[name], log, e);
  }

  lemma TuplesKeepsChan(name: string, ch: Chan, to: Chan, log: seq<Entry>, e: Entry)
    requires ChanInv(name, ch, log) && e.Consumed? && e.channel == name
    requires to.duplicates == ch.duplicates && to.mode == ch.mode && to.routed == ch.routed
    requires e.readings == ch.buffer.sent && to.buffer.sent == [] && to.vz.response == ch.vz.response
    requires Filter(to.vz.values, to.vz.lastTimestamp, to.vz.lastSent) ==
             PassAll(ch.duplicates, Filter(ch.vz.values, ch.vz.lastTimestamp, ch.vz.lastSent), e.readings)
    ensures ChanInv(name, to, log + [e])
  {
    hide PassAll, ConsumedBy, RetiredBy, PayloadOf, Carried;
    ChanSnoc(log, e, name);
    TuplesCarry(ch, to, ConsumedBy(log, name));
    assert RetiredBy(log, name) + [] == RetiredBy(log, name);
    PassAllConcat(ch.duplicates, FILTER_START, ConsumedBy(log, name), e.readings);
    var f := Filter(ch.vz.values, ch.vz.lastTimestamp, ch.vz.lastSent);
    PassAllAfter(ch.duplicates, RetiredBy(log, name), f, e.readings);
  }

  lemma TuplesCarry(ch: Chan, to: Chan, consumed: seq<Reading>)
    requires Carried(ch, consumed)
    requires to.mode == ch.mode && to.routed == ch.routed && to.buffer.sent == []
    ensures Carried(to, consumed + ch.buffer.sent)
  {
    assert (consumed + ch.buffer.sent) + [] == consumed + ch.buffer.sent;
    Buffer.OverConcat(ch.mode, consumed, ch.buffer.sent);
    Buffer.OverFloor(consumed + ch.buffer.sent);
  }

  lemma RouteCarries(ch: Chan, readings: seq<Reading>, consumed: seq<Reading>)
    requires Carried(ch, consumed)
    ensures Carried(ch.(buffer := ch.buffer.(sent := ch.buffer.sent + readings), routed := ch.routed + readings),
                    consumed)
  {
    hide Buffer.Over;
    assert consumed + (ch.buffer.sent + readings) == (consumed + ch.buffer.sent) + readings;
    Buffer.OverConcat(ch.mode, ch.routed, readings);
    Buffer.OverConcat(ch.mode, ch.buffer.sent, readings);
    if Unmarked(ch.routed + readings) {
      assert forall i :: 0 <= i < |ch.routed| ==> ch.routed[i] == (ch.routed + readings)[i];
      assert forall i :: 0 <= i < |readings| ==> readings[i] == (ch.routed + readings)[|ch.routed| + i];
    }
  }

  lemma AggregateCarries(ch: Chan, aggtime: int, fixed: bool, consumed: seq<Reading>)
    requires Carried(ch, consumed)
    ensures Carried(ch.(buffer := Buffer.Aggregated(ch.mode, aggtime, fixed, ch.buffer)), consumed)
  {
    hide Buffer.Over, Buffer.Marked, Buffer.Live;
    var b := Buffer.Aggregated(ch.mode, aggtime, fixed, ch.buffer);
    if (ch.mode == Buffer.SUM || ch.mode == Buffer.MAX) && Unmarked(ch.routed) {
      Buffer.AllLive(ch.buffer.sent);
      Buffer.OverAggregated(Buffer.Setting(ch.mode, aggtime, fixed), ch.buffer);
      OverNothing(ch.mode, b.sent);
    }
  }

  lemma OverNothing(mode: Buffer.Mode, rs: seq<Reading>)
    requires mode == Buffer.SUM || mode == Buffer.MAX
    ensures Buffer.Joined(mode, Buffer.Over(mode, rs), Buffer.Over(mode, [])) == Buffer.Over(mode, rs)
  {
    Buffer.OverFloor(rs);
  }

  /** Writing a request built from all pending values. */
  lemma PostKeeps(s: Sys, name: string, write: Write)
    requires Inv(s) && name in s.chans && write != FlushFailed(true)
    requires var vz := s.chans[name].vz; vz.values != [] ==> vz.outputData == Payload(vz.values)
    ensures var vz := s.chans[name].vz;
            Inv(s.(conn := Posting(s.conn, name, vz.values, vz.outputData, write)))
  {
    hide ChanInv, GoodLog, PhaseOf, Payload;
    var vz := s.chans[name].vz;
    if s.conn.state == READY && (write.Sent? || write.FlushFailed?) {
      var e := Posted(name, vz.values, vz.outputData);
      LogSnoc(s.conn.log, e);
      OthersUnaffected(s.chans, s.conn.log, e);
    }
  }

  /** A reply is handled by the channel whose request it answers. */
  lemma CheckKeeps(s: Sys, name: string)
    requires Inv(s) && name in s.chans
    ensures Inv(Back(s, name, Check(name, Front(s, name))))
  {
    hide GoodLog, PhaseOf, ConsumedBy, RetiredBy, PayloadOf, PassAll, ChanInv, DropsHead;
    var w, t := Front(s, name), Back(s, name, Check(name, Front(s, name)));
    assert s.chans[name := s.chans[name]] == s.chans;
    if w.conn.state == REPLIED && name == w.conn.channel && w.conn.data.Text? {
      var e := Last(t.conn.log);
      LogSnoc(s.conn.log, e);
      OthersUnaffected(s.chans, s.conn.log, e);
      CheckKeepsChan(name, s.chans[name], t.chans[name], s.conn.log, e);
      assert GoodEntry(s.conn.log, e) by { PayloadKnown(name, s.chans[name], s.conn.log); }
    } else {
      assert t.chans == s.chans;
    }
  }

  lemma PayloadKnown(name: string, ch: Chan, log: seq<Entry>)
    requires ChanInv(name, ch, log)
    ensures ch.vz.response == PayloadOf(log, name)
  {
  }

  lemma CheckKeepsChan(name: string, ch: Chan, to: Chan, log: seq<Entry>, e: Entry)
    requires ChanInv(name, ch, log) && e.Handled? && e.channel == name && e.reply.Text?
    requires to == ch.(vz := to.vz)
    requires to.vz == Process(Stored(ch.vz, e.reply), e.reply.code)
    requires e.removed == Removed(Stored(ch.vz, e.reply), e.reply.code)
    ensures ChanInv(name, to, log + [e])
  {
    hide PassAll, ConsumedBy, RetiredBy, PayloadOf, DropsHead;
    ChanSnoc(log, e, name);
    assert ConsumedBy(log, name) + [] == ConsumedBy(log, name);
    assert (RetiredBy(log, name) + e.removed) + to.vz.values == RetiredBy(log, name) + ch.vz.values by {
      assert e.removed + to.vz.values == ch.vz.values;
    }
  }

  lemma BackFront(s: Sys, name: string)
    requires name in s.chans
    ensures Back(s, name, Front(s, name)) == s
  {
    assert s.chans[name := s.chans[name]] == s.chans;
  }

  /** From s to t the history goes on, pending values are only added, and no reply is handled. */
  ghost predicate Grew(s: Sys, t: Sys) {
    && s.conn.log <= t.conn.log && t.chans.Keys == s.chans.Keys
    && (forall name :: name in s.chans ==> |t.chans[name].vz.values| >= |s.chans[name].vz.values|)
    && (forall name :: Drops(t.conn.log, name) == Drops(s.conn.log, name))
  }

  /** Replies that made a channel drop the head of its pending values. */
  function Drops(log: seq<Entry>, name: string): nat {
    if log == [] then 0
    else Drops(Init(log), name) + if IsDrop(Last(log), name) then 1 else 0
  }

  predicate IsDrop(e: Entry, name: string) {
    e.Handled? && e.channel == name && e.reply.Text? && e.reply.code != 200 && e.removed != []
  }

  lemma DropsSnoc(log: seq<Entry>, e: Entry, name: string)
    ensures Drops(log + [e], name) == Drops(log, name) + if IsDrop(e, name) then 1 else 0
  {
    assert Init(log + [e]) == log && Last(log + [e]) == e;
  }

  lemma GrewStep(s: Sys, t: Sys, e: Entry)
    requires !e.Handled? && t.conn.log == s.conn.log + [e] && t.chans.Keys == s.chans.Keys
    requires forall name :: name in s.chans ==> |t.chans[name].vz.values| >= |s.chans[name].vz.values|
    ensures Grew(s, t)
  {
    forall name
      ensures Drops(t.conn.log, name) == Drops(s.conn.log, name)
    {
      DropsSnoc(s.conn.log, e, name);
    }
  }

  lemma GrewSame(s: Sys, t: Sys)
    requires t.conn.log == s.conn.log && t.chans == s.chans
    ensures Grew(s, t)
  {
  }

  lemma GrewOn(s: Sys, t: Sys, u: Sys)
    requires Grew(s, t) && Grew(t, u)
    ensures Grew(s, u)
  {
    hide Drops;
  }

  lemma OccurGrew(s: Sys, e: Event)
    ensures Grew(s, s.(conn := Occur(s.conn, e)))
  {
    hide Grew;
    var t := s.(conn := Occur(s.conn, e));
    if Possible(s.conn, e) && e.Recv? && e.p.Data? {
      GrewStep(s, t, Answered(e.p.reply));
    } else {
      GrewSame(s, t);
    }
  }

  lemma {:induction false} OccurAllGrew(s: Sys, es: seq<Event>)
    ensures Grew(s, s.(conn := OccurAll(s.conn, es)))
    decreases |es|
  {
    hide Grew, Occur;
    if es == [] {
      GrewSame(s, s.(conn := OccurAll(s.conn, es)));
    } else {
      var t := s.(conn := Occur(s.conn, es[0]));
      OccurGrew(s, es[0]);
      OccurAllGrew(t, es[1..]);
      GrewOn(s, t, s.(conn := OccurAll(s.conn, es)));
    }
  }

  lemma TuplesGrew(s: Sys, name: string)
    requires name in s.chans
    ensures Grew(s, Back(s, name, JsonTuples(name, s.chans[name].duplicates, Front(s, name))))
  {
    hide PassAll, Payload;
    var ch := s.chans[name];
    var f := Filter([], ch.vz.lastTimestamp, ch.vz.lastSent);
    assert f.(accepted := ch.vz.values + f.accepted) == FilterOf(ch.vz);
    PassAllAfter(ch.duplicates, ch.vz.values, f, ch.buffer.sent);
    GrewStep(s, Back(s, name, JsonTuples(name, ch.duplicates, Front(s, name))), Consumed(name, ch.buffer.sent));
  }

  lemma PostGrew(s: Sys, name: string, write: Write)
    requires name in s.chans
    ensures var vz := s.chans[name].vz; Grew(s, s.(conn := Posting(s.conn, name, vz.values, vz.outputData, write)))
  {
    hide Grew;
    var vz := s.chans[name].vz;
    var t := s.(conn := Posting(s.conn, name, vz.values, vz.outputData, write));
    if s.conn.state == READY && (write.Sent? || write.FlushFailed?) {
      GrewStep(s, t, Posted(name, vz.values, vz.outputData));
    } else {
      GrewSame(s, t);
    }
  }

  /** send keeps the invariant. Up to a state m pending values only grow; after it at most a reply is handled. */
  lemma SendKeeps(s: Sys, name: string, o: Admitted) returns (m: Sys)
    requires Inv(s) && name in s.chans
    ensures var t := Back(s, name, Sending(name, s.chans[name].duplicates, Front(s, name), o));
            && Inv(t) && Inv(m) && Grew(s, m)
            && (t == m || (name in m.chans && t == Back(m, name, Check(name, Front(m, name)))))
  {
    hide Inv, Check, JsonTuples, Posting, OccurAll, Connecting, Grew;
    var w, state := Front(s, name), LocalState(s.conn, o);
    BackFront(s, name);
    m := s;
    GrewSame(s, s);
    if state == INIT {
      ConnectKeeps(s, o.connect);
      m := s.(conn := Reconnecting(s.conn, o.connect));
      ReconnectLog(s.conn, o.connect);
      GrewSame(s, m);
      assert Back(s, name, w.(conn := Reconnecting(w.conn, o.connect))) == m by {
        assert s.chans[name := s.chans[name]] == s.chans;
      }
    } else if state == READY && w.buffer != [] {
      m := SendReadyKeeps(s, name, o);
    } else if state != CONNECTING && state != SENDING && state != READY {
      CheckKeeps(s, name);
    }
  }

  lemma ReconnectLog(c: Conn, o: ConnectOutcome)
    ensures Reconnecting(c, o).log == c.log
  {
  }

  /** The part of send that runs on a ready connection with readings in the buffer. */
  lemma SendReadyKeeps(s: Sys, name: string, o: Admitted) returns (m: Sys)
    requires Inv(s) && name in s.chans && s.conn.state == READY && s.chans[name].buffer.sent != []
    ensures var t := Back(s, name, Sending(name, s.chans[name].duplicates, Front(s, name), o));
            && Inv(t) && Inv(m) && Grew(s, m)
            && (t == m || (name in m.chans && t == Back(m, name, Check(name, Front(m, name)))))
  {
    hide Inv, Check, JsonTuples, Posting, OccurAll, Grew;
    var w1 := JsonTuples(name, s.chans[name].duplicates, Front(s, name));
    var s1 := Back(s, name, w1);
    TuplesKeeps(s, name);
    TuplesGrew(s, name);
    TuplesText(name, s.chans[name].duplicates, Front(s, name));
    OccurAllKeeps(s1, o.before);
    OccurAllGrew(s1, o.before);
    var s2 := s1.(conn := OccurAll(s1.conn, o.before));
    GrewOn(s, s1, s2);
    PostKeeps(s2, name, o.write);
    PostGrew(s2, name, o.write);
    var w2 := Post(name, w1, o);
    var s3 := Back(s, name, w2);
    assert s3 == s2.(conn := w2.conn);
    GrewOn(s, s2, s3);
    if w2.conn.state == RETRY {
      SetStateKeeps(s3, READY);
      m := s3.(conn := s3.conn.(state := READY));
      GrewSame(s3, m);
      GrewOn(s, s3, m);
      assert Back(s, name, w2.(conn := w2.conn.(state := READY))) == m;
    } else {
      OccurAllKeeps(s3, o.after);
      OccurAllGrew(s3, o.after);
      var w4 := w2.(conn := OccurAll(w2.conn, o.after));
      var s4 := Back(s, name, w4);
      assert s4 == s3.(conn := w4.conn);
      GrewOn(s, s3, s4);
      if w4.conn.state in {INIT, SENDING, REPLIED} {
        CheckKeeps(s4, name);
        assert Front(s4, name) == w4;
        BackBack(s, name, w4, Check(name, w4));
        m := s4;
      } else {
        SetStateKeeps(s4, INIT);
        m := s4.(conn := s4.conn.(state := INIT));
        GrewSame(s4, m);
        GrewOn(s, s4, m);
        assert Back(s, name, w4.(conn := w4.conn.(state := INIT))) == m;
      }
    }
  }

  lemma BackBack(s: Sys, name: string, w: World, x: World)
    requires name in s.chans
    ensures Back(Back(s, name, w), name, x) == Back(s, name, x)
  {
    assert Back(Back(s, name, w), name, x).chans == Back(s, name, x).chans;
  }

  lemma TuplesText(name: string, duplicates: int, w: World)
    ensures var vz := JsonTuples(name, duplicates, w).vz; vz.values != [] ==> vz.outputData == Payload(vz.values)
  {
  }

  lemma SetStateKeeps(s: Sys, state: Srv)
    requires Inv(s)
    requires state == INIT || (state == READY && s.conn.state == RETRY)
    ensures Inv(s.(conn := s.conn.(state := state)))
  {
    hide ChanInv, GoodLog, PhaseOf, InSync;
  }

  lemma ApplyKeepsInv(s: Sys, step: Step)
    requires Inv(s)
    ensures Inv(Apply(s, step))
  {
    hide Inv, Occur, Check, Sending, Connecting, Buffer.Aggregated;
    match step
    case Net(event) => OccurKeeps(s, event);
    case Construct(connect) => if s.conn.state == INIT { ConnectKeeps(s, connect); }
    case Route(name, readings) =>
      if name in s.chans { RouteKeeps(s, name, readings); }
    case Aggregate(name, aggtime, fixed) =>
      if name in s.chans { AggregateKeeps(s, name, aggtime, fixed); }
    case SendStep(name, outcome) => if name in s.chans { var m := SendKeeps(s, name, outcome); }
    case CheckStep(name) => if name in s.chans { CheckKeeps(s, name); }
  }

  lemma RouteKeeps(s: Sys, name: string, readings: seq<Reading>)
    requires Inv(s) && name in s.chans
    ensures Inv(Apply(s, Route(name, readings)))
  {
    hide GoodLog, PhaseOf, ConsumedBy, RetiredBy, PayloadOf, PassAll, Carried;
    RouteCarries(s.chans[name], readings, ConsumedBy(s.conn.log, name));
  }

  lemma AggregateKeeps(s: Sys, name: string, aggtime: int, fixed: bool)
    requires Inv(s) && name in s.chans
    ensures Inv(Apply(s, Aggregate(name, aggtime, fixed)))
  {
    hide GoodLog, PhaseOf, ConsumedBy, RetiredBy, PayloadOf, PassAll, Carried, Buffer.Aggregated;
    AggregateCarries(s.chans[name], aggtime, fixed, ConsumedBy(s.conn.log, name));
  }

  /** Over every run. */
  lemma {:induction false} RunKeepsInv(s: Sys, steps: seq<Step>)
    requires Inv(s)
    ensures Inv(Run(s, steps))
    decreases |steps|
  {
    hide Inv, Apply;
    if steps != [] {
      ApplyKeepsInv(s, steps[0]);
      RunKeepsInv(Apply(s, steps[0]), steps[1..]);
    }
  }

  // ------------------------------------------------------------------ what follows for every run

  /** No accepted reading is lost or reordered: after any run the accepted readings of a channel are those
      removed by replies, in order, followed by the pending ones; and from routing to the filter nothing
      is lost either. */
  lemma NothingLost(s: Sys, steps: seq<Step>, name: string)
    requires Start(s) && name in Run(s, steps).chans
    ensures var t := Run(s, steps); var ch, consumed := t.chans[name], ConsumedBy(t.conn.log, name);
            && Accepted(ch.duplicates, consumed) == RetiredBy(t.conn.log, name) + ch.vz.values
            && Carried(ch, consumed)
            && GoodLog(t.conn.log)
  {
    hide PassAll, Run, ConsumedBy, RetiredBy, PayloadOf, GoodLog;
    var t := Run(s, steps);
    StartInv(s);
    RunKeepsInv(s, steps);
    FilterIsReference(t.chans[name].duplicates, ConsumedBy(t.conn.log, name));
  }

  lemma {:induction false} GoodAt(log: seq<Entry>, i: nat)
    requires GoodLog(log) && i < |log|
    ensures GoodEntry(log[..i], log[i])
  {
    hide GoodEntry;
    if i < |log| - 1 {
      GoodAt(Init(log), i);
      assert Init(log)[..i] == log[..i];
    } else {
      assert Init(log) == log[..i];
    }
  }

  /** Positions of the last request and its answer; only buffer hand-overs lie between and after them. */
  lemma {:induction false} PhaseAt(log: seq<Entry>) returns (j: nat, k: nat)
    requires PhaseOf(log) != Idle
    ensures j < |log| && log[j] == PhaseOf(log).post
    ensures PhaseOf(log).Waiting? ==> forall m :: j < m < |log| ==> log[m].Consumed?
    ensures PhaseOf(log).Served? ==>
              && j < k < |log| && log[k] == Answered(PhaseOf(log).reply)
              && forall m :: j < m < |log| && m != k ==> log[m].Consumed?
  {
    var n := |log| - 1;
    if log[n].Posted? {
      j, k := n, n;
    } else {
      j, k := PhaseAt(Init(log));
      if log[n].Answered? { k := n; }
    }
  }

  /** Every handled reply answers the last request before it, which the same channel made; between the
      request and the handling there is just that one answer, so each reply is handled once. With status
      200 it removes exactly the chunk of the values pending at the time of the request, and a request of
      at most 64 values spelled out exactly those; with another status it removes at most the head, and
      that only if the last payload any reply carried to this channel reports a duplicate. */
  lemma HandledReplyIsOwn(s: Sys, steps: seq<Step>, i: nat) returns (j: nat, k: nat)
    requires Start(s)
    requires i < |Run(s, steps).conn.log| && Run(s, steps).conn.log[i].Handled?
    ensures var log := Run(s, steps).conn.log; var h := log[i];
            && j < k < i && log[j].Posted? && log[j].channel == h.channel && log[k] == Answered(h.reply)
            && (forall m :: j < m < i && m != k ==> log[m].Consumed?)
            && h.reply.Text?
            && h.payload == (if h.reply.payload.Some? then h.reply.payload else PayloadOf(log[..i], h.channel))
            && (h.reply.code == 200 ==> h.removed == Chunk(log[j].pending))
            && (h.reply.code == 200 && 0 < |log[j].pending| <= 64 ==> ParseArray(log[j].text) == Some(Pairs(h.removed)))
            && (h.reply.code != 200 ==>
                  h.removed == if DropsHead(h.payload) && log[j].pending != [] then [log[j].pending[0]] else [])
  {
    hide Run, PhaseOf, Payload, PayloadOf, DropsHead, ParseArray;
    var log := Run(s, steps).conn.log;
    StartInv(s);
    RunKeepsInv(s, steps);
    GoodAt(log, i);
    j, k := PhaseAt(log[..i]);
    assert forall m :: 0 <= m < i ==> log[..i][m] == log[m];
    PostedText(log, j);
    PayloadParses(log[j].pending);
  }

  lemma PostedText(log: seq<Entry>, j: nat)
    requires GoodLog(log) && j < |log| && log[j].Posted?
    ensures log[j].pending != [] ==> log[j].text == Payload(log[j].pending)
  {
    GoodAt(log, j);
  }

  /** Why the rule about receive events is needed: one without data makes the connection believe an older
      reply is new, and an older 200 then removes readings that were never acknowledged. */
  lemma EmptyReceiveAcknowledges(name: string, w: World, payload: Option<Body>)
    requires w.conn.state == SENDING && w.conn.channel == name && w.conn.data == Text(200, payload)
    ensures Check(name, w.(conn := OnRecv(w.conn, Empty))).vz.values == w.vz.values[|Chunk(w.vz.values)|..]
  {
  }

  /** A reply without payload does not clear the stored one: an error status then removes the head exactly
      when the payload of an earlier reply reported a duplicate. */
  lemma StalePayloadDecides(name: string, w: World, code: int)
    requires w.conn.state == REPLIED && w.conn.channel == name && w.conn.data == Text(code, None) && code != 200
    requires w.vz.values != []
    ensures Check(name, w).vz.values == w.vz.values[1..] <==> DropsHead(w.vz.response)
    ensures Check(name, w).vz.values == w.vz.values <==> !DropsHead(w.vz.response)
  {
    hide DropsHead;
  }

  // ------------------------------------------------------------------ more than a chunk is stuck

  /** The server answers 200 only to a request it can parse. */
  ghost predicate Honest(log: seq<Entry>) {
    log != [] ==>
      && Honest(Init(log))
      && (var e := Last(log);
          e.Answered? && e.answer.Text? && e.answer.code == 200 && PhaseOf(Init(log)).Waiting? ==>
            ParseArray(PhaseOf(Init(log)).post.text).Some?)
  }

  lemma {:induction false} HonestPrefix(log: seq<Entry>, n: nat)
    requires Honest(log) && n <= |log|
    ensures Honest(log[..n])
    decreases |log|
  {
    if n == |log| {
      assert log[..n] == log;
    } else {
      HonestPrefix(Init(log), n);
      assert Init(log)[..n] == log[..n];
    }
  }

  lemma {:induction false} HonestServed(log: seq<Entry>)
    requires Honest(log) && PhaseOf(log).Served? && PhaseOf(log).reply.Text? && PhaseOf(log).reply.code == 200
    ensures ParseArray(PhaseOf(log).post.text).Some?
  {
    hide ParseArray;
    if !Last(log).Answered? { HonestServed(Init(log)); }
  }

  /** Pending values plus heads dropped so far. */
  function Measure(s: Sys, name: string): nat
    requires name in s.chans
  {
    |s.chans[name].vz.values| + Drops(s.conn.log, name)
  }

  /** With more than 64 values pending a handled reply removes at most one, and counts as a drop. */
  lemma CheckMeasure(s: Sys, caller: string, name: string)
    requires Inv(s) && caller in s.chans && name in s.chans && Honest(s.conn.log)
    ensures var t := Back(s, caller, Check(caller, Front(s, caller)));
            && s.conn.log <= t.conn.log && Drops(t.conn.log, name) >= Drops(s.conn.log, name)
            && (|s.chans[name].vz.values| > 64 ==> Measure(t, name) >= Measure(s, name))
  {
    hide GoodLog, PhaseOf, DropsHead, Honest, ChanInv, ParseArray, Payload, Drops;
    var w, t := Front(s, caller), Back(s, caller, Check(caller, Front(s, caller)));
    if w.conn.state == REPLIED && caller == w.conn.channel && w.conn.data.Text? {
      var e := Last(t.conn.log);
      DropsSnoc(s.conn.log, e, name);
      if caller == name && |w.vz.values| > 64 && w.conn.data.code == 200 {
        HonestServed(s.conn.log);
        var j, k := PhaseAt(s.conn.log);
        PostedText(s.conn.log, j);
        PayloadParses(w.vz.values);
        assert false;
      }
    }
  }

  lemma GrewMeasure(s: Sys, m: Sys, name: string)
    requires Grew(s, m) && name in s.chans
    ensures name in m.chans && s.conn.log <= m.conn.log && Drops(m.conn.log, name) == Drops(s.conn.log, name)
    ensures |m.chans[name].vz.values| >= |s.chans[name].vz.values| && Measure(m, name) >= Measure(s, name)
  {
    hide Drops;
  }

  /** One step: the history goes on, and more than 64 pending values shrink only by dropped heads. */
  ghost predicate Shrinks(s: Sys, t: Sys, name: string)
    requires name in s.chans
  {
    && s.conn.log <= t.conn.log && name in t.chans && Drops(t.conn.log, name) >= Drops(s.conn.log, name)
    && (Honest(t.conn.log) && |s.chans[name].vz.values| > 64 ==> Measure(t, name) >= Measure(s, name))
  }

  lemma CheckShrinks(s: Sys, m: Sys, caller: string, name: string)
    requires Grew(s, m) && Inv(m) && caller in m.chans && name in s.chans
    ensures Shrinks(s, Back(m, caller, Check(caller, Front(m, caller))), name)
  {
    hide Inv, Grew, Honest, Check, Drops;
    GrewMeasure(s, m, name);
    var t := Back(m, caller, Check(caller, Front(m, caller)));
    CheckLog(m, caller, name);
    if Honest(t.conn.log) {
      HonestPrefix(t.conn.log, |m.conn.log|);
      assert t.conn.log[..|m.conn.log|] == m.conn.log;
      CheckMeasure(m, caller, name);
    }
  }

  lemma CheckLog(s: Sys, caller: string, name: string)
    requires caller in s.chans
    ensures var t := Back(s, caller, Check(caller, Front(s, caller)));
            && s.conn.log <= t.conn.log && t.chans.Keys == s.chans.Keys
            && Drops(t.conn.log, name) >= Drops(s.conn.log, name)
  {
    hide Drops, Removed, Process;
    var t := Back(s, caller, Check(caller, Front(s, caller)));
    if t.conn.log != s.conn.log {
      DropsSnoc(s.conn.log, Last(t.conn.log), name);
    }
  }

  lemma ApplyShrinks(s: Sys, step: Step, name: string)
    requires Inv(s) && name in s.chans
    ensures Shrinks(s, Apply(s, step), name)
  {
    hide Inv, Grew, Shrinks, Sending, Check, Occur, Connecting, Buffer.Aggregated;
    var t := Apply(s, step);
    match step
    case Net(event) =>
      OccurGrew(s, event);
      GrewShrinks(s, t, name);
    case Construct(connect) =>
      ConnectLog(s.conn, connect);
      GrewSame(s, t);
      GrewShrinks(s, t, name);
    case Route(caller, readings) =>
      GrewBuffers(s, t);
      GrewShrinks(s, t, name);
    case Aggregate(caller, aggtime, fixed) =>
      GrewBuffers(s, t);
      GrewShrinks(s, t, name);
    case SendStep(caller, outcome) =>
      if caller in s.chans {
        var m := SendKeeps(s, caller, outcome);
        if t == m { GrewShrinks(s, t, name); } else { CheckShrinks(s, m, caller, name); }
      } else {
        GrewSame(s, t);
        GrewShrinks(s, t, name);
      }
    case CheckStep(caller) =>
      GrewSame(s, s);
      if caller in s.chans { CheckShrinks(s, s, caller, name); } else { GrewShrinks(s, t, name); }
  }

  lemma ConnectLog(c: Conn, o: ConnectOutcome)
    ensures Connecting(c, o).log == c.log
  {
  }

  lemma GrewShrinks(s: Sys, t: Sys, name: string)
    requires Grew(s, t) && name in s.chans
    ensures Shrinks(s, t, name)
  {
    hide Drops;
  }

  lemma GrewBuffers(s: Sys, t: Sys)
    requires t.conn.log == s.conn.log && t.chans.Keys == s.chans.Keys
    requires forall name :: name in s.chans ==> t.chans[name].vz == s.chans[name].vz
    ensures Grew(s, t)
  {
    hide Drops;
  }

  lemma {:induction false} RunShrinks(s: Sys, steps: seq<Step>, name: string)
    requires Inv(s) && name in s.chans
    ensures var t := Run(s, steps);
            && s.conn.log <= t.conn.log && name in t.chans && Drops(t.conn.log, name) >= Drops(s.conn.log, name)
            && (Honest(t.conn.log) && Measure(s, name) > 64 + Drops(t.conn.log, name) ==>
                  Measure(t, name) >= Measure(s, name))
    decreases |steps|
  {
    hide Inv, Apply, Drops, Honest;
    if steps != [] {
      var u := Apply(s, steps[0]);
      ApplyShrinks(s, steps[0], name);
      ApplyKeepsInv(s, steps[0]);
      RunShrinks(u, steps[1..], name);
      var t := Run(u, steps[1..]);
      if Honest(t.conn.log) {
        HonestPrefix(t.conn.log, |u.conn.log|);
        assert t.conn.log[..|u.conn.log|] == u.conn.log;
      }
    }
  }

  /** A channel that once has more than 64 values pending never delivers them to a server that answers 200
      only to requests it can parse: in every continuation the pending values get fewer by dropped heads
      alone, so that without a reported duplicate they stay more than 64 for ever. */
  lemma MoreThanAChunkIsStuck(s: Sys, steps: seq<Step>, more: seq<Step>, name: string)
    requires Start(s) && name in s.chans
    ensures var t, u := Run(s, steps), Run(Run(s, steps), more);
            && name in t.chans && name in u.chans
            && var drops := Drops(u.conn.log, name) - Drops(t.conn.log, name);
               && drops >= 0
               && (Honest(u.conn.log) && |t.chans[name].vz.values| > 64 + drops ==>
                     |u.chans[name].vz.values| >= |t.chans[name].vz.values| - drops > 64)
  {
    hide Inv, Run, Drops, Honest;
    StartInv(s);
    RunKeepsInv(s, steps);
    RunShape(s, steps);
    RunShrinks(Run(s, steps), more, name);
  }

  // ------------------------------------------------------------------ the connection is never stuck

  /** The keys of the channels stay, and RETRY does not outlast a call. */
  lemma {:induction false} RunShape(s: Sys, steps: seq<Step>)
    requires s.conn.state != RETRY
    ensures Run(s, steps).conn.state != RETRY && Run(s, steps).chans.Keys == s.chans.Keys
    decreases |steps|
  {
    hide Apply;
    if steps != [] {
      ApplyShape(s, steps[0]);
      RunShape(Apply(s, steps[0]), steps[1..]);
    }
  }

  lemma ApplyShape(s: Sys, step: Step)
    requires s.conn.state != RETRY
    ensures Apply(s, step).conn.state != RETRY && Apply(s, step).chans.Keys == s.chans.Keys
  {
    hide Buffer.Aggregated, JsonTuples, Process, Removed;
    match step
    case Net(event) =>
    case Construct(connect) =>
    case Route(name, readings) =>
    case Aggregate(name, aggtime, fixed) =>
    case SendStep(name, outcome) =>
      if name in s.chans { SendShape(name, s.chans[name].duplicates, Front(s, name), outcome); }
    case CheckStep(name) =>
  }

  lemma SendShape(name: string, duplicates: int, w: World, o: Outcome)
    requires w.conn.state != RETRY
    ensures Sending(name, duplicates, w, o).conn.state != RETRY
  {
    hide Process, Removed, Posting, OccurAll, PassAll;
  }

  lemma RunOne(s: Sys, step: Step, rest: seq<Step>)
    ensures Run(s, [step] + rest) == Run(Apply(s, step), rest)
  {
    assert ([step] + rest)[1..] == rest;
  }

  lemma RunTwo(s: Sys, e0: Step, e1: Step)
    ensures Run(s, [e0, e1]) == Apply(Apply(s, e0), e1)
  {
    hide Apply, Run;
    RunOne(s, e0, [e1]);
    RunOne(Apply(s, e0), e1, []);
    RunNone(Apply(Apply(s, e0), e1));
    assert [e1] + [] == [e1];
    assert [e0] + [e1] == [e0, e1];
  }

  lemma {:induction false} RunConcat(s: Sys, a: seq<Step>, b: seq<Step>)
    ensures Run(s, a + b) == Run(Run(s, a), b)
    decreases |a|
  {
    hide Apply;
    if a == [] {
      assert a + b == b;
    } else {
      assert (a + b)[1..] == a[1..] + b;
      RunConcat(Apply(s, a[0]), a[1..], b);
    }
  }

  /** From s to t nothing is consumed, routed or answered, and pending values at most get fewer. */
  ghost predicate Quiet(s: Sys, t: Sys) {
    && t.chans.Keys == s.chans.Keys
    && (forall name :: name in s.chans ==>
          var vz := t.chans[name].vz;
          && t.chans[name] == s.chans[name].(vz := vz)
          && vz == s.chans[name].vz.(values := vz.values, response := vz.response)
          && |vz.values| <= |s.chans[name].vz.values|)
    && (Honest(s.conn.log) ==> Honest(t.conn.log))
  }

  /** Only the connection changes. */
  predicate Untouched(s: Sys, t: Sys) { t.chans == s.chans && t.conn.log == s.conn.log }

  lemma QuietOn(s: Sys, t: Sys, u: Sys)
    requires Quiet(s, t) && Quiet(t, u)
    ensures Quiet(s, u)
  {
    hide Honest;
  }

  lemma QuietConn(s: Sys, t: Sys)
    requires t.chans == s.chans && t.conn.log == s.conn.log
    ensures Quiet(s, t)
  {
  }

  lemma FromDns(s: Sys) returns (more: seq<Step>)
    requires s.conn.state == DNS && s.conn.pcb == Fresh
    ensures Run(s, more).conn.state == READY && Quiet(s, Run(s, more)) && Untouched(s, Run(s, more))
  {
    hide Quiet;
    var found, connected := Net(DnsFound(true, true)), Net(Connected(true));
    RunOne(s, found, [connected]);
    RunOne(Apply(s, found), connected, []);
    more := [found] + ([connected] + []);
    assert [connected] + [] == [connected];
    QuietConn(s, Run(s, more));
  }

  lemma FromTimeout(s: Sys, name: string) returns (more: seq<Step>)
    requires name in s.chans && s.conn.state in {INIT, CONNECTING, SENDING}
    ensures Run(s, more).conn.state == READY && Quiet(s, Run(s, more)) && Untouched(s, Run(s, more))
  {
    hide Check, Run, Quiet;
    var send := SendStep(name, Outcome(true, true, ConnectOutcome(true, InProgress), [], Sent, []));
    var s1 := Apply(s, send);
    BackFront(s, name);
    assert s1.chans == s.chans;
    QuietConn(s, s1);
    var rest := FromDns(s1);
    RunOne(s, send, rest);
    more := [send] + rest;
    QuietOn(s, s1, Run(s1, rest));
  }

  /** From every state any run can reach, some continuation makes the connection ready again: timeouts, a
      lost control block, an empty or unhandled reply never block the channels for good. */
  lemma NeverStuck(s: Sys, steps: seq<Step>, name: string) returns (more: seq<Step>)
    requires Start(s) && name in s.chans
    ensures var t := Run(s, steps); Run(t, more).conn.state == READY && Quiet(t, Run(t, more))
  {
    hide GoodLog, PhaseOf, ChanInv, Check, Quiet;
    var t := Run(s, steps);
    StartInv(s);
    RunKeepsInv(s, steps);
    RunShape(s, steps);
    match t.conn.state {
      case READY =>
        more := [];
        QuietConn(t, t);
      case DNS => more := FromDns(t);
      case REPLIED => more := FromReplied(t, name);
      case _ => more := FromTimeout(t, name);
    }
  }

  lemma FromReplied(s: Sys, name: string) returns (more: seq<Step>)
    requires s.conn.state == REPLIED && s.conn.channel in s.chans && name in s.chans
    ensures Run(s, more).conn.state == READY && Quiet(s, Run(s, more))
  {
    hide Run, Process, Removed, Quiet;
    var check := CheckStep(s.conn.channel);
    CheckQuiet(s, s.conn.channel);
    var s1 := Apply(s, check);
    if s.conn.data.Text? {
      RunOne(s, check, []);
      more := [check] + [];
      RunNone(s1);
    } else {
      var rest := FromTimeout(s1, name);
      RunOne(s, check, rest);
      more := [check] + rest;
      QuietOn(s, s1, Run(s1, rest));
    }
  }

  lemma CheckQuiet(s: Sys, name: string)
    requires name in s.chans
    ensures Quiet(s, Apply(s, CheckStep(name)))
  {
    hide DropsHead, Honest;
    var t := Apply(s, CheckStep(name));
    CheckHonest(s.conn.log, name, Front(s, name));
    assert forall x :: x in s.chans && x != name ==> t.chans[x] == s.chans[x];
  }

  lemma CheckHonest(log: seq<Entry>, name: string, w: World)
    requires w.conn.log == log
    ensures Honest(log) ==> Honest(Check(name, w).conn.log)
  {
    hide Removed, Process;
    var now := Check(name, w).conn.log;
    if now != log {
      assert Init(now) == log && Last(now).Handled?;
    }
  }

  lemma RunNone(s: Sys)
    ensures Run(s, []) == s
  {
  }

  /** A reply that comes while the request is being written is handled in the same call: the chunk of the
      values then pending is gone and the connection is ready for the next one. */
  lemma PromptReplyDelivers(name: string, duplicates: int, w: World, o: Outcome, payload: Option<Body>)
    requires w.conn.state == READY && w.conn.pcb == Open(false) && w.buffer != []
    requires o.before == [] && o.write == Sent && o.after == [Recv(Data(Text(200, payload)))]
    ensures var t := Sending(name, duplicates, w, o);
            var pending := PassAll(duplicates, FilterOf(w.vz), w.buffer).accepted;
            && t.vz.values == pending[|Chunk(pending)|..] && t.buffer == []
            && t.conn.state == READY && t.conn.pcb == Open(false)
  {
    hide PassAll, Payload;
    var w2 := Post(name, JsonTuples(name, duplicates, w), o);
    var e := Recv(Data(Text(200, payload)));
    assert OccurAll(w2.conn, [e]) == Occur(w2.conn, e);
  }

  // ------------------------------------------------------------------ two histories that lose readings

  /** A send that writes its request and, if there is a reply, gets it before it ends. */
  function Prompt(reply: Option<Reply>): Admitted {
    Outcome(false, false, ConnectOutcome(true, InProgress), [], Sent,
            if reply.Some? then [Recv(Data(reply.value))] else [])
  }

  lemma SendUnanswered(name: string, duplicates: int, w: World)
    requires w.conn.state == READY && w.buffer != []
    ensures var t := Sending(name, duplicates, w, Prompt(None));
            var f := PassAll(duplicates, FilterOf(w.vz), w.buffer);
            && t.buffer == [] && t.conn.channel == name && t.vz.values == f.accepted
            && t.conn.state == SENDING && t.conn.pcb == Open(true) && t.conn.data == w.conn.data
            && PhaseOf(t.conn.log).Waiting? && (f.accepted != [] ==> t.vz.outputData == Payload(f.accepted))
            && t.conn.log == w.conn.log + [Consumed(name, w.buffer), Posted(name, f.accepted, t.vz.outputData)]
  {
    hide PassAll, Payload, PhaseOf;
    var w2 := Post(name, JsonTuples(name, duplicates, w), Prompt(None));
    LogSnoc(w.conn.log + [Consumed(name, w.buffer)], Posted(name, w2.vz.values, w2.vz.outputData));
  }

  lemma SendAnswered(name: string, duplicates: int, w: World, reply: Reply)
    requires w.conn.state == READY && w.conn.pcb == Open(false) && w.buffer != [] && reply.Text?
    ensures var t := Sending(name, duplicates, w, Prompt(Some(reply)));
            var f := PassAll(duplicates, FilterOf(w.vz), w.buffer);
            var stored := if reply.payload.Some? then reply.payload else w.vz.response;
            var earned := Earned(f.accepted, reply.code, stored);
            && t.buffer == [] && t.conn.channel == name && t.vz.lastTimestamp == f.last
            && t.vz.values == f.accepted[|earned|..] && t.vz.response == stored
            && t.conn.state == READY && t.conn.pcb == Open(false) && t.conn.data == reply
            && (f.accepted != [] ==> t.vz.outputData == Payload(f.accepted))
            && t.conn.log == w.conn.log + [Consumed(name, w.buffer), Posted(name, f.accepted, t.vz.outputData),
                                           Answered(reply), Handled(name, reply, stored, earned)]
  {
    hide PassAll, Payload, DropsHead;
    var w2 := Post(name, JsonTuples(name, duplicates, w), Prompt(Some(reply)));
    var e := Recv(Data(reply));
    assert OccurAll(w2.conn, [e]) == Occur(w2.conn, e);
    var w3 := w2.(conn := Occur(w2.conn, e));
    assert Sending(name, duplicates, w, Prompt(Some(reply))) == Check(name, w3);
    assert Removed(Stored(w3.vz, reply), reply.code) ==
           Earned(w3.vz.values, reply.code, if reply.payload.Some? then reply.payload else w.vz.response);
  }

  /** The connection is made: two events from the start. */
  lemma OpenRun(s: Sys)
    requires Start(s)
    ensures var open := [Construct(ConnectOutcome(true, Resolved(true))), Net(Connected(true))];
            Run(s, open) == s.(conn := CLOSED_CONN.(state := READY, pcb := Open(false)))
  {
    var e0, e1 := Construct(ConnectOutcome(true, Resolved(true))), Net(Connected(true));
    RunTwo(s, e0, e1);
  }

  /** Readings are routed and sent. */
  lemma RouteAndSend(s: Sys, name: string, rs: seq<Reading>, reply: Option<Reply>)
    requires name in s.chans
    ensures var steps := [Route(name, rs), SendStep(name, Prompt(reply))];
            var ch := s.chans[name];
            var w := Sending(name, ch.duplicates, World(s.conn, ch.vz, ch.buffer.sent + rs), Prompt(reply));
            var t := Run(s, steps);
            && name in t.chans && Front(t, name) == w && t.conn == w.conn
            && t.chans[name].duplicates == ch.duplicates && t.chans[name].buffer.sent == w.buffer
  {
    hide Sending;
    var e0, e1 := Route(name, rs), SendStep(name, Prompt(reply));
    RunTwo(s, e0, e1);
  }

  /** Readings with increasing times all pass a filter without a duplicate window. */
  lemma PassInOrder(f: Filter, r: Reading, q: Reading)
    requires f.last < r.time < q.time
    ensures PassAll(0, f, [r]) == Filter(f.accepted + [r], r.time, f.lastSent)
    ensures PassAll(0, f, [r, q]) == Filter(f.accepted + [r, q], q.time, f.lastSent)
    ensures f.accepted == [] ==> f.accepted + [r] == [r] && f.accepted + [r, q] == [r, q]
    ensures |f.accepted| == 1 ==> f.accepted + [r] == [f.accepted[0], r]
  {
    assert Init([r]) == [] && Last([r]) == r;
    assert Init([r, q]) == [r] && Last([r, q]) == q;
    assert f.accepted + [r] + [q] == f.accepted + [r, q];
  }

  const OK := Text(200, None)

  /** One exchange: readings routed to a channel with an empty buffer, sent, and answered at once. */
  lemma AnsweredRun(s: Sys, name: string, rs: seq<Reading>, reply: Reply)
    requires name in s.chans && s.chans[name].buffer.sent == [] && rs != [] && reply.Text?
    requires s.conn.state == READY && s.conn.pcb == Open(false)
    ensures var t := Run(s, [Route(name, rs), SendStep(name, Prompt(Some(reply)))]);
            var ch := s.chans[name];
            var f := PassAll(ch.duplicates, FilterOf(ch.vz), rs);
            var stored := if reply.payload.Some? then reply.payload else ch.vz.response;
            var earned := Earned(f.accepted, reply.code, stored);
            && name in t.chans && t.chans[name].duplicates == ch.duplicates && t.chans[name].buffer.sent == []
            && t.chans[name].vz.values == f.accepted[|earned|..] && t.chans[name].vz.lastTimestamp == f.last
            && t.chans[name].vz.response == stored
            && t.conn.state == READY && t.conn.pcb == Open(false) && t.conn.data == reply
            && t.conn.log != [] && Last(t.conn.log) == Handled(name, reply, stored, earned)
  {
    hide Run, Sending, PassAll, DropsHead, Payload;
    var ch := s.chans[name];
    assert [] + rs == rs;
    RouteAndSend(s, name, rs, Some(reply));
    SendAnswered(name, ch.duplicates, World(s.conn, ch.vz, rs), reply);
  }

  lemma UnansweredRun(s: Sys, name: string, rs: seq<Reading>)
    requires name in s.chans && s.chans[name].buffer.sent == [] && rs != [] && s.conn.state == READY
    ensures var t := Run(s, [Route(name, rs), SendStep(name, Prompt(None))]);
            var ch := s.chans[name];
            && name in t.chans && t.chans[name].vz.values == PassAll(ch.duplicates, FilterOf(ch.vz), rs).accepted
            && t.conn.state == SENDING && t.conn.channel == name && t.conn.data == s.conn.data
            && PhaseOf(t.conn.log).Waiting?
  {
    hide Run, Sending, PassAll, PhaseOf, Payload;
    var ch := s.chans[name];
    assert [] + rs == rs;
    RouteAndSend(s, name, rs, None);
    SendUnanswered(name, ch.duplicates, World(s.conn, ch.vz, rs));
  }

  /** Why the rule about receive events is needed. After this run the second request is not answered; an
      event without data would make its channel take the reply to the first one for it and drop a reading
      that was never acknowledged. */
  lemma EmptyReceiveLosesReading(s: Sys, name: string, r: Reading, q: Reading) returns (steps: seq<Step>)
    requires Start(s) && name in s.chans && s.chans[name].duplicates == 0 && 0 < r.time < q.time
    ensures var t := Run(s, steps);
            && name in t.chans && t.chans[name].vz.values == [q]
            && t.conn.state == SENDING && PhaseOf(t.conn.log).Waiting?
            && Check(name, Front(t, name).(conn := OnRecv(t.conn, Empty))).vz.values == []
  {
    hide Run, PassAll, PhaseOf, DropsHead;
    var open := [Construct(ConnectOutcome(true, Resolved(true))), Net(Connected(true))];
    var first := [Route(name, [r]), SendStep(name, Prompt(Some(OK)))];
    var second := [Route(name, [q]), SendStep(name, Prompt(None))];
    OpenRun(s);
    var s1 := Run(s, open);
    AnsweredRun(s1, name, [r], OK);
    PassInOrder(FilterOf(VZ_START), r, q);
    var s2 := Run(s1, first);
    assert s2.chans[name].vz.values == [];
    UnansweredRun(s2, name, [q]);
    PassInOrder(FilterOf(s2.chans[name].vz), q, q.(time := q.time + 1));
    RunConcat(s1, first, second);
    RunConcat(s, open, first + second);
    steps := open + (first + second);
  }

  /** A unique-constraint violation whose message names the duplicate behind some other words. */
  const DUPLICATE_BODY := Document(Some(Exception(UNIQUE, "23000: " + DUPLICATE)))

  /** A stored payload that decides twice. The first reply reports a duplicate and drops r; the second one
      carries no payload at all, and drops q. */
  lemma StalePayloadDropsHead(s: Sys, name: string, r: Reading, q: Reading, p: Reading) returns (steps: seq<Step>)
    requires Start(s) && name in s.chans && s.chans[name].duplicates == 0 && 0 < r.time < q.time < p.time
    ensures var t := Run(s, steps);
            && name in t.chans && t.chans[name].vz.values == [p] && t.conn.log != []
            && Last(t.conn.log) == Handled(name, Text(500, None), Some(DUPLICATE_BODY), [q])
  {
    hide Run, PassAll, Earned, DropsHead, Apply, GoodLog;
    var open := [Construct(ConnectOutcome(true, Resolved(true))), Net(Connected(true))];
    var reported, bare := Text(409, Some(DUPLICATE_BODY)), Text(500, None);
    var first := [Route(name, [r, q]), SendStep(name, Prompt(Some(reported)))];
    var second := [Route(name, [p]), SendStep(name, Prompt(Some(bare)))];
    OpenRun(s);
    var s1 := Run(s, open);
    AnsweredRun(s1, name, [r, q], reported);
    PassInOrder(FilterOf(VZ_START), r, q);
    var s2 := Run(s1, first);
    HeadEarned(r, q, 409);
    assert s2.chans[name].vz.values == [q];
    AnsweredRun(s2, name, [p], bare);
    PassInOrder(FilterOf(s2.chans[name].vz), p, p.(time := p.time + 1));
    HeadEarned(q, p, 500);
    RunConcat(s1, first, second);
    RunConcat(s, open, first + second);
    steps := open + (first + second);
  }

  lemma HeadEarned(head: Reading, next: Reading, code: int)
    requires code != 200
    ensures Earned([head, next], code, Some(DUPLICATE_BODY)) == [head]
    ensures [head, next][1..] == [next]
  {
    DuplicateBodyDrops();
  }

  lemma DuplicateBodyDrops()
    ensures DropsHead(Some(DUPLICATE_BODY))
  {
    var e := Exception(UNIQUE, "23000: " + DUPLICATE);
    DropsHeadMeans(e);
    assert e.message[0] == '2' && DUPLICATE[0] == 'D';
  }

  /** Why a flush that fails for lack of memory must not leave the request in the queue. After this run the
      connection is ready and r is buffered; if the flush of its request fails that way, the connection is
      ready again while the request is still on its way. The next request then carries r and q, and the
      answer to the first one drops q as well, which the server has not acknowledged. */
  lemma QueuedRequestLosesReading(s: Sys, name: string, r: Reading, q: Reading) returns (steps: seq<Step>)
    requires Start(s) && name in s.chans && s.chans[name].duplicates == 0 && 0 < r.time < q.time
    ensures var t := Run(s, steps);
            && name in t.chans && t.conn.state == READY && t.conn.log == [] && t.chans[name].buffer.sent == [r]
            && var w1 := Sending(name, 0, Front(t, name), Prompt(None).(write := FlushFailed(true)));
               var w2 := Sending(name, 0, w1.(buffer := [q]), Prompt(None));
               var w3 := Check(name, w2.(conn := Occur(w2.conn, Recv(Data(OK)))));
               && w1.conn.state == READY && w1.conn.pcb == Open(true) && w1.vz.values == [r]
               && w2.vz.values == [r, q] && w3.vz.values == []
               && w2.conn.log == [Consumed(name, [r]), Posted(name, [r], Payload([r])),
                                  Consumed(name, [q]), Posted(name, [r, q], Payload([r, q]))]
  {
    hide Run, PassAll, PhaseOf, DropsHead, Payload, Sending;
    steps := RoutedReady(s, name, r);
    var t := Run(s, steps);
    PassInOrder(FilterOf(VZ_START), r, q);
    SendQueued(name, 0, Front(t, name));
    var w1 := Sending(name, 0, Front(t, name), Prompt(None).(write := FlushFailed(true)));
    PassInOrder(FilterOf(w1.vz), q, q.(time := q.time + 1));
    SendUnanswered(name, 0, w1.(buffer := [q]));
    var w2 := Sending(name, 0, w1.(buffer := [q]), Prompt(None));
    LateAnswer(name, w2);
    FourEntries(Consumed(name, [r]), Posted(name, [r], Payload([r])),
                Consumed(name, [q]), Posted(name, [r, q], Payload([r, q])));
  }

  /** A reading late enough to pass any filter in that state. */
  function LateReading(duplicates: int, last: int): Reading {
    var window := Window(duplicates);
    Buffer.Reading(last + (if window > 0 then window else 0) + 1, 0.0, false)
  }

  lemma LatePasses(duplicates: int, f: Filter)
    ensures var q := LateReading(duplicates, f.last);
            PassAll(duplicates, f, [q]).accepted == f.accepted + [q]
  {
    hide Window;
    var q := LateReading(duplicates, f.last);
    assert Init([q]) == [] && Last([q]) == q;
    PassNothing(duplicates, f);
  }

  /** The same from every ready state a run reaches, for every channel whose buffer holds a reading that
      passes its filter: if the flush fails that way, a later reading q and the answer to the queued request
      follow. That answer belongs to the request for A alone; it removes q as well exactly if A has fewer
      than 64 values. */
  lemma QueuedRequestAlwaysLoses(s: Sys, steps: seq<Step>, name: string)
    requires Start(s) && name in Run(s, steps).chans
    requires var t := Run(s, steps); var ch := t.chans[name];
             t.conn.state == READY && PassAll(ch.duplicates, FilterOf(ch.vz), ch.buffer.sent).accepted != []
             && ch.buffer.sent != []
    ensures var t := Run(s, steps); var ch := t.chans[name]; var d := ch.duplicates;
            var A := PassAll(d, FilterOf(ch.vz), ch.buffer.sent).accepted;
            var w1 := Sending(name, d, Front(t, name), Prompt(None).(write := FlushFailed(true)));
            var q := LateReading(d, w1.vz.lastTimestamp);
            var w2 := Sending(name, d, w1.(buffer := [q]), Prompt(None));
            var w3 := Check(name, w2.(conn := Occur(w2.conn, Recv(Data(OK)))));
            && w1.conn.state == READY && w1.conn.pcb == Open(true)
            && w2.conn.log == t.conn.log + [Consumed(name, ch.buffer.sent), Posted(name, A, Payload(A)),
                                            Consumed(name, [q]), Posted(name, A + [q], Payload(A + [q]))]
            && w3.vz.values == (A + [q])[|Chunk(A + [q])|..]
            && (q in Chunk(A + [q]) && q !in A <==> |A| < 64)
  {
    hide Run, PassAll, PhaseOf, DropsHead, Payload, Sending, GoodLog, ChanInv;
    var t := Run(s, steps);
    StartInv(s);
    RunKeepsInv(s, steps);
    var ch := t.chans[name];
    var d, f := ch.duplicates, FilterOf(ch.vz);
    SendQueued(name, d, Front(t, name));
    var w1 := Sending(name, d, Front(t, name), Prompt(None).(write := FlushFailed(true)));
    var A, q := w1.vz.values, LateReading(d, w1.vz.lastTimestamp);
    LatePasses(d, FilterOf(w1.vz));
    SendUnanswered(name, d, w1.(buffer := [q]));
    var w2 := Sending(name, d, w1.(buffer := [q]), Prompt(None));
    LateAnswer(name, w2);
    LogJoined(t.conn.log, Consumed(name, ch.buffer.sent), Posted(name, A, Payload(A)),
              Consumed(name, [q]), Posted(name, A + [q], Payload(A + [q])));
    PendingUpToLast(t, name);
    AcceptedUpToLast(d, f, ch.buffer.sent);
    LastInChunk(A, q);
  }

  /** Accepted readings are not later than the last accepted time. */
  lemma {:induction false} AcceptedUpToLast(duplicates: int, f: Filter, rs: seq<Reading>)
    requires forall x :: x in f.accepted ==> x.time <= f.last
    ensures var g := PassAll(duplicates, f, rs); forall x :: x in g.accepted ==> x.time <= g.last
  {
    if rs != [] {
      AcceptedUpToLast(duplicates, f, Init(rs));
    }
  }

  lemma PendingUpToLast(s: Sys, name: string)
    requires Inv(s) && name in s.chans
    ensures var vz := s.chans[name].vz; forall x :: x in vz.values ==> x.time <= vz.lastTimestamp
  {
    hide PassAll, GoodLog, PhaseOf, RetiredBy, ConsumedBy, PayloadOf, Carried;
    var ch := s.chans[name];
    AcceptedUpToLast(ch.duplicates, FILTER_START, ConsumedBy(s.conn.log, name));
    assert forall x :: x in ch.vz.values ==> x in RetiredBy(s.conn.log, name) + ch.vz.values;
  }

  lemma LastInChunk(A: seq<Reading>, q: Reading)
    requires q !in A
    ensures q in Chunk(A + [q]) <==> |A| < 64
  {
    if |A| < 64 {
      assert Chunk(A + [q])[|A|] == q;
    } else {
      assert Chunk(A + [q]) == A[..64];
    }
  }

  lemma LogJoined(log: seq<Entry>, a: Entry, b: Entry, c: Entry, d: Entry)
    ensures log + [a, b] + [c, d] == log + [a, b, c, d]
  {
  }

  lemma FourEntries(a: Entry, b: Entry, c: Entry, d: Entry)
    ensures [] + [a, b] + [c, d] == [a, b, c, d]
  {
  }

  /** A ready connection and one routed reading. */
  lemma RoutedReady(s: Sys, name: string, r: Reading) returns (steps: seq<Step>)
    requires Start(s) && name in s.chans
    ensures var t := Run(s, steps);
            && name in t.chans && t.chans[name].duplicates == s.chans[name].duplicates
            && t.chans[name].vz == VZ_START && t.chans[name].buffer.sent == [r]
            && t.conn == CLOSED_CONN.(state := READY, pcb := Open(false))
  {
    hide Run;
    var open := [Construct(ConnectOutcome(true, Resolved(true))), Net(Connected(true))];
    OpenRun(s);
    var s1 := Run(s, open);
    var route := Route(name, [r]);
    RunOne(s1, route, []);
    RunNone(Apply(s1, route));
    RunConcat(s, open, [route] + []);
    steps := open + ([route] + []);
    assert [] + [r] == [r];
  }

  lemma SendQueued(name: string, duplicates: int, w: World)
    requires w.conn.state == READY && w.conn.pcb.Open? && w.buffer != []
    ensures var t := Sending(name, duplicates, w, Prompt(None).(write := FlushFailed(true)));
            var f := PassAll(duplicates, FilterOf(w.vz), w.buffer);
            && t.conn.state == READY && t.conn.pcb == Open(true) && FilterOf(t.vz) == f
            && (f.accepted != [] ==> t.vz.outputData == Payload(f.accepted))
            && t.conn.log == w.conn.log + [Consumed(name, w.buffer), Posted(name, f.accepted, t.vz.outputData)]
  {
    hide PassAll, Payload;
  }

  /** The answer to an earlier request, while a later one is outstanding. */
  lemma LateAnswer(name: string, w: World)
    requires w.conn.state == SENDING && w.conn.pcb == Open(true) && w.conn.channel == name
    ensures Check(name, w.(conn := Occur(w.conn, Recv(Data(OK))))).vz.values == w.vz.values[|Chunk(w.vz.values)|..]
  {
    hide DropsHead;
  }

  // ------------------------------------------------------------------ why handling is one step

  /** A connection that is lost and then set ready has no control block to write to. */
  lemma SetReadyAfterLoss(c: Conn, e: Event)
    requires c.pcb.Open? && e in {Recv(Closed), Err}
    ensures Possible(c, e) && Occur(c, e).(state := READY).pcb == NoPcb
  {
  }

  /** In every state a run reaches with a reply waiting, a close or an error may come. If it came between the
      test for the reply and the setting of READY, the connection would be ready without a control block. */
  lemma InterruptedHandling(s: Sys, steps: seq<Step>, e: Event)
    requires Start(s) && Run(s, steps).conn.state == REPLIED && e in {Recv(Closed), Err}
    ensures var c := Run(s, steps).conn;
            Possible(c, e) && Occur(c, e).state == INIT && Occur(c, e).(state := READY).pcb == NoPcb
  {
    hide Run, GoodLog, PhaseOf, ChanInv;
    StartInv(s);
    RunKeepsInv(s, steps);
    SetReadyAfterLoss(Run(s, steps).conn, e);
  }

  /** The same between RETRY and READY, for every ready connection whose request finds no memory. */
  lemma InterruptedRetry(s: Sys, steps: seq<Step>, name: string, e: Event)
    requires Start(s) && name in Run(s, steps).chans && Run(s, steps).conn.state == READY && e in {Recv(Closed), Err}
    ensures var t := Run(s, steps); var vz := t.chans[name].vz;
            var c := Posting(t.conn, name, vz.values, vz.outputData, OutOfMemory);
            c.state == RETRY && Possible(c, e) && Occur(c, e).(state := READY).pcb == NoPcb
  {
    hide Run, GoodLog, PhaseOf, ChanInv;
    StartInv(s);
    RunKeepsInv(s, steps);
    var t := Run(s, steps);
    var vz := t.chans[name].vz;
    SetReadyAfterLoss(Posting(t.conn, name, vz.values, vz.outputData, OutOfMemory), e);
  }

  /** Such states are reached. */
  lemma RepliedIsReached(s: Sys, name: string, r: Reading) returns (steps: seq<Step>)
    requires Start(s) && name in s.chans
    ensures Run(s, steps).conn.state == REPLIED && Run(s, steps).conn.channel == name
  {
    hide Run, Sending, PassAll, PhaseOf, Payload;
    var routed := RoutedReady(s, name, r);
    var t := Run(s, routed);
    var send, reply := SendStep(name, Prompt(None)), Net(Recv(Data(OK)));
    SendUnanswered(name, t.chans[name].duplicates, Front(t, name));
    RunOne(t, send, [reply]);
    RunOne(Apply(t, send), reply, []);
    RunNone(Apply(Apply(t, send), reply));
    assert [reply] + [] == [reply];
    steps := routed + ([send] + [reply]);
    RunConcat(s, routed, [send] + [reply]);
  }

  // ------------------------------------------------------------------ up to a chunk can be delivered

  lemma HonestSnoc(log: seq<Entry>, e: Entry)
    requires Honest(log)
    requires e.Answered? && e.answer.Text? && e.answer.code == 200 && PhaseOf(log).Waiting? ==>
               ParseArray(PhaseOf(log).post.text).Some?
    ensures Honest(log + [e])
  {
    assert Init(log + [e]) == log && Last(log + [e]) == e;
  }

  /** A request of at most 64 values that is answered with 200 keeps the server honest. */
  lemma HonestExchange(log: seq<Entry>, name: string, taken: seq<Reading>, pending: seq<Reading>,
                       stored: Option<Body>, earned: seq<Reading>)
    requires Honest(log) && |pending| <= 64
    ensures Honest(log + [Consumed(name, taken), Posted(name, pending, Payload(pending)),
                          Answered(OK), Handled(name, OK, stored, earned)])
  {
    hide Honest, PhaseOf, Payload, ParseArray;
    var c, p, a, h := Consumed(name, taken), Posted(name, pending, Payload(pending)),
                      Answered(OK), Handled(name, OK, stored, earned);
    HonestSnoc(log, c);
    HonestSnoc(log + [c], p);
    LogSnoc(log + [c], p);
    PayloadParses(pending);
    HonestSnoc(log + [c] + [p], a);
    HonestSnoc(log + [c] + [p] + [a], h);
    assert log + [c] + [p] + [a] + [h] == log + [c, p, a, h];
  }

  /** A reading not later than the last accepted one does not pass. */
  lemma {:induction false} LastGrows(duplicates: int, f: Filter, rs: seq<Reading>)
    ensures PassAll(duplicates, f, rs).last >= f.last
  {
    if rs != [] {
      LastGrows(duplicates, f, Init(rs));
    }
  }

  lemma OldDoesNotPass(duplicates: int, f: Filter, rs: seq<Reading>, x: Reading)
    requires x.time <= f.last
    ensures PassAll(duplicates, f, rs + [x]) == PassAll(duplicates, f, rs)
  {
    LastGrows(duplicates, f, rs);
    assert Init(rs + [x]) == rs && Last(rs + [x]) == x;
  }

  /** The connection can be made ready without handling anything: a reply that waits is lost when the server
      closes the connection. */
  lemma ReadyUntouched(s: Sys, name: string) returns (more: seq<Step>)
    requires Inv(s) && name in s.chans && s.conn.state != RETRY
    ensures var t := Run(s, more); t.conn.state == READY && Untouched(s, t)
  {
    hide GoodLog, PhaseOf, ChanInv, Quiet, Run;
    match s.conn.state {
      case READY =>
        more := [];
        RunNone(s);
      case DNS => more := FromDns(s);
      case REPLIED =>
        var close := Net(Recv(Closed));
        var s1 := Apply(s, close);
        var rest := FromTimeout(s1, name);
        RunOne(s, close, rest);
        more := [close] + rest;
      case _ => more := FromTimeout(s, name);
    }
  }

  /** What an exchange answered with 200 does to the history of its channel. */
  lemma ExchangeRetires(log: seq<Entry>, name: string, c: Entry, p: Entry, earned: seq<Reading>, stored: Option<Body>)
    requires c.Consumed? && p.Posted?
    ensures var after := log + [c, p, Answered(OK), Handled(name, OK, stored, earned)];
            && RetiredBy(after, name) == RetiredBy(log, name) + earned
            && Drops(after, name) == Drops(log, name)
  {
    hide RetiredBy, Drops;
    var a, h := Answered(OK), Handled(name, OK, stored, earned);
    RetiredSnoc(log, c, name);
    RetiredSnoc(log + [c], p, name);
    RetiredSnoc(log + [c] + [p], a, name);
    RetiredSnoc(log + [c] + [p] + [a], h, name);
    assert log + [c] + [p] + [a] + [h] == log + [c, p, a, h];
  }

  lemma RetiredSnoc(log: seq<Entry>, e: Entry, name: string)
    ensures RetiredBy(log + [e], name) ==
            if e.Handled? && e.channel == name then RetiredBy(log, name) + e.removed else RetiredBy(log, name)
    ensures Drops(log + [e], name) == Drops(log, name) + if IsDrop(e, name) then 1 else 0
  {
    assert Init(log + [e]) == log && Last(log + [e]) == e;
  }

  /** The positive half: let A be a channel's pending values followed by what its filter lets through of the
      buffer. From every state a run reaches in which these are at most 64, some continuation has exactly
      them acknowledged, in order, by replies with status 200, and leaves nothing pending or buffered; no
      value is dropped on the way, and the server need answer 200 only to requests it can parse. */
  lemma CanDeliver(s: Sys, steps: seq<Step>, name: string) returns (more: seq<Step>)
    requires Start(s) && name in s.chans && name in Run(s, steps).chans
    requires var ch := Run(s, steps).chans[name];
             |PassAll(ch.duplicates, FilterOf(ch.vz), ch.buffer.sent).accepted| <= 64
    ensures var t, u := Run(s, steps), Run(Run(s, steps), more);
            var ch := t.chans[name]; var A := PassAll(ch.duplicates, FilterOf(ch.vz), ch.buffer.sent).accepted;
            && name in u.chans && u.chans[name].vz.values == [] && (A != [] ==> u.chans[name].buffer.sent == [])
            && RetiredBy(u.conn.log, name) == RetiredBy(t.conn.log, name) + A
            && Drops(u.conn.log, name) == Drops(t.conn.log, name)
            && (Honest(t.conn.log) ==> Honest(u.conn.log))
  {
    hide Run, PassAll, Honest, GoodLog, PhaseOf, ChanInv, RetiredBy, Drops;
    var t := Run(s, steps);
    StartInv(s);
    RunKeepsInv(s, steps);
    RunShape(s, steps);
    var ch := t.chans[name];
    if PassAll(ch.duplicates, FilterOf(ch.vz), ch.buffer.sent).accepted == [] {
      more := [];
      RunNone(t);
      if ch.vz.values != [] { SomethingPending(ch.duplicates, FilterOf(ch.vz), ch.buffer.sent); }
    } else {
      var ready := ReadyUntouched(t, name);
      RunKeepsInv(t, ready);
      var send := DeliverNow(Run(t, ready), name);
      more := ready + send;
      RunConcat(t, ready, send);
    }
  }

  lemma DeliverNow(s: Sys, name: string) returns (more: seq<Step>)
    requires name in s.chans && s.conn.state == READY && s.conn.pcb == Open(false)
    requires var ch := s.chans[name]; 0 < |PassAll(ch.duplicates, FilterOf(ch.vz), ch.buffer.sent).accepted| <= 64
    ensures var u, ch := Run(s, more), s.chans[name];
            var A := PassAll(ch.duplicates, FilterOf(ch.vz), ch.buffer.sent).accepted;
            && name in u.chans && u.chans[name].vz.values == [] && u.chans[name].buffer.sent == []
            && RetiredBy(u.conn.log, name) == RetiredBy(s.conn.log, name) + A
            && Drops(u.conn.log, name) == Drops(s.conn.log, name)
            && (Honest(s.conn.log) ==> Honest(u.conn.log))
  {
    hide Run, PassAll, Honest, Sending, Payload, DropsHead, RetiredBy, Drops;
    var ch := s.chans[name];
    var f := FilterOf(ch.vz);
    var x := Buffer.Reading(f.last, 0.0, false);
    var w := World(s.conn, ch.vz, ch.buffer.sent + [x]);
    OldDoesNotPass(ch.duplicates, f, ch.buffer.sent, x);
    RouteAndSend(s, name, [x], Some(OK));
    SendAnswered(name, ch.duplicates, w, OK);
    var A := PassAll(ch.duplicates, f, w.buffer).accepted;
    ExchangeRetires(s.conn.log, name, Consumed(name, w.buffer), Posted(name, A, Payload(A)), A, w.vz.response);
    if Honest(s.conn.log) {
      HonestExchange(s.conn.log, name, w.buffer, A, w.vz.response, A);
    }
    more := [Route(name, [x]), SendStep(name, Prompt(Some(OK)))];
  }

  lemma SomethingPending(duplicates: int, f: Filter, rs: seq<Reading>)
    requires f.accepted != []
    ensures PassAll(duplicates, f, rs).accepted != []
  {
    var g := f.(accepted := []);
    assert g.(accepted := f.accepted + g.accepted) == f;
    PassAllAfter(duplicates, f.accepted, g, rs);
  }
}
