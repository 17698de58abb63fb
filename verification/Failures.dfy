/** What failures and waiting do to the shared connection: src/api/LwipIF.cpp under src/api/Volkszaehler.cpp. */
module Failures {
  import opened Common
  import opened LwipIF
  import opened Volkszaehler
  import opened Delivery

  // ------------------------------------------------------------------ a connection that is cut off

  /** No request can be written and no answer can come: the control block is not open. */
  predicate Cut(c: Conn) {
    c.state in {INIT, DNS, CONNECTING, SENDING} && !c.pcb.Open?
  }

  /** Steps during which no connection is established. */
  predicate NeverConnected(steps: seq<Step>) {
    forall i :: 0 <= i < |steps| ==> steps[i] != Net(Connected(true))
  }

  /** Nothing was posted, answered, handled or taken over, and nothing pending or buffered got lost. */
  ghost predicate Still(s: Sys, t: Sys) {
    && t.conn.log == s.conn.log
    && forall name :: name in s.chans ==> name in t.chans && t.chans[name].vz == s.chans[name].vz
  }

  lemma CutStep(s: Sys, step: Step)
    requires Cut(s.conn) && step != Net(Connected(true))
    ensures Cut(Apply(s, step).conn) && Still(s, Apply(s, step))
  {
    hide PassAll, Payload, Posting, OccurAll, Buffer.Aggregated;
  }

  lemma {:induction false} CutStays(s: Sys, steps: seq<Step>)
    requires Cut(s.conn) && NeverConnected(steps)
    ensures Cut(Run(s, steps).conn) && Still(s, Run(s, steps))
    decreases |steps|
  {
    hide Apply, Cut;
    if steps != [] {
      CutStep(s, steps[0]);
      CutStays(Apply(s, steps[0]), steps[1..]);
    }
  }

  /** A connection that the next send gives up: it has failed, or the time of the call is over. */
  predicate GivenUp(c: Conn, o: Outcome) {
    c.state == INIT || (c.state == CONNECTING && o.connectTimedOut) || (c.state == SENDING && o.sendTimedOut)
  }

  lemma GivenUpCut(s: Sys, name: string, o: Admitted)
    requires name in s.chans && GivenUp(s.conn, o)
    ensures var t := Apply(s, SendStep(name, o)); Cut(t.conn) && Still(s, t)
  {
    hide Check, Post, JsonTuples, OccurAll;
  }

  /** A send that finds the connection failed, or waiting for too long, by whichever channel, replaces the
      control block; from then on nothing is posted, answered or handled until a connection is
      established, whatever else happens. In particular the answer to a request that took too long is
      never handled. */
  lemma GivenUpCutsOff(s: Sys, name: string, o: Admitted, rest: seq<Step>)
    requires name in s.chans && GivenUp(s.conn, o) && NeverConnected(rest)
    ensures var t := Run(s, [SendStep(name, o)] + rest); Cut(t.conn) && Still(s, t)
  {
    hide Cut, Run, Apply;
    GivenUpCut(s, name, o);
    RunOne(s, SendStep(name, o), rest);
    CutStays(Apply(s, SendStep(name, o)), rest);
  }

  /** Without memory for a new control block the state stays as it was, so that the next send tries again. */
  lemma NoControlBlock(s: Sys, name: string, o: Admitted)
    requires name in s.chans && GivenUp(s.conn, o) && !o.connect.pcbOk
    ensures Apply(s, SendStep(name, o)).conn == s.conn.(pcb := NoPcb)
  {
    hide Check, Post, JsonTuples;
  }

  // ------------------------------------------------------------------ what counts as a failure

  predicate NoAnswer(es: seq<Event>) {
    forall i :: 0 <= i < |es| ==> !(es[i].Recv? && es[i].p.Data?)
  }

  predicate ConnectFails(o: ConnectOutcome) { o.pcbOk && (o.dns == Failed || o.dns == Resolved(false)) }

  /** Poll timeouts, failed connects and name resolutions, errors, closed connections, empty replies, and
      requests whose write or flush fails for another reason than memory. */
  predicate Fails(s: Sys, step: Step) {
    match step
    case Net(Poll) => s.conn.state in {CONNECTING, SENDING} && (s.conn.pcb == Opening || s.conn.pcb.Open?)
    case Net(Connected(ok)) => !ok && s.conn.pcb == Opening
    case Net(DnsFound(found, connectOk)) => !(found && connectOk) && s.conn.state == DNS
    case Net(Err) => s.conn.pcb == Opening || s.conn.pcb.Open?
    case Net(Recv(Closed)) => s.conn.pcb.Open?
    case CheckStep(name) => EmptyReply(s, name)
    case SendStep(name, o) =>
      || EmptyReply(s, name)
      || (name in s.chans && GivenUp(s.conn, o) && ConnectFails(o.connect))
      || (&& name in s.chans && s.conn.state == READY && s.chans[name].buffer.sent != []
          && (o.write == WriteFailed || o.write == FlushFailed(false)) && NoAnswer(o.after))
    case _ => false
  }

  predicate EmptyReply(s: Sys, name: string) {
    name in s.chans && s.conn.state == REPLIED && s.conn.channel == name && s.conn.data == NoText
  }

  /** A ready connection stays ready or fails before the request is written. */
  lemma {:induction false} BeforeWrite(c: Conn, es: seq<Event>)
    requires (c.state == READY && c.pcb == Open(false)) || (c.state == INIT && c.pcb == NoPcb)
    ensures var d := OccurAll(c, es);
            (d.state == READY && d.pcb == Open(false)) || (d.state == INIT && d.pcb == NoPcb)
    decreases |es|
  {
    if es != [] { BeforeWrite(Occur(c, es[0]), es[1..]); }
  }

  lemma {:induction false} AfterFailure(c: Conn, es: seq<Event>)
    requires c.state == INIT && (c.pcb.Open? || c.pcb == NoPcb) && NoAnswer(es)
    ensures OccurAll(c, es).state == INIT
    decreases |es|
  {
    if es != [] { AfterFailure(Occur(c, es[0]), es[1..]); }
  }

  lemma WriteFails(name: string, duplicates: int, w: World, o: Outcome)
    requires w.conn.state == READY && w.conn.pcb == Open(false) && w.buffer != []
    requires (o.write == WriteFailed || o.write == FlushFailed(false)) && NoAnswer(o.after)
    ensures Sending(name, duplicates, w, o).conn.state == INIT
  {
    hide PassAll, Payload, OccurAll;
    var w1 := JsonTuples(name, duplicates, w);
    BeforeWrite(w1.conn, o.before);
    AfterFailure(Post(name, w1, o).conn, o.after);
  }

  lemma FailsToInit(s: Sys, step: Step)
    requires Inv(s) && Fails(s, step)
    ensures Apply(s, step).conn.state == INIT && Apply(s, step).chans.Keys == s.chans.Keys
  {
    hide Sending, GoodLog, PhaseOf, ChanInv, InSync;
    if step.SendStep? {
      var w := Front(s, step.name);
      if s.conn.state == READY {
        WriteFails(step.name, s.chans[step.name].duplicates, w, step.outcome);
      } else {
        SendFails(step.name, s.chans[step.name].duplicates, w, step.outcome);
      }
    }
  }

  lemma SendFails(name: string, duplicates: int, w: World, o: Outcome)
    requires w.conn.state == DNS ==> w.conn.pcb == Fresh
    requires (w.conn.state == REPLIED && w.conn.channel == name && w.conn.data == NoText)
             || (GivenUp(w.conn, o) && ConnectFails(o.connect))
    ensures Sending(name, duplicates, w, o).conn.state == INIT
  {
    hide JsonTuples, Post;
  }

  /** After every run and every failure the connection is down, and the next send of any channel cuts it off:
      no request follows until a connection is established. */
  lemma FailureCutsOff(s: Sys, steps: seq<Step>, fail: Step, name: string, o: Admitted, rest: seq<Step>)
    requires Start(s) && name in s.chans && Fails(Run(s, steps), fail) && NeverConnected(rest)
    ensures var t := Apply(Run(s, steps), fail);
            && t.conn.state == INIT
            && var u := Run(t, [SendStep(name, o)] + rest); Cut(u.conn) && Still(t, u)
  {
    hide Fails, Run, Apply, Cut, Inv;
    StartInv(s);
    RunKeepsInv(s, steps);
    RunShape(s, steps);
    FailsToInit(Run(s, steps), fail);
    GivenUpCutsOff(Apply(Run(s, steps), fail), name, o, rest);
  }

  /** After an error or a close there is no control block left that could call back. */
  lemma LostIsGone(s: Sys, e: Event)
    requires e == Err || e == Recv(Closed)
    requires s.conn.pcb == Opening || s.conn.pcb.Open?
    requires e == Err || s.conn.pcb.Open?
    ensures forall f :: !Possible(Apply(s, Net(e)).conn, f)
  {
  }

  // ------------------------------------------------------------------ lack of memory

  /** Without memory for the request the connection stays as it is: ready, on the same control block, with
      nothing posted and the values of the buffer added to the pending ones. */
  lemma MemoryKeepsConnection(s: Sys, name: string, o: Admitted)
    requires name in s.chans && s.conn.state == READY && s.chans[name].buffer.sent != []
    requires o.before == [] && o.write == OutOfMemory
    ensures var t, ch := Apply(s, SendStep(name, o)), s.chans[name];
            && t.conn == s.conn.(channel := name, log := s.conn.log + [Consumed(name, ch.buffer.sent)])
            && FilterOf(t.chans[name].vz) == PassAll(ch.duplicates, FilterOf(ch.vz), ch.buffer.sent)
            && t.chans[name].buffer.sent == []
  {
    hide PassAll, Payload;
  }

  // ------------------------------------------------------------------ what is waited for

  /** Steps of the channels alone, with no call that finds its time over. */
  predicate Patient(steps: seq<Step>) {
    forall i :: 0 <= i < |steps| ==>
      !steps[i].Net? && (steps[i].SendStep? ==> !steps[i].outcome.connectTimedOut && !steps[i].outcome.sendTimedOut)
  }

  lemma PatientStep(s: Sys, step: Step)
    requires s.conn.state in {DNS, CONNECTING, SENDING} && Patient([step])
    ensures Apply(s, step).conn == s.conn && Still(s, Apply(s, step))
  {
    hide Post, JsonTuples, Reconnecting, Buffer.Aggregated;
    assert !([step][0]).Net?;
  }

  /** While a name is being resolved, a connection established, or an answer awaited, nothing the channels do
      disturbs that. */
  lemma {:induction false} WaitingIsKept(s: Sys, steps: seq<Step>)
    requires s.conn.state in {DNS, CONNECTING, SENDING} && Patient(steps)
    ensures Run(s, steps).conn == s.conn && Still(s, Run(s, steps))
    decreases |steps|
  {
    hide Apply;
    if steps != [] {
      assert Patient([steps[0]]);
      PatientStep(s, steps[0]);
      WaitingIsKept(Apply(s, steps[0]), steps[1..]);
    }
  }

  /** A connection that is down comes back: a send of any channel starts name resolution, and if that and the
      connect succeed the connection is ready, whatever the channels do meanwhile. */
  lemma AttemptSucceeds(s: Sys, name: string, o: Admitted, resolving: seq<Step>, connecting: seq<Step>)
    requires name in s.chans && s.conn.state == INIT && o.connect == ConnectOutcome(true, InProgress)
    requires Patient(resolving) && Patient(connecting)
    ensures var t := Run(s, [SendStep(name, o)] + resolving);
            var u := Run(Apply(t, Net(DnsFound(true, true))), connecting);
            && t.conn.state == DNS && u.conn.state == CONNECTING
            && Apply(u, Net(Connected(true))).conn == s.conn.(state := READY, pcb := Open(false))
  {
    hide Run, Apply;
    RunOne(s, SendStep(name, o), resolving);
    SendResolves(s, name, o);
    var t := Apply(s, SendStep(name, o));
    WaitingIsKept(t, resolving);
    var t1 := Run(t, resolving);
    NetFound(t1);
    WaitingIsKept(Apply(t1, Net(DnsFound(true, true))), connecting);
    NetConnected(Run(Apply(t1, Net(DnsFound(true, true))), connecting));
  }

  lemma SendResolves(s: Sys, name: string, o: Admitted)
    requires name in s.chans && s.conn.state == INIT && o.connect == ConnectOutcome(true, InProgress)
    ensures Apply(s, SendStep(name, o)).conn == s.conn.(state := DNS, pcb := Fresh)
  {
    hide Check, Post, JsonTuples;
  }

  lemma NetFound(s: Sys)
    requires s.conn.state == DNS && s.conn.pcb == Fresh
    ensures Apply(s, Net(DnsFound(true, true))).conn == s.conn.(state := CONNECTING, pcb := Opening)
  {
  }

  lemma NetConnected(s: Sys)
    requires s.conn.pcb == Opening
    ensures Apply(s, Net(Connected(true))).conn == s.conn.(state := READY, pcb := Open(false))
  {
  }

  /** A request is answered: from every ready state with a buffer, whatever the channels do before and after
      the answer comes, the channel that made the request handles it, and the connection is ready again. */
  lemma AnswerIsHandled(s: Sys, name: string, reply: Reply, waiting: seq<Step>)
    requires name in s.chans && s.conn.state == READY && s.chans[name].buffer.sent != [] && reply.Text?
    requires Patient(waiting)
    ensures var t := Run(s, [SendStep(name, Prompt(None))] + waiting);
            var u := Apply(t, Net(Recv(Data(reply))));
            && t.conn.state == SENDING && t.conn.channel == name
            && u.conn.state == REPLIED && name in u.chans && u.chans[name].vz == t.chans[name].vz
            && var v, vz := Apply(u, CheckStep(name)), t.chans[name].vz;
               var stored := if reply.payload.Some? then reply.payload else vz.response;
               var removed := Earned(vz.values, reply.code, stored);
               && v.conn.state == READY && v.conn.pcb == Open(false)
               && v.conn.log == t.conn.log + [Answered(reply)] + [Handled(name, reply, stored, removed)]
               && v.chans[name].vz.values == vz.values[|removed|..]
  {
    hide Run, Sending, PhaseOf, PassAll, Payload, DropsHead;
    var send := SendStep(name, Prompt(None));
    SendUnanswered(name, s.chans[name].duplicates, Front(s, name));
    RunOne(s, send, waiting);
    WaitingIsKept(Apply(s, send), waiting);
  }

  // ------------------------------------------------------------------ nothing to send

  /** A ready connection and an empty buffer: a send does nothing. */
  lemma NothingToSend(s: Sys, name: string, o: Admitted)
    requires name in s.chans && s.conn.state == READY && s.chans[name].buffer.sent == []
    ensures Apply(s, SendStep(name, o)) == s
  {
    BackFront(s, name);
  }

  /** If nothing is pending when the buffer has been taken over, the text of the request before is posted
      once more; whatever the answer, nothing is removed. */
  lemma OldTextIsPosted(s: Sys, name: string, reply: Reply)
    requires name in s.chans && s.conn.state == READY && s.conn.pcb == Open(false) && s.chans[name].buffer.sent != []
    requires var ch := s.chans[name]; PassAll(ch.duplicates, FilterOf(ch.vz), ch.buffer.sent).accepted == []
    requires reply.Text?
    ensures var t, ch := Apply(s, SendStep(name, Prompt(Some(reply)))), s.chans[name];
            && t.conn.state == READY && t.chans[name].vz.values == []
            && exists stored :: t.conn.log == s.conn.log + [Consumed(name, ch.buffer.sent),
                 Posted(name, [], ch.vz.outputData), Answered(reply), Handled(name, reply, stored, [])]
  {
    hide PassAll, Payload, DropsHead;
    var ch := s.chans[name];
    var w := Front(s, name);
    var o := Prompt(Some(reply));
    var w2 := Post(name, JsonTuples(name, ch.duplicates, w), o);
    assert OccurAll(w2.conn, [Recv(Data(reply))]) == Occur(w2.conn, Recv(Data(reply)));
    var stored := if reply.payload.Some? then reply.payload else ch.vz.response;
    assert s.conn.log + [Consumed(name, ch.buffer.sent)] + [Posted(name, [], ch.vz.outputData)] + [Answered(reply)] +
           [Handled(name, reply, stored, [])] ==
           s.conn.log + [Consumed(name, ch.buffer.sent), Posted(name, [], ch.vz.outputData), Answered(reply),
                         Handled(name, reply, stored, [])];
  }
}
