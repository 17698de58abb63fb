/** The asynchronous connection shared by all channels of one server, src/api/LwipIF.cpp. */
module LwipIF {
  import opened Common
  import Buffer

  datatype Srv = INIT | DNS | CONNECTING | READY | SENDING | REPLIED | RETRY

  /** The TCP control block as the connection sees it. An open one knows whether the server still owes
      the answer to a request that was written to it. */
  datatype Pcb = NoPcb | Fresh | Opening | Open(owed: bool)

  datatype Token = LBracket | RBracket | Comma | Time(ms: int) | Value(v: real)

  datatype Exception = Exception(errType: string, message: string)

  /** A response payload: not JSON, or a JSON document with or without an exception. */
  datatype Body = Malformed | Document(exception: Option<Exception>)

  /** What one receive event leaves in the data buffer: an empty text, or a status code (0 without a
      status line) and the first line that is neither status nor header. */
  datatype Reply = NoText | Text(code: int, payload: Option<Body>)

  /** What happened on the connection, in order. */
  datatype Entry =
    | Posted(channel: string, pending: seq<Buffer.Reading>, text: seq<Token>)
    | Answered(answer: Reply)
    | Handled(channel: string, reply: Reply, payload: Option<Body>, removed: seq<Buffer.Reading>)
    | Consumed(channel: string, readings: seq<Buffer.Reading>)

  /** The connection and its history. */
  datatype Conn = Conn(state: Srv, pcb: Pcb, channel: string, data: Reply, log: seq<Entry>)

  const CLOSED_CONN := Conn(INIT, Fresh, "", NoText, [])

  // ------------------------------------------------------------------ callbacks

  datatype Pbuf = Closed | Empty | Data(reply: Reply)

  datatype Event =
    | DnsFound(found: bool, connectOk: bool)
    | Connected(ok: bool)
    | Poll
    | Err
    | Recv(p: Pbuf)

  /** When lwIP calls back. A control block that was replaced calls back no more; a connection is
      established once; a request gets at most one receive event, and that one carries data. */
  predicate Possible(c: Conn, e: Event) {
    match e
    case DnsFound(_, _) => c.state == DNS && c.pcb == Fresh
    case Connected(_) => c.pcb == Opening
    case Poll => c.pcb == Opening || c.pcb.Open?
    case Err => c.pcb == Opening || c.pcb.Open?
    case Recv(Closed) => c.pcb.Open?
    case Recv(Empty) => false
    case Recv(Data(_)) => c.pcb == Open(true)
  }

  /** What the stack itself changes before it calls back. */
  function PcbAt(pcb: Pcb, e: Event): Pcb {
    match e
    case Connected(ok) => if ok then Open(false) else Fresh
    case Recv(Data(_)) => Open(false)
    case _ => pcb
  }

  function LogAt(log: seq<Entry>, e: Event): seq<Entry> {
    if e.Recv? && e.p.Data? then log + [Answered(e.p.reply)] else log
  }

  function OnDnsFound(c: Conn, found: bool, connectOk: bool): Conn {
    if found && connectOk then c.(state := CONNECTING, pcb := Opening) else c.(state := INIT)
  }

  function OnConnected(c: Conn, ok: bool): Conn { c.(state := if ok then READY else INIT) }

  function OnPoll(c: Conn): Conn {
    if c.state == CONNECTING || c.state == SENDING then c.(state := INIT) else c
  }

  function OnErr(c: Conn): Conn { c.(state := INIT, pcb := NoPcb) }

  function OnRecv(c: Conn, p: Pbuf): Conn {
    match p
    case Closed => c.(state := INIT, pcb := NoPcb)
    case Empty => c.(state := REPLIED)
    case Data(reply) => c.(state := REPLIED, data := reply)
  }

  function Callback(c: Conn, e: Event): Conn {
    match e
    case DnsFound(found, connectOk) => OnDnsFound(c, found, connectOk)
    case Connected(ok) => OnConnected(c, ok)
    case Poll => OnPoll(c)
    case Err => OnErr(c)
    case Recv(p) => OnRecv(c, p)
  }

  /** An event, if it can happen. */
  function Occur(c: Conn, e: Event): Conn {
    if Possible(c, e) then Callback(c.(pcb := PcbAt(c.pcb, e), log := LogAt(c.log, e)), e) else c
  }

  function OccurAll(c: Conn, es: seq<Event>): Conn
    decreases |es|
  {
    if es == [] then c else OccurAll(Occur(c, es[0]), es[1..])
  }

  // ------------------------------------------------------------------ calls

  /** How name resolution starts: answered from the cache, under way, or failed. */
  datatype Dns = Resolved(connectOk: bool) | InProgress | Failed

  datatype ConnectOutcome = ConnectOutcome(pcbOk: bool, dns: Dns)

  /** connect(); without memory for a control block it throws and leaves the state alone. */
  function Connecting(c: Conn, o: ConnectOutcome): Conn {
    if c.pcb == NoPcb && !o.pcbOk then c
    else
      var c1 := c.(state := DNS, pcb := if c.pcb == NoPcb then Fresh else c.pcb);
      match o.dns
      case Resolved(connectOk) => OnDnsFound(c1, true, connectOk)
      case InProgress => c1
      case Failed => c1.(state := INIT)
  }

  function Reconnecting(c: Conn, o: ConnectOutcome): Conn { Connecting(c.(pcb := NoPcb), o) }

  /** How writing the request ends: written and flushed; not written, for lack of memory or for another
      reason; or written, and flushing it failed. In the last case it stays queued and goes out later. */
  datatype Write = Sent | OutOfMemory | WriteFailed | FlushFailed(memory: bool)

  function Posting(c: Conn, ch: string, pending: seq<Buffer.Reading>, text: seq<Token>, w: Write): Conn {
    if c.state != READY then c
    else
      var c1 := c.(channel := ch);
      match w
      case Sent => c1.(state := SENDING, pcb := Open(true), log := c.log + [Posted(ch, pending, text)])
      case OutOfMemory => c1.(state := RETRY)
      case WriteFailed => c1.(state := INIT)
      case FlushFailed(memory) =>
        c1.(state := if memory then RETRY else INIT, pcb := Open(true), log := c.log + [Posted(ch, pending, text)])
  }

  // ------------------------------------------------------------------ the class

  class LwipIF {
    var state: Srv
    var pcb: Pcb
    var channel: string
    var data: Reply
    ghost var log: seq<Entry>

    ghost function View(): Conn
      reads this
    {
      Conn(state, pcb, channel, data, log)
    }

    /** A connection that is ready, must retry or has a reply has an open control block, so postRequest
        has something to write to. */
    ghost predicate Valid()
      reads this
    {
      state in {READY, RETRY, REPLIED} ==> pcb.Open?
    }

    constructor ()
      ensures View() == CLOSED_CONN && Valid()
    {
      state, pcb, channel, data, log := INIT, Fresh, "", NoText, [];
    }

    method SetState(s: Srv)
      modifies this`state
      ensures View() == old(View()).(state := s)
    {
      state := s;
    }

    method DeletePCB()
      modifies this`pcb
      ensures View() == old(View()).(pcb := NoPcb)
    {
      if pcb != NoPcb { pcb := NoPcb; }
    }

    method InitPCB(o: ConnectOutcome) returns (ok: bool)
      modifies this`pcb
      ensures ok == (old(pcb) != NoPcb || o.pcbOk)
      ensures View() == old(View()).(pcb := if old(pcb) == NoPcb && ok then Fresh else old(pcb))
    {
      ok := true;
      if pcb == NoPcb {
        if !o.pcbOk { return false; }
        pcb := Fresh;
      }
    }

    method Connect(o: ConnectOutcome)
      requires Valid()
      modifies this`state, this`pcb
      ensures View() == Connecting(old(View()), o) && Valid()
    {
      var ok := InitPCB(o);
      if !ok { return; }
      state := DNS;
      match o.dns {
        case Resolved(connectOk) => DnsFound(true, connectOk);
        case InProgress =>
        case Failed => state := INIT;
      }
    }

    method Reconnect(o: ConnectOutcome)
      requires state in {INIT, CONNECTING, SENDING}
      modifies this`state, this`pcb
      ensures View() == Reconnecting(old(View()), o) && Valid()
    {
      DeletePCB();
      Connect(o);
    }

    method PostRequest(ch: string, text: seq<Token>, w: Write, ghost pending: seq<Buffer.Reading>) returns (s: Srv)
      requires Valid()
      modifies this
      ensures View() == Posting(old(View()), ch, pending, text, w)
      ensures s == state && Valid()
    {
      if state != READY {
        return state;
      }
      channel := ch;
      var err := SendData(w);
      if err.Sent? || err.FlushFailed? { log := log + [Posted(ch, pending, text)]; }
      match err {
        case OutOfMemory => state := RETRY;
        case Sent =>
        case WriteFailed => state := INIT;
        case FlushFailed(memory) => state := if memory then RETRY else INIT;
      }
      s := state;
    }

    method SendData(w: Write) returns (err: Write)
      requires pcb.Open?
      modifies this`state, this`pcb
      ensures err == w
      ensures View() == if w.Sent? || w.FlushFailed? then old(View()).(state := SENDING, pcb := Open(true))
                        else old(View())
    {
      err := w;
      if err.Sent? || err.FlushFailed? {
        state := SENDING;
        pcb := Open(true);
      }
    }

    method DnsFound(found: bool, connectOk: bool)
      modifies this`state, this`pcb
      ensures View() == OnDnsFound(old(View()), found, connectOk) && Valid()
    {
      if found {
        state := CONNECTING;
        if connectOk {
          pcb := Opening;
        } else {
          state := INIT;
        }
        return;
      }
      state := INIT;
    }

    /** One callback of the network stack, if it can happen now. */
    method Dispatch(e: Event)
      requires Valid()
      modifies this
      ensures View() == Occur(old(View()), e) && Valid()
    {
      if !CanHappen(e) { return; }
      log := LogAt(log, e);
      pcb := PcbAt(pcb, e);
      match e {
        case DnsFound(found, connectOk) =>
          DnsFound(found, connectOk);
        case Connected(ok) =>
          state := if ok then READY else INIT;
        case Poll =>
          if state == CONNECTING || state == SENDING {
            state := INIT;
          }
        case Err =>
          state := INIT;
          pcb := NoPcb;
        case Recv(p) =>
          if p.Closed? {
            DeletePCB();
            state := INIT;
          } else {
            if p.Data? { data := p.reply; }
            state := REPLIED;
          }
      }
    }

    predicate CanHappen(e: Event)
      reads this
      ensures CanHappen(e) == Possible(View(), e)
    {
      match e
      case DnsFound(_, _) => state == DNS && pcb == Fresh
      case Connected(_) => pcb == Opening
      case Poll => pcb == Opening || pcb.Open?
      case Err => pcb == Opening || pcb.Open?
      case Recv(Closed) => pcb.Open?
      case Recv(Empty) => false
      case Recv(Data(_)) => pcb == Open(true)
    }

    method DispatchAll(es: seq<Event>)
      requires Valid()
      modifies this
      ensures View() == OccurAll(old(View()), es) && Valid()
    {
      var i: nat := 0;
      while i < |es|
        invariant i <= |es| && Valid()
        invariant OccurAll(View(), es[i..]) == OccurAll(old(View()), es)
      {
        Dispatch(es[i]);
        i := i + 1;
      }
    }
  }
}
