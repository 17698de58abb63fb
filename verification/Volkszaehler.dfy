/** Delivery to the middleware: the duplicate filter, the payload, sending and replies;
    src/api/Volkszaehler.cpp as built for the Pico. */
module Volkszaehler {
  import opened Common
  import opened Lwip = LwipIF
  import Buffer

  type Reading = Buffer.Reading

  const MAX_CHUNK_SIZE: nat := 64

  // ------------------------------------------------------------------ the filter

  /** Readings accepted so far, the last accepted time, and the reading that duplicates are compared with. */
  datatype Filter = Filter(accepted: seq<Reading>, last: int, lastSent: Option<Reading>)

  const FILTER_START := Filter([], 0, None)

  /** The duplicate window in milliseconds, a product of ints. */
  function Window(duplicates: int): int { Int32(duplicates * 1000) }

  function Pass(duplicates: int, f: Filter, r: Reading): Filter {
    if f.last < r.time then
      if duplicates == 0 then Filter(f.accepted + [r], r.time, f.lastSent)
      else if f.lastSent.None? || r.time >= f.last + Window(duplicates) || r.value != f.lastSent.value.value then
        Filter(f.accepted + [r], r.time, Some(r))
      else f
    else f
  }

  function PassAll(duplicates: int, f: Filter, rs: seq<Reading>): Filter {
    if rs == [] then f else Pass(duplicates, PassAll(duplicates, f, Init(rs)), Last(rs))
  }

  /** The reference: whether a reading follows an accepted list depends on that list alone. */
  predicate Follows(duplicates: int, accepted: seq<Reading>, r: Reading) {
    if accepted == [] then r.time > 0
    else
      && Last(accepted).time < r.time
      && (|| duplicates == 0
          || r.value != Last(accepted).value
          || r.time >= Last(accepted).time + Window(duplicates))
  }

  function Accepted(duplicates: int, rs: seq<Reading>): seq<Reading> {
    if rs == [] then []
    else
      var before := Accepted(duplicates, Init(rs));
      if Follows(duplicates, before, Last(rs)) then before + [Last(rs)] else before
  }

  /** The state the filter keeps is the last accepted reading. */
  ghost predicate Keeps(duplicates: int, f: Filter) {
    && f.last == (if f.accepted == [] then 0 else Last(f.accepted).time)
    && (duplicates != 0 ==> f.lastSent == if f.accepted == [] then None else Some(Last(f.accepted)))
  }

  lemma PassKeeps(duplicates: int, f: Filter, r: Reading)
    requires Keeps(duplicates, f)
    ensures Keeps(duplicates, Pass(duplicates, f, r))
    ensures Pass(duplicates, f, r).accepted ==
            if Follows(duplicates, f.accepted, r) then f.accepted + [r] else f.accepted
  {
    hide Window;
  }

  /** The code's filter computes the reference list. */
  lemma {:induction false} FilterIsReference(duplicates: int, rs: seq<Reading>)
    ensures var f := PassAll(duplicates, FILTER_START, rs);
            f.accepted == Accepted(duplicates, rs) && Keeps(duplicates, f)
  {
    hide Pass, Keeps, Follows;
    if rs == [] {
      StartKeeps(duplicates);
    } else {
      FilterIsReference(duplicates, Init(rs));
      PassKeeps(duplicates, PassAll(duplicates, FILTER_START, Init(rs)), Last(rs));
    }
  }

  lemma StartKeeps(duplicates: int)
    ensures Keeps(duplicates, FILTER_START)
  {
  }

  lemma {:induction false} PassAllConcat(duplicates: int, f: Filter, a: seq<Reading>, b: seq<Reading>)
    ensures PassAll(duplicates, f, a + b) == PassAll(duplicates, PassAll(duplicates, f, a), b)
  {
    hide Pass;
    if b == [] {
      assert a + b == a;
    } else {
      assert Init(a + b) == a + Init(b) && Last(a + b) == Last(b);
      PassAllConcat(duplicates, f, a, Init(b));
    }
  }

  function PassBatches(duplicates: int, f: Filter, batches: seq<seq<Reading>>): Filter
    decreases |batches|
  {
    if batches == [] then f else PassBatches(duplicates, PassAll(duplicates, f, batches[0]), batches[1..])
  }

  /** The filter does not depend on batching. */
  lemma {:induction false} BatchingDoesNotMatter(duplicates: int, f: Filter, batches: seq<seq<Reading>>)
    ensures PassBatches(duplicates, f, batches) == PassAll(duplicates, f, Flatten(batches))
    decreases |batches|
  {
    hide PassAll;
    if batches == [] {
      PassNothing(duplicates, f);
    } else {
      PassAllConcat(duplicates, f, batches[0], Flatten(batches[1..]));
      BatchingDoesNotMatter(duplicates, PassAll(duplicates, f, batches[0]), batches[1..]);
    }
  }

  lemma PassNothing(duplicates: int, f: Filter)
    ensures PassAll(duplicates, f, []) == f
  {
  }

  /** What was accepted before only stands in front. */
  lemma {:induction false} PassAllAfter(duplicates: int, before: seq<Reading>, f: Filter, rs: seq<Reading>)
    ensures PassAll(duplicates, f.(accepted := before + f.accepted), rs) ==
            var g := PassAll(duplicates, f, rs); g.(accepted := before + g.accepted)
  {
    if rs != [] {
      PassAllAfter(duplicates, before, f, Init(rs));
      var g := PassAll(duplicates, f, Init(rs));
      assert before + (g.accepted + [Last(rs)]) == (before + g.accepted) + [Last(rs)];
    }
  }

  ghost predicate Ascending(a: seq<Reading>) {
    && (forall i, j :: 0 <= i < j < |a| ==> a[i].time < a[j].time)
    && (forall i :: 0 <= i < |a| ==> 0 < a[i].time)
  }

  /** Accepted times strictly increase. */
  lemma {:induction false} AcceptedIncrease(duplicates: int, rs: seq<Reading>)
    ensures Ascending(Accepted(duplicates, rs))
  {
    hide Window, Accepted;
    if rs == [] {
      AcceptNothing(duplicates);
    } else {
      AcceptedIncrease(duplicates, Init(rs));
      AcceptNext(duplicates, rs);
    }
  }

  lemma AcceptNothing(duplicates: int)
    ensures Accepted(duplicates, []) == []
  {
  }

  lemma AcceptNext(duplicates: int, rs: seq<Reading>)
    requires rs != []
    ensures var before := Accepted(duplicates, Init(rs));
            Accepted(duplicates, rs) == if Follows(duplicates, before, Last(rs)) then before + [Last(rs)] else before
  {
  }

  /** A reading later than everything accepted before it is left out only as a duplicate: its value is
      that of the last accepted reading and it lies within the window after it. */
  lemma {:induction false} OnlyDuplicatesDropped(duplicates: int, rs: seq<Reading>, i: nat)
    requires i < |rs|
    ensures var before := Accepted(duplicates, rs[..i]); var r := rs[i];
            && (Accepted(duplicates, rs[..i + 1]) == before + [r] || Accepted(duplicates, rs[..i + 1]) == before)
            && (Accepted(duplicates, rs[..i + 1]) == before <==>
                  if before == [] then r.time <= 0
                  else
                    || r.time <= Last(before).time
                    || (&& duplicates != 0 && r.value == Last(before).value
                        && r.time < Last(before).time + Window(duplicates)))
  {
    hide Window;
    assert Init(rs[..i + 1]) == rs[..i];
  }

  /** The window is the configured number of seconds exactly when the product fits an int. */
  lemma WindowInRange(duplicates: int)
    requires 0 <= duplicates < TWO31
    ensures Window(duplicates) == 1000 * duplicates <==> duplicates <= 2147483
  {
  }

  // ------------------------------------------------------------------ the payload

  function Chunk(pending: seq<Reading>): seq<Reading> {
    if |pending| <= MAX_CHUNK_SIZE then pending else pending[..MAX_CHUNK_SIZE]
  }

  function Tuple(r: Reading): seq<Token> { [LBracket, Time(r.time), Comma, Value(r.value), RBracket] }

  /** The first n tuples, each but the very last pending one followed by a comma. */
  function Tuples(pending: seq<Reading>, n: nat): seq<Token>
    requires n <= |pending|
  {
    if n == 0 then []
    else Tuples(pending, n - 1) + Tuple(pending[n - 1]) + if n < |pending| then [Comma] else []
  }

  function Payload(pending: seq<Reading>): seq<Token> {
    [LBracket] + Tuples(pending, |Chunk(pending)|) + [RBracket]
  }

  datatype Pair = Pair(time: int, value: real)

  function PairOf(r: Reading): Pair { Pair(r.time, r.value) }

  function Pairs(rs: seq<Reading>): seq<Pair> {
    if rs == [] then [] else [PairOf(rs[0])] + Pairs(rs[1..])
  }

  /** JSON: the elements of an array of pairs up to its closing bracket, which must end the text. */
  function ParseElements(t: seq<Token>): Option<seq<Pair>>
    decreases |t|
  {
    if |t| >= 5 && t[0] == LBracket && t[1].Time? && t[2] == Comma && t[3].Value? && t[4] == RBracket then
      var p := Pair(t[1].ms, t[3].v);
      if t[5..] == [RBracket] then Some([p])
      else if |t| > 5 && t[5] == Comma then
        match ParseElements(t[6..])
        case None => None
        case Some(ps) => Some([p] + ps)
      else None
    else None
  }

  function ParseArray(t: seq<Token>): Option<seq<Pair>> {
    if t == [LBracket, RBracket] then Some([])
    else if t != [] && t[0] == LBracket then ParseElements(t[1..])
    else None
  }

  /** Tuples from k on, to the closing bracket. */
  function Tail(pending: seq<Reading>, k: nat, n: nat): seq<Token>
    requires k <= n <= |pending|
    decreases n - k
  {
    if k == n then [RBracket]
    else (Tuple(pending[k]) + if k + 1 < |pending| then [Comma] else []) + Tail(pending, k + 1, n)
  }

  lemma {:induction false} TuplesTail(pending: seq<Reading>, k: nat, n: nat)
    requires k <= n <= |pending|
    ensures Tuples(pending, n) + [RBracket] == Tuples(pending, k) + Tail(pending, k, n)
    decreases n - k
  {
    hide Tuple;
    if k < n {
      TuplesTail(pending, k + 1, n);
      var t := Tuple(pending[k]) + if k + 1 < |pending| then [Comma] else [];
      var tail := Tail(pending, k + 1, n);
      assert Tuples(pending, k + 1) == Tuples(pending, k) + t;
      assert (Tuples(pending, k) + t) + tail == Tuples(pending, k) + (t + tail);
    }
  }

  /** Reading one tuple off the front. */
  lemma ParseOne(r: Reading, rest: seq<Token>)
    ensures ParseElements(Tuple(r) + [RBracket]) == Some([PairOf(r)])
    ensures ParseElements(Tuple(r) + [Comma] + rest) ==
            match ParseElements(rest) case None => None case Some(ps) => Some([PairOf(r)] + ps)
  {
    var t := Tuple(r) + [Comma] + rest;
    assert t[6..] == rest && t[5] == Comma;
    assert t[5..] != [RBracket] by { assert t[5..][0] == Comma; }
    assert (Tuple(r) + [RBracket])[5..] == [RBracket];
  }

  lemma {:induction false} ParseTail(pending: seq<Reading>, k: nat, n: nat)
    requires k < n <= |pending|
    ensures ParseElements(Tail(pending, k, n)) ==
            if n == |pending| then Some(Pairs(pending[k..n])) else None
    decreases n - k
  {
    hide ParseElements, Tuple;
    var r := pending[k];
    assert pending[k..n][0] == r && pending[k..n][1..] == pending[k + 1..n];
    if k + 1 == |pending| {
      assert Tail(pending, k, n) == Tuple(r) + [RBracket];
      ParseOne(r, []);
      assert Pairs(pending[k..n]) == [PairOf(r)];
    } else {
      assert Tail(pending, k, n) == Tuple(r) + [Comma] + Tail(pending, k + 1, n);
      ParseOne(r, Tail(pending, k + 1, n));
      if k + 1 == n {
        ParseBracket();
      } else {
        ParseTail(pending, k + 1, n);
      }
    }
  }

  lemma ParseBracket()
    ensures ParseElements([RBracket]) == None
  {
  }

  /** The text is the JSON array of exactly the chunk if at most 64 values are pending; with more it ends
      in a comma before the bracket and is no JSON at all. */
  lemma PayloadParses(pending: seq<Reading>)
    ensures ParseArray(Payload(pending)) ==
            if |pending| <= MAX_CHUNK_SIZE then Some(Pairs(pending)) else None
  {
    hide ParseElements, Tail, Tuples;
    var n := |Chunk(pending)|;
    PayloadTail(pending, n);
    if n > 0 {
      ParseTail(pending, 0, n);
      TailStarts(pending, n);
      assert pending[0..n] == Chunk(pending);
    } else {
      NoTail(pending);
    }
  }

  lemma PayloadTail(pending: seq<Reading>, n: nat)
    requires n <= |pending|
    ensures [LBracket] + Tuples(pending, n) + [RBracket] == [LBracket] + Tail(pending, 0, n)
  {
    TuplesTail(pending, 0, n);
    assert [LBracket] + Tuples(pending, n) + [RBracket] == [LBracket] + (Tuples(pending, n) + [RBracket]);
    assert [] + Tail(pending, 0, n) == Tail(pending, 0, n);
  }

  lemma TailStarts(pending: seq<Reading>, n: nat)
    requires 0 < n <= |pending|
    ensures var t := [LBracket] + Tail(pending, 0, n);
            t != [LBracket, RBracket] && ParseArray(t) == ParseElements(Tail(pending, 0, n))
  {
    hide ParseElements;
    var tail := Tail(pending, 0, n);
    assert tail[0] == LBracket;
    var t := [LBracket] + tail;
    assert t[1] == LBracket && t[1..] == tail;
  }

  lemma NoTail(pending: seq<Reading>)
    ensures Tail(pending, 0, 0) == [RBracket] && ParseArray([LBracket] + [RBracket]) == Some([])
  {
  }

  // ------------------------------------------------------------------ errors from the middleware

  const UNIQUE := "UniqueConstraintViolationException"
  const DUPLICATE := "Duplicate entry"

  /** std::string::find: the first position, or none (npos). */
  function Find(text: string, pattern: string): (r: Option<nat>)
    ensures r.Some? ==> r.value + |pattern| <= |text| && text[r.value..r.value + |pattern|] == pattern
    ensures r.Some? ==> forall i :: 0 <= i < r.value ==> !(pattern <= text[i..])
    ensures r.None? ==> forall i :: 0 <= i <= |text| ==> !(pattern <= text[i..])
    decreases |text|
  {
    if pattern <= text then Some(0)
    else if text == [] then None
    else
      var r := Find(text[1..], pattern);
      assert forall i :: 0 < i <= |text| ==> text[i..] == text[1..][i - 1..];
      assert text[0..] == text;
      if r.None? then None else Some(r.value + 1)
  }

  /** Whether an error removes the first pending value: find is used as a truth value. */
  function DropsHead(payload: Option<Body>): bool {
    && payload.Some? && payload.value.Document? && payload.value.exception.Some?
    && var e := payload.value.exception.value;
       e.errType == UNIQUE && Find(e.message, DUPLICATE) != Some(0)
  }

  /** What the condition means: the message does not start with the words. */
  lemma DropsHeadMeans(e: Exception)
    ensures DropsHead(Some(Document(Some(e)))) <==>
            e.errType == "UniqueConstraintViolationException" && !("Duplicate entry" <= e.message)
    ensures !DropsHead(None) && !DropsHead(Some(Malformed)) && !DropsHead(Some(Document(None)))
  {
    var r := Find(e.message, DUPLICATE);
    if DUPLICATE <= e.message {
      assert e.message[0..] == e.message;
    }
    if r == Some(0) {
      assert e.message[0..|DUPLICATE|] == e.message[..|DUPLICATE|];
    }
  }

  /** It agrees with "the message names a duplicate" exactly when the words occur, but not at the start,
      or when the exception is another one. */
  lemma DropsHeadAsMeant(e: Exception)
    ensures (DropsHead(Some(Document(Some(e)))) <==> e.errType == UNIQUE && Find(e.message, DUPLICATE).Some?)
            <==> (e.errType != UNIQUE || (Find(e.message, DUPLICATE).Some? && !(DUPLICATE <= e.message)))
  {
    DropsHeadMeans(e);
    if DUPLICATE <= e.message { assert e.message[0..] == e.message; }
  }

  /** A violation that names no duplicate drops the head; one that starts with the words does not. */
  lemma DropsHeadMisjudged()
    ensures DropsHead(Some(Document(Some(Exception("UniqueConstraintViolationException", "foo")))))
    ensures !DropsHead(Some(Document(Some(Exception("UniqueConstraintViolationException", "Duplicate entry")))))
    ensures Find("foo", "Duplicate entry") == None && Find("Duplicate entry", "Duplicate entry").Some?
  {
    DropsHeadMeans(Exception(UNIQUE, "foo"));
    DropsHeadMeans(Exception(UNIQUE, DUPLICATE));
    assert DUPLICATE[0..] == DUPLICATE;
  }

  // ------------------------------------------------------------------ the operations on values

  /** The fields of one channel's instance. */
  datatype Vz = Vz(values: seq<Reading>, lastTimestamp: int, lastSent: Option<Reading>,
                   outputData: seq<Token>, response: Option<Body>)

  const VZ_START := Vz([], 0, None, [], None)

  /** One channel calling: the shared connection, its own instance, its buffer. */
  datatype World = World(conn: Conn, vz: Vz, buffer: seq<Reading>)

  function FilterOf(vz: Vz): Filter { Filter(vz.values, vz.lastTimestamp, vz.lastSent) }

  /** api_json_tuples: the buffer goes through the filter, and the text is rebuilt unless nothing is pending. */
  function JsonTuples(name: string, duplicates: int, w: World): World {
    var f := PassAll(duplicates, FilterOf(w.vz), w.buffer);
    World(w.conn.(log := w.conn.log + [Consumed(name, w.buffer)]),
          Vz(f.accepted, f.last, f.lastSent,
             if f.accepted == [] then w.vz.outputData else Payload(f.accepted), w.vz.response),
          [])
  }

  /** What a processed reply removes from the front of the pending values. */
  function Removed(vz: Vz, code: int): seq<Reading> {
    if code == 200 then Chunk(vz.values)
    else if DropsHead(vz.response) && vz.values != [] then [vz.values[0]]
    else []
  }

  function Process(vz: Vz, code: int): Vz {
    vz.(values := vz.values[|Removed(vz, code)|..])
  }

  /** Text without a payload leaves the stored one in place. */
  function Stored(vz: Vz, reply: Reply): Vz
    requires reply.Text?
  {
    vz.(response := if reply.payload.Some? then reply.payload else vz.response)
  }

  function Check(name: string, w: World): World {
    if w.conn.state != REPLIED || name != w.conn.channel then w
    else if w.conn.data.NoText? then w.(conn := w.conn.(state := INIT))
    else
      var vz := Stored(w.vz, w.conn.data);
      w.(vz := Process(vz, w.conn.data.code),
         conn := w.conn.(state := READY,
                         log := w.conn.log + [Handled(name, w.conn.data, vz.response, Removed(vz, w.conn.data.code))]))
  }

  /** What the surroundings do during one send: timeouts that passed, how a connect starts, callbacks before
      and after the request is written, and how writing ends. */
  datatype Outcome = Outcome(connectTimedOut: bool, sendTimedOut: bool, connect: ConnectOutcome,
                             before: seq<Event>, write: Write, after: seq<Event>)

  function LocalState(c: Conn, o: Outcome): Srv {
    if (c.state == CONNECTING && o.connectTimedOut) || (c.state == SENDING && o.sendTimedOut) then INIT else c.state
  }

  function Post(name: string, w: World, o: Outcome): World {
    w.(conn := Posting(OccurAll(w.conn, o.before), name, w.vz.values, w.vz.outputData, o.write))
  }

  function Sending(name: string, duplicates: int, w: World, o: Outcome): World {
    var state := LocalState(w.conn, o);
    if state == CONNECTING || state == SENDING then w
    else if state == INIT then w.(conn := Reconnecting(w.conn, o.connect))
    else if state == READY then
      if w.buffer == [] then w
      else
        var w2 := Post(name, JsonTuples(name, duplicates, w), o);
        if w2.conn.state == RETRY then w2.(conn := w2.conn.(state := READY))
        else
          var w3 := w2.(conn := OccurAll(w2.conn, o.after));
          if w3.conn.state in {INIT, SENDING, REPLIED} then Check(name, w3)
          else w3.(conn := w3.conn.(state := INIT))
    else Check(name, w)
  }

  // ------------------------------------------------------------------ the class

  class Volkszaehler {
    const api: LwipIF
    const name: string
    const duplicates: int
    var values: seq<Reading>
    var lastTimestamp: int
    var lastReadingSent: Option<Reading>
    var outputData: seq<Token>
    var response: Option<Body>

    ghost function View(): Vz
      reads this
    {
      Vz(values, lastTimestamp, lastReadingSent, outputData, response)
    }

    ghost function Sees(buf: Buffer.Buffer): World
      reads this, api, buf
    {
      World(api.View(), View(), buf.sent)
    }

    constructor (api: LwipIF, name: string, duplicates: int)
      ensures this.api == api && this.name == name && this.duplicates == duplicates && View() == VZ_START
    {
      this.api, this.name, this.duplicates := api, name, duplicates;
      values, lastTimestamp, lastReadingSent, outputData, response := [], 0, None, [], None;
    }

    method ApiJsonTuples(buf: Buffer.Buffer)
      modifies this, buf`sent, api`log
      ensures Sees(buf) == JsonTuples(name, duplicates, old(Sees(buf)))
    {
      ghost var was := buf.sent;
      api.log := api.log + [Consumed(name, was)];
      CopyValues(buf);
      if values != [] {
        PrintValues();
      }
    }

    /** All values are copied to the local queue. */
    method CopyValues(buf: Buffer.Buffer)
      modifies this, buf`sent
      ensures FilterOf(View()) == PassAll(duplicates, old(FilterOf(View())), old(buf.sent))
      ensures outputData == old(outputData) && response == old(response) && buf.sent == []
    {
      hide Window, PassAll;
      ghost var was, f := buf.sent, FilterOf(View());
      var duplicatesMs := Window(duplicates);
      var i: nat := 0;
      PassNothing(duplicates, f);
      assert was[..|was|] == was;
      while i < |buf.sent|
        invariant i <= |buf.sent| == |was|
        invariant forall j :: 0 <= j < i ==> buf.sent[j].deleted
        invariant forall j :: i <= j < |was| ==> buf.sent[j] == was[j]
        invariant FilterOf(View()) == PassAll(duplicates, f, was[..i])
        invariant outputData == old(outputData) && response == old(response)
      {
        var r := buf.sent[i];
        PassNext(duplicates, f, was, i);
        if lastTimestamp < r.time {
          if duplicates == 0 {
            values := values + [r];
            lastTimestamp := r.time;
          } else if lastReadingSent.None? {
            lastReadingSent := Some(r);
            values := values + [r];
            lastTimestamp := r.time;
          } else if r.time >= lastTimestamp + duplicatesMs || r.value != lastReadingSent.value.value {
            values := values + [r];
            lastTimestamp := r.time;
            lastReadingSent := Some(r);
          }
        }
        buf.sent := buf.sent[i := r.(deleted := true)];
        i := i + 1;
      }
      Buffer.NoneLive(buf.sent);
      buf.Clean(true);
    }

    method PrintValues()
      requires values != []
      modifies this`outputData
      ensures outputData == Payload(values)
    {
      hide Tuple;
      outputData := [LBracket];
      var nrTuples: nat := 0;
      while nrTuples < |values| && nrTuples < MAX_CHUNK_SIZE
        invariant nrTuples <= |Chunk(values)|
        invariant outputData == [LBracket] + Tuples(values, nrTuples)
      {
        ghost var t := Tuple(values[nrTuples]);
        ghost var before := Tuples(values, nrTuples);
        outputData := outputData + Tuple(values[nrTuples]);
        nrTuples := nrTuples + 1;
        if nrTuples < |values| {
          outputData := outputData + [Comma];
          assert [LBracket] + before + t + [Comma] == [LBracket] + (before + t + [Comma]);
        } else {
          assert [LBracket] + before + t == [LBracket] + (before + t + []);
        }
      }
      outputData := outputData + [RBracket];
    }

    method ApiParseException()
      modifies this`values
      ensures values == if DropsHead(response) && old(values) != [] then old(values)[1..] else old(values)
    {
      if response.Some? && response.value.Document? && response.value.exception.Some? {
        var e := response.value.exception.value;
        if e.errType == UNIQUE {
          if Find(e.message, DUPLICATE) != Some(0) {
            if |values| > 0 {
              values := values[1..];
            }
          }
        }
      }
    }

    method ProcessResponse(code: int)
      modifies this`values
      ensures View() == Process(old(View()), code)
    {
      if code == 200 {
        if |values| <= MAX_CHUNK_SIZE {
          values := [];
        } else {
          var i: nat := 0;
          while i < MAX_CHUNK_SIZE
            invariant i <= MAX_CHUNK_SIZE
            invariant values == old(values)[i..]
          {
            values := values[1..];
            i := i + 1;
          }
        }
      } else {
        ApiParseException();
      }
    }

    method CheckResponse(buf: Buffer.Buffer)
      requires api.Valid()
      modifies this, api
      ensures Sees(buf) == Check(name, old(Sees(buf))) && api.Valid()
    {
      if api.state != REPLIED { return; }
      if name != api.channel { return; }
      var resp := api.data;
      if resp.NoText? {
        api.SetState(INIT);
        return;
      }
      if resp.payload.Some? { response := resp.payload; }
      api.log := api.log + [Handled(name, resp, response, Removed(View(), resp.code))];
      ProcessResponse(resp.code);
      api.SetState(READY);
    }

    method Send(buf: Buffer.Buffer, o: Outcome)
      requires api.Valid()
      modifies this, api, buf`sent
      ensures Sees(buf) == Sending(name, duplicates, old(Sees(buf)), o) && api.Valid()
    {
      hide JsonTuples, Occur, OccurAll, Posting, Check;
      var state := api.state;
      if state == CONNECTING && o.connectTimedOut { state := INIT; }
      if state == SENDING && o.sendTimedOut { state := INIT; }
      if state == CONNECTING || state == SENDING { return; }
      if state == INIT {
        api.Reconnect(o.connect);
        return;
      }
      if state == READY {
        if |buf.sent| == 0 { return; }
        ApiJsonTuples(buf);
        api.DispatchAll(o.before);
        state := api.PostRequest(name, outputData, o.write, values);
        if state == RETRY {
          api.SetState(READY);
          return;
        }
        api.DispatchAll(o.after);
        state := api.state;
        if state != INIT && state != SENDING && state != REPLIED {
          api.SetState(INIT);
          return;
        }
      }
      CheckResponse(buf);
    }

    method IsBusy() returns (busy: bool)
      ensures busy <==> api.state != READY && api.state != INIT
    {
      busy := api.state != READY && api.state != INIT;
    }
  }

  lemma PassNext(duplicates: int, f: Filter, rs: seq<Reading>, i: nat)
    requires i < |rs|
    ensures PassAll(duplicates, f, rs[..i + 1]) == Pass(duplicates, PassAll(duplicates, f, rs[..i]), rs[i])
  {
    assert Init(rs[..i + 1]) == rs[..i];
  }
}
