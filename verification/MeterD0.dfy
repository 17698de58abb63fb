/** The byte machine that reads a D0 telegram, src/protocols/MeterD0.cpp. */
module MeterD0 {
  import opened Common
  import O = Obis

  const VENDOR_LEN := 3
  const IDENTIFICATION_LEN := 16
  const OBIS_LEN := 16
  const VALUE_LEN := 32
  const UNIT_LEN := 16
  const D0_BUFFER_LENGTH := 1024

  const NUL: char := '\0'
  const STX: char := '\U{02}'
  const ACK_CHAR: char := '\U{06}'
  const CR: char := '\r'
  const LF: char := '\n'

  datatype Context =
    | START | VENDOR | BAUDRATE | IDENTIFICATION | ACK | START_LINE
    | OBIS_CODE | VALUE | UNIT | END_LINE | END

  /** A reading: the identifier and the text handed to strtod. */
  datatype Tuple = Tuple(id: O.Id, text: string)

  /** Variables of the read loop. `cur` holds the bytes stored in the field being read, so |cur| is
      the byte index; `code` and `value` are the fields of the line once they are terminated. */
  datatype Parser = Parser(context: Context, cur: string, code: string, value: string,
                           baudrate: char, reactionMs: int, ack: string, sent: seq<string>,
                           tuples: seq<Tuple>)

  datatype Outcome = Next(p: Parser) | Done(p: Parser) | Failed(p: Parser)

  /** Text of a char buffer as the C library sees it: up to the first NUL. */
  function CString(s: string): (r: string)
    ensures r <= s
    ensures forall i :: 0 <= i < |r| ==> r[i] != NUL
    ensures |r| < |s| ==> s[|r|] == NUL
  {
    if s == "" || s[0] == NUL then "" else [s[0]] + CString(s[1..])
  }

  predicate IsAlpha(c: char) { 'a' <= c <= 'z' || 'A' <= c <= 'Z' }
  predicate IsLower(c: char) { 'a' <= c <= 'z' }
  predicate IsPrint(c: char) { ' ' <= c <= '~' }

  /** First characters of the codes that are reported; L and P are not supported. */
  predicate Reported(c: char) { O.IsDigit(c) || c == 'C' || c == 'F' }

  /** The reading a line stands for, if it is reported at all. */
  function LineTuple(code: string, value: string): Option<Tuple> {
    var c, v := CString(code), CString(value);
    if c == "" || v == "" || !Reported(c[0]) then None
    else
      match O.Resolve(c)
      case Some(id) => Some(Tuple(id, v))
      case None => None
  }

  /** The closing bracket: store the line if a slot is free. */
  function EndLine(p: Parser, max: nat): Parser {
    var t := LineTuple(p.code, p.value);
    var tuples := if |p.tuples| < max && t.Some? then p.tuples + [t.value] else p.tuples;
    p.(context := OBIS_CODE, cur := "", tuples := tuples)
  }

  /** Mode C acknowledgement for a baud rate character; unknown characters keep 300 baud. */
  function AckFor(baudrate: char): string {
    [ACK_CHAR, '0', if '1' <= baudrate <= '6' then baudrate else '0', '0', CR, LF]
  }

  function SendAck(p: Parser, auto: bool): Parser {
    if auto || p.ack != "" then
      var ack := if p.ack == "" then AckFor(p.baudrate) else p.ack;
      p.(ack := ack, sent := p.sent + [ack])
    else p
  }

  function Append(s: string, c: char, limit: nat): string {
    if |s| < limit then s + [c] else s
  }

  /** The two tests made on every byte before the switch. */
  function Retarget(p: Parser, byte: char): Parser {
    if byte == '/' && p.cur == "" then p.(context := VENDOR)
    else if (byte == '?' || byte == '!') && p.context != END then p.(context := END, cur := "")
    else p
  }

  function StepVendor(p: Parser, byte: char): Outcome {
    if byte == CR || byte == LF || byte == '/' then Next(p.(cur := "", tuples := []))
    else if !IsAlpha(byte) then Failed(p)
    else
      var cur := p.cur + [byte];
      if |cur| < VENDOR_LEN then Next(p.(cur := cur))
      else Next(p.(cur := "", context := BAUDRATE, reactionMs := if IsLower(byte) then 20 else 200))
  }

  function StepEnd(p: Parser, byte: char): Outcome {
    if byte == '!' then
      if p.cur == "" then Done(p) else Next(p.(context := VENDOR, cur := ""))
    else if byte == '?' then Next(p.(cur := "?"))
    else if byte == STX then Next(p.(context := OBIS_CODE, cur := ""))
    else if byte == '/' then Next(p.(context := VENDOR, cur := ""))
    else Next(p.(cur := ""))
  }

  function Step(p: Parser, byte: char, auto: bool, max: nat): Outcome {
    Dispatch(Retarget(p, byte), byte, auto, max)
  }

  function Dispatch(p: Parser, byte: char, auto: bool, max: nat): Outcome {
    match p.context
    case START => Next(p)
    case VENDOR => StepVendor(p, byte)
    case BAUDRATE => Next(p.(baudrate := byte, cur := "", context := IDENTIFICATION))
    case IDENTIFICATION =>
      if byte == CR || byte == LF then Next(p.(cur := "", context := ACK))
      else if IsPrint(byte) then Next(p.(cur := Append(p.cur, byte, IDENTIFICATION_LEN)))
      else Next(p)
    case ACK => Next(SendAck(p, auto).(context := OBIS_CODE))
    case START_LINE => Next(p)
    case OBIS_CODE =>
      if byte == LF || byte == CR || byte == STX then Next(p)
      else if byte == '(' then Next(p.(code := p.cur, cur := "", context := VALUE))
      else Next(p.(cur := Append(p.cur, byte, OBIS_LEN)))
    case VALUE =>
      if byte == ')' then Next(EndLine(p.(value := p.cur), max))
      else if byte == '*' then Next(p.(value := p.cur, cur := "", context := UNIT))
      else Next(p.(cur := Append(p.cur, byte, VALUE_LEN)))
    case UNIT =>
      if byte == ')' then Next(EndLine(p, max))
      else Next(p.(cur := Append(p.cur, byte, UNIT_LEN)))
    case END_LINE => Failed(p)
    case END => StepEnd(p, byte)
  }

  /** What reading a stream leads to, and the bytes it leaves unread. Next means that the stream
      ran dry, which ends the read by its timeout. */
  datatype Run = Run(outcome: Outcome, rest: string)

  function RunFrom(p: Parser, input: string, auto: bool, max: nat): Run
    decreases |input|
  {
    if input == "" then Run(Next(p), "")
    else
      var o := Step(p, input[0], auto, max);
      if o.Next? then RunFrom(o.p, input[1..], auto, max) else Run(o, input[1..])
  }

  function Start(ack: string, reactionMs: int): Parser {
    Parser(START, "", "", "", NUL, reactionMs, ack, [], [])
  }

  /** Rest of the stream after waiting once for the '!' that ends a running message. The wait gives up
      after more than D0_BUFFER_LENGTH other bytes, and stays pending when the stream runs dry. */
  function SkipToSync(input: string, skipped: nat): (r: (string, bool))
    ensures |r.0| <= |input|
    decreases |input|
  {
    if input == "" then ("", true)
    else if input[0] == '!' || skipped + 1 > D0_BUFFER_LENGTH then (input[1..], false)
    else SkipToSync(input[1..], skipped + 1)
  }

  /** One call of read: optional wait for the sync mark, then the byte machine. */
  function ReadSpec(wait: bool, ack: string, reactionMs: int, auto: bool, input: string, max: nat): Run {
    RunFrom(Start(ack, reactionMs), if wait then SkipToSync(input, 0).0 else input, auto, max)
  }

  // ------------------------------------------------------------------ what every stream keeps

  /** Index bound of each context; the buffers have one more byte for the terminator. */
  function Limit(c: Context): nat {
    match c
    case VENDOR => VENDOR_LEN - 1
    case IDENTIFICATION => IDENTIFICATION_LEN
    case OBIS_CODE => OBIS_LEN
    case VALUE => VALUE_LEN
    case UNIT => UNIT_LEN
    case END => 1
    case _ => 0
  }

  ghost predicate Inv(p: Parser, max: nat) {
    && p.context != END_LINE && p.context != START_LINE
    && |p.cur| <= Limit(p.context)
    && (p.context == END && p.cur != "" ==> p.cur == "?")
    && |p.code| <= OBIS_LEN && |p.value| <= VALUE_LEN
    && |p.tuples| <= max
  }

  lemma StepKeepsInv(p: Parser, byte: char, auto: bool, max: nat)
    requires Inv(p, max)
    ensures Inv(Step(p, byte, auto, max).p, max)
  {
    hide LineTuple, AckFor;
    var q := Retarget(p, byte);
    assert |q.cur| <= Limit(q.context);
  }

  /** On every byte stream the index fits its field, at most `max` tuples are stored, and the
      end-of-line state is never met at the top of the loop. */
  lemma {:induction false} RunKeepsInv(p: Parser, input: string, auto: bool, max: nat)
    requires Inv(p, max)
    ensures Inv(RunFrom(p, input, auto, max).outcome.p, max)
    ensures |RunFrom(p, input, auto, max).rest| <= |input|
    decreases |input|
  {
    hide Step;
    if input != "" {
      StepKeepsInv(p, input[0], auto, max);
      var o := Step(p, input[0], auto, max);
      if o.Next? { RunKeepsInv(o.p, input[1..], auto, max); }
    }
  }

  // ------------------------------------------------------------------ telegrams

  /** One data set code(value*unit) with the line breaks after it. */
  datatype DataSet = DataSet(code: string, value: string, unit: Option<string>, breaks: string)

  datatype Telegram = Telegram(vendor: string, baudrate: char, ident: string, lead: string, sets: seq<DataSet>)

  predicate Break(c: char) { c in {'\r', '\n', '\U{02}'} }
  predicate Mark(c: char) { c == '?' || c == '!' }

  /** Bytes a field takes up as they are. */
  predicate FieldByte(c: Context, byte: char) {
    && !Mark(byte)
    && match c
       case OBIS_CODE => byte != '(' && !Break(byte)
       case VALUE => byte != '*' && byte != ')'
       case UNIT => byte != ')'
       case _ => false
  }

  predicate FieldText(c: Context, f: string) {
    (f != "" ==> f[0] != '/') && forall i :: 0 <= i < |f| ==> FieldByte(c, f[i])
  }

  /** What is kept of an identification: bytes that cannot be printed are left out. */
  function Printable(f: string): string
    decreases |f|
  {
    if f == "" then "" else (if ' ' <= f[0] <= '~' then [f[0]] else "") + Printable(f[1..])
  }

  /** Bytes of an identification; a slash may not be the first that can be printed. */
  predicate IdentText(f: string) {
    && (forall i :: 0 <= i < |f| ==> f[i] !in {'\r', '\n', '?', '!'})
    && (Printable(f) != "" ==> Printable(f)[0] != '/')
  }

  predicate SetOk(d: DataSet) {
    && FieldText(OBIS_CODE, d.code) && FieldText(VALUE, d.value)
    && (d.unit.Some? ==> FieldText(UNIT, d.unit.value))
    && forall i :: 0 <= i < |d.breaks| ==> Break(d.breaks[i])
  }

  predicate TelegramOk(t: Telegram) {
    && |t.vendor| == 3 && (forall i :: 0 <= i < 3 ==> 'a' <= t.vendor[i] <= 'z' || 'A' <= t.vendor[i] <= 'Z')
    && !Mark(t.baudrate) && t.baudrate != '/'
    && IdentText(t.ident)
    && (forall i :: 0 <= i < |t.lead| ==> Break(t.lead[i]))
    && forall i :: 0 <= i < |t.sets| ==> SetOk(t.sets[i])
  }

  function PrintUnit(d: DataSet): string {
    if d.unit.None? then "" else ['*'] + d.unit.value
  }

  function PrintSet(d: DataSet): string {
    d.code + (['('] + (d.value + (PrintUnit(d) + ([')'] + d.breaks))))
  }

  function PrintSets(sets: seq<DataSet>): string {
    if sets == [] then "" else PrintSet(sets[0]) + PrintSets(sets[1..])
  }

  function PrintTelegram(t: Telegram): string {
    ['/'] + (t.vendor + ([t.baudrate] + (t.ident + (['\r', '\n'] + (t.lead + (PrintSets(t.sets) + ['!']))))))
  }

  /** Readings of the data sets, in order. */
  function Readings(sets: seq<DataSet>): seq<Tuple> {
    if sets == [] then []
    else
      var t := LineTuple(Keep(sets[0].code, 16), Keep(sets[0].value, 32));
      (if t.Some? then [t.value] else []) + Readings(sets[1..])
  }

  /** At most the first n characters or elements. */
  function Keep<T>(s: seq<T>, n: nat): seq<T> {
    if |s| <= n then s else s[..n]
  }

  // ------------------------------------------------------------------ the machine inverts the printer

  lemma RunOne(p: Parser, byte: char, q: Parser, rest: string, auto: bool, max: nat)
    requires Step(p, byte, auto, max) == Next(q)
    ensures RunFrom(p, [byte] + rest, auto, max) == RunFrom(q, rest, auto, max)
  {
    hide Step;
    assert ([byte] + rest)[1..] == rest;
  }

  lemma StepField(p: Parser, byte: char, auto: bool, max: nat)
    requires FieldByte(p.context, byte) && (p.cur == "" ==> byte != '/')
    ensures Step(p, byte, auto, max) == Next(p.(cur := Append(p.cur, byte, Limit(p.context))))
  {
    hide LineTuple;
  }

  /** A field is stored up to its limit. */
  lemma {:induction false} RunField(p: Parser, f: string, rest: string, auto: bool, max: nat)
    requires |p.cur| <= Limit(p.context)
    requires forall i :: 0 <= i < |f| ==> FieldByte(p.context, f[i])
    requires p.cur == "" ==> FieldText(p.context, f)
    ensures RunFrom(p, f + rest, auto, max) ==
            RunFrom(p.(cur := Keep(p.cur + f, Limit(p.context))), rest, auto, max)
    decreases |f|
  {
    hide Step, RunFrom;
    if f == "" {
      assert f + rest == rest && p.cur + f == p.cur;
    } else {
      var q := p.(cur := Append(p.cur, f[0], Limit(p.context)));
      assert f + rest == [f[0]] + (f[1..] + rest);
      StepField(p, f[0], auto, max);
      RunOne(p, f[0], q, f[1..] + rest, auto, max);
      RunField(q, f[1..], rest, auto, max);
      assert p.cur + f == (p.cur + [f[0]]) + f[1..];
      assert Keep(q.cur + f[1..], Limit(p.context)) == Keep(p.cur + f, Limit(p.context));
    }
  }

  /** A whole field. */
  lemma RunText(p: Parser, f: string, rest: string, auto: bool, max: nat)
    requires p.cur == "" && FieldText(p.context, f)
    ensures RunFrom(p, f + rest, auto, max) == RunFrom(p.(cur := Keep(f, Limit(p.context))), rest, auto, max)
  {
    hide RunFrom;
    assert "" + f == f;
    RunField(p, f, rest, auto, max);
  }

  /** An identification, up to its limit. */
  lemma {:induction false} RunIdent(p: Parser, f: string, rest: string, auto: bool, max: nat)
    requires p.context == IDENTIFICATION && |p.cur| <= IDENTIFICATION_LEN
    requires forall i :: 0 <= i < |f| ==> f[i] !in {'\r', '\n', '?', '!'}
    requires p.cur == "" && Printable(f) != "" ==> Printable(f)[0] != '/'
    ensures RunFrom(p, f + rest, auto, max) ==
            RunFrom(p.(cur := Keep(p.cur + Printable(f), IDENTIFICATION_LEN)), rest, auto, max)
    decreases |f|
  {
    hide Step, RunFrom, Printable, Keep;
    PrintableFirst(f);
    if f == "" {
      assert f + rest == rest && p.cur + "" == p.cur;
      KeepShort(p.cur, IDENTIFICATION_LEN);
    } else {
      var first := if ' ' <= f[0] <= '~' then [f[0]] else "";
      var q := p.(cur := Keep(p.cur + first, IDENTIFICATION_LEN));
      assert f + rest == [f[0]] + (f[1..] + rest);
      StepIdent(p, f[0], auto, max);
      RunOne(p, f[0], q, f[1..] + rest, auto, max);
      RunIdent(q, f[1..], rest, auto, max);
      KeepAppend(p.cur + first, Printable(f[1..]), IDENTIFICATION_LEN);
      assert p.cur + Printable(f) == (p.cur + first) + Printable(f[1..]);
    }
  }

  lemma PrintableFirst(f: string)
    ensures if f == "" then Printable(f) == ""
            else Printable(f) == (if ' ' <= f[0] <= '~' then [f[0]] else "") + Printable(f[1..])
  {
  }

  lemma KeepShort<T>(s: seq<T>, n: nat)
    ensures |s| <= n ==> Keep(s, n) == s
    ensures |Keep(s, n)| <= n && (n > 0 && s != [] ==> Keep(s, n) != [])
  {
  }

  lemma StepIdent(p: Parser, byte: char, auto: bool, max: nat)
    requires p.context == IDENTIFICATION && byte !in {'\r', '\n', '?', '!'} && (p.cur == "" ==> byte != '/')
    requires |p.cur| <= IDENTIFICATION_LEN
    ensures var first := if ' ' <= byte <= '~' then [byte] else "";
            && Step(p, byte, auto, max) == Next(p.(cur := Keep(p.cur + first, IDENTIFICATION_LEN)))
            && (first != "" ==> Keep(p.cur + first, IDENTIFICATION_LEN) != "")
            && (first == "" ==> Keep(p.cur + first, IDENTIFICATION_LEN) == p.cur)
            && |Keep(p.cur + first, IDENTIFICATION_LEN)| <= IDENTIFICATION_LEN
  {
    hide LineTuple;
  }

  lemma {:induction false} RunBreaks(p: Parser, s: string, rest: string, auto: bool, max: nat)
    requires p.context == OBIS_CODE && forall i :: 0 <= i < |s| ==> Break(s[i])
    ensures RunFrom(p, s + rest, auto, max) == RunFrom(p, rest, auto, max)
    decreases |s|
  {
    hide RunFrom;
    if s == "" {
      assert s + rest == rest;
    } else {
      assert s + rest == [s[0]] + (s[1..] + rest);
      RunOne(p, s[0], p, s[1..] + rest, auto, max);
      RunBreaks(p, s[1..], rest, auto, max);
    }
  }

  // The bytes that end a field of a line.
  lemma StepBrackets(p: Parser, auto: bool, max: nat)
    ensures p.context == OBIS_CODE ==>
              Step(p, '(', auto, max) == Next(p.(code := p.cur, cur := "", context := VALUE))
    ensures p.context == VALUE ==>
              Step(p, '*', auto, max) == Next(p.(value := p.cur, cur := "", context := UNIT))
    ensures p.context == VALUE ==> Step(p, ')', auto, max) == Next(EndLine(p.(value := p.cur), max))
    ensures p.context == UNIT ==> Step(p, ')', auto, max) == Next(EndLine(p, max))
  {
    hide EndLine;
  }

  /** Parser state after one data set. */
  function AfterSet(p: Parser, d: DataSet, max: nat): Parser {
    EndLine(p.(code := Keep(d.code, OBIS_LEN), value := Keep(d.value, VALUE_LEN)), max)
  }

  lemma AfterSetTuples(p: Parser, d: DataSet, max: nat)
    requires |p.tuples| <= max
    ensures var q := AfterSet(p, d, max);
            && q.context == OBIS_CODE && q.cur == "" && q.ack == p.ack && q.sent == p.sent
            && q.reactionMs == p.reactionMs
            && q.tuples == Keep(p.tuples + Readings([d]), max)
  {
    hide LineTuple;
    assert [d][1..] == [];
  }

  lemma EndLineResets(p: Parser, cur: string, max: nat)
    ensures EndLine(p.(cur := cur), max) == EndLine(p, max)
  {
    hide LineTuple;
  }

  lemma EndLineContext(p: Parser, max: nat)
    ensures EndLine(p.(context := UNIT), max) == EndLine(p, max)
  {
    hide LineTuple;
  }

  lemma RunUnit(p: Parser, unit: string, rest: string, auto: bool, max: nat)
    requires p.context == UNIT && p.cur == "" && FieldText(UNIT, unit)
    ensures RunFrom(p, unit + ([')'] + rest), auto, max) == RunFrom(EndLine(p, max), rest, auto, max)
  {
    hide Step, RunFrom, EndLine, FieldText, Keep;
    RunText(p, unit, [')'] + rest, auto, max);
    var p1 := p.(cur := Keep(unit, UNIT_LEN));
    EndLineResets(p, p1.cur, max);
    StepBrackets(p1, auto, max);
    RunOne(p1, ')', EndLine(p, max), rest, auto, max);
  }

  lemma RunValue(p: Parser, d: DataSet, rest: string, auto: bool, max: nat)
    requires p.context == VALUE && p.cur == "" && SetOk(d)
    ensures RunFrom(p, d.value + (PrintUnit(d) + ([')'] + rest)), auto, max) ==
            RunFrom(EndLine(p.(value := Keep(d.value, VALUE_LEN)), max), rest, auto, max)
  {
    hide Step, RunFrom, EndLine, FieldText, Keep;
    var r3 := [')'] + rest;
    RunText(p, d.value, PrintUnit(d) + r3, auto, max);
    var v := Keep(d.value, VALUE_LEN);
    var p1 := p.(cur := v);
    StepBrackets(p1, auto, max);
    EndLineResets(p.(value := v), v, max);
    var done := EndLine(p.(value := v), max);
    if d.unit.None? {
      assert PrintUnit(d) + r3 == r3;
      RunOne(p1, ')', done, rest, auto, max);
    } else {
      var p2 := p.(value := v, context := UNIT);
      assert PrintUnit(d) + r3 == ['*'] + (d.unit.value + r3);
      RunOne(p1, '*', p2, d.unit.value + r3, auto, max);
      RunUnit(p2, d.unit.value, rest, auto, max);
      EndLineContext(p.(value := v), max);
    }
  }

  lemma RunSet(p: Parser, d: DataSet, rest: string, auto: bool, max: nat)
    requires p.context == OBIS_CODE && p.cur == "" && SetOk(d)
    ensures RunFrom(p, PrintSet(d) + rest, auto, max) == RunFrom(AfterSet(p, d, max), rest, auto, max)
  {
    hide Step, RunFrom, LineTuple, FieldText, Keep;
    var r1 := d.value + (PrintUnit(d) + ([')'] + (d.breaks + rest)));
    assert PrintSet(d) + rest == d.code + (['('] + r1);
    RunText(p, d.code, ['('] + r1, auto, max);
    var p1 := p.(cur := Keep(d.code, OBIS_LEN));
    var p2 := p.(code := Keep(d.code, OBIS_LEN), context := VALUE);
    StepBrackets(p1, auto, max);
    RunOne(p1, '(', p2, r1, auto, max);
    RunValue(p2, d, d.breaks + rest, auto, max);
    RunBreaks(AfterSet(p, d, max), d.breaks, rest, auto, max);
  }

  function AfterSets(p: Parser, sets: seq<DataSet>, max: nat): Parser
    decreases |sets|
  {
    if sets == [] then p else AfterSets(AfterSet(p, sets[0], max), sets[1..], max)
  }

  lemma KeepAppend<T>(a: seq<T>, b: seq<T>, n: nat)
    ensures Keep(Keep(a, n) + b, n) == Keep(a + b, n)
  {
  }

  lemma ReadingsFirst(sets: seq<DataSet>)
    requires sets != []
    ensures Readings(sets) == Readings([sets[0]]) + Readings(sets[1..])
  {
    hide LineTuple;
    assert [sets[0]][1..] == [] && Readings([]) == [];
  }

  lemma ReadingsNone()
    ensures Readings([]) == []
  {
  }

  lemma {:induction false} AfterSetsTuples(p: Parser, sets: seq<DataSet>, max: nat)
    requires p.context == OBIS_CODE && p.cur == "" && |p.tuples| <= max
    ensures var q := AfterSets(p, sets, max);
            && q.tuples == Keep(p.tuples + Readings(sets), max)
            && q.context == OBIS_CODE && q.cur == "" && q.ack == p.ack && q.sent == p.sent
            && q.reactionMs == p.reactionMs
    decreases |sets|
  {
    hide LineTuple, AfterSet, Readings;
    if sets != [] {
      var p1, one := AfterSet(p, sets[0], max), Readings([sets[0]]);
      AfterSetTuples(p, sets[0], max);
      AfterSetsTuples(p1, sets[1..], max);
      ReadingsFirst(sets);
      assert p.tuples + Readings(sets) == (p.tuples + one) + Readings(sets[1..]);
      KeepAppend(p.tuples + one, Readings(sets[1..]), max);
    } else {
      ReadingsNone();
      assert p.tuples + [] == p.tuples;
    }
  }

  lemma {:induction false} RunSets(p: Parser, sets: seq<DataSet>, rest: string, auto: bool, max: nat)
    requires p.context == OBIS_CODE && p.cur == "" && |p.tuples| <= max
    requires forall i :: 0 <= i < |sets| ==> SetOk(sets[i])
    ensures RunFrom(p, PrintSets(sets) + rest, auto, max) == RunFrom(AfterSets(p, sets, max), rest, auto, max)
    decreases |sets|
  {
    hide Step, RunFrom, AfterSet, PrintSet, SetOk, Readings;
    if sets == [] {
      assert PrintSets(sets) + rest == rest;
    } else {
      var tail := PrintSets(sets[1..]) + rest;
      assert PrintSets(sets) + rest == PrintSet(sets[0]) + tail;
      RunSet(p, sets[0], tail, auto, max);
      AfterSetTuples(p, sets[0], max);
      RunSets(AfterSet(p, sets[0], max), sets[1..], rest, auto, max);
    }
  }

  /** Parser state when the data block begins. */
  function AfterHeader(p: Parser, t: Telegram, auto: bool): Parser
    requires |t.vendor| == 3
  {
    SendAck(p.(context := OBIS_CODE, cur := "", tuples := [], baudrate := t.baudrate,
               reactionMs := if IsLower(t.vendor[2]) then 20 else 200), auto)
  }

  function AfterVendor(p: Parser, vendor: string): Parser
    requires |vendor| == 3
  {
    p.(context := BAUDRATE, cur := "", tuples := [], reactionMs := if IsLower(vendor[2]) then 20 else 200)
  }

  lemma RunVendor(p: Parser, v: string, rest: string, auto: bool, max: nat)
    requires p.cur == "" && |v| == 3 && forall i :: 0 <= i < 3 ==> IsAlpha(v[i])
    ensures RunFrom(p, ['/'] + (v + rest), auto, max) == RunFrom(AfterVendor(p, v), rest, auto, max)
  {
    hide RunFrom, LineTuple;
    var p1 := p.(context := VENDOR, tuples := []);
    RunOne(p, '/', p1, v + rest, auto, max);
    assert v + rest == [v[0]] + ([v[1]] + ([v[2]] + rest));
    RunOne(p1, v[0], p1.(cur := [v[0]]), [v[1]] + ([v[2]] + rest), auto, max);
    RunOne(p1.(cur := [v[0]]), v[1], p1.(cur := [v[0], v[1]]), [v[2]] + rest, auto, max);
    RunOne(p1.(cur := [v[0], v[1]]), v[2], AfterVendor(p, v), rest, auto, max);
  }

  lemma RunHeader(p: Parser, t: Telegram, rest: string, auto: bool, max: nat)
    requires p.cur == "" && TelegramOk(t)
    ensures RunFrom(p, ['/'] + (t.vendor + ([t.baudrate] + (t.ident + ([CR, LF] + rest)))), auto, max) ==
            RunFrom(AfterHeader(p, t, auto), rest, auto, max)
  {
    hide RunFrom, LineTuple;
    var r2 := t.ident + ([CR] + ([LF] + rest));
    assert [CR, LF] + rest == [CR] + ([LF] + rest);
    RunVendor(p, t.vendor, [t.baudrate] + r2, auto, max);
    var p2 := AfterVendor(p, t.vendor);
    var p3 := p2.(baudrate := t.baudrate, context := IDENTIFICATION);
    RunOne(p2, t.baudrate, p3, r2, auto, max);
    RunIdent(p3, t.ident, [CR] + ([LF] + rest), auto, max);
    var p4 := p3.(cur := Keep("" + Printable(t.ident), IDENTIFICATION_LEN));
    RunOne(p4, CR, p3.(context := ACK), [LF] + rest, auto, max);
    RunOne(p3.(context := ACK), LF, AfterHeader(p, t, auto), rest, auto, max);
  }

  lemma RunStop(p: Parser, rest: string, auto: bool, max: nat)
    requires p.context == OBIS_CODE
    ensures RunFrom(p, ['!'] + rest, auto, max) == Run(Done(p.(context := END, cur := "")), rest)
  {
    hide LineTuple;
    assert (['!'] + rest)[1..] == rest;
  }

  /** A whole telegram, met at the start of a field: its readings in order, cut at `max`, one
      acknowledgement if the meter wants any, and nothing read beyond the '!'. */
  lemma RunTelegram(p: Parser, t: Telegram, rest: string, auto: bool, max: nat)
    requires p.cur == "" && TelegramOk(t)
    ensures var r := RunFrom(p, PrintTelegram(t) + rest, auto, max);
            && r.outcome.Done? && r.rest == rest
            && r.outcome.p.tuples == Keep(Readings(t.sets), max)
            && r.outcome.p.sent == SendAck(p.(baudrate := t.baudrate), auto).sent
            && r.outcome.p.ack == SendAck(p.(baudrate := t.baudrate), auto).ack
            && r.outcome.p.reactionMs == if 'a' <= t.vendor[2] <= 'z' then 20 else 200
  {
    hide RunFrom, Step, PrintSets, Readings, SetOk, AfterSets;
    var r2 := ['!'] + rest;
    var r1 := t.lead + (PrintSets(t.sets) + r2);
    assert PrintTelegram(t) + rest == ['/'] + (t.vendor + ([t.baudrate] + (t.ident + ([CR, LF] + r1))));
    RunHeader(p, t, r1, auto, max);
    var p1 := AfterHeader(p, t, auto);
    RunBreaks(p1, t.lead, PrintSets(t.sets) + r2, auto, max);
    RunSets(p1, t.sets, r2, auto, max);
    AfterSetsTuples(p1, t.sets, max);
    var q := AfterSets(p1, t.sets, max);
    assert [] + Readings(t.sets) == Readings(t.sets);
    RunStop(q, rest, auto, max);
  }

  // ------------------------------------------------------------------ what may come before a telegram

  /** Bytes before a telegram: no slash and no '!', and no STX if there is a '?' as well. */
  predicate Noise(s: string) {
    (forall i :: 0 <= i < |s| ==> s[i] !in {'/', '!'}) && ('?' in s ==> '\U{02}' !in s)
  }

  /** Nothing has been read yet: at the start, or in the end sequence. */
  predicate Idle(p: Parser) {
    (p.context == START && p.cur == "") || (p.context == END && p.cur in {"", "?"})
  }

  /** Parser state after such bytes. */
  function AfterNoise(p: Parser, noise: string): Parser
    decreases |noise|
  {
    if noise == "" then p
    else if noise[0] == '?' then AfterNoise(p.(context := END, cur := "?"), noise[1..])
    else AfterNoise(if p.context == END then p.(cur := "") else p, noise[1..])
  }

  lemma StepNoise(p: Parser, byte: char, auto: bool, max: nat)
    requires Idle(p) && byte !in {'/', '!'} && (p.context == END ==> byte != '\U{02}')
    ensures Step(p, byte, auto, max) ==
            Next(if byte == '?' then p.(context := END, cur := "?") else if p.context == END then p.(cur := "") else p)
  {
    hide LineTuple;
  }

  lemma {:induction false} RunNoise(p: Parser, noise: string, rest: string, auto: bool, max: nat)
    requires Idle(p) && (forall i :: 0 <= i < |noise| ==> noise[i] !in {'/', '!'})
    requires p.context == END || '?' in noise ==> '\U{02}' !in noise
    ensures RunFrom(p, noise + rest, auto, max) == RunFrom(AfterNoise(p, noise), rest, auto, max)
    ensures var q := AfterNoise(p, noise);
            && Idle(q) && q == p.(context := q.context, cur := q.cur)
            && (p.context == END || '?' in noise ==> q.context == END)
    decreases |noise|
  {
    hide RunFrom, Step;
    if noise == "" {
      assert noise + rest == rest;
    } else {
      assert noise == [noise[0]] + noise[1..];
      assert noise + rest == [noise[0]] + (noise[1..] + rest);
      StepNoise(p, noise[0], auto, max);
      var q := Step(p, noise[0], auto, max).p;
      RunOne(p, noise[0], q, noise[1..] + rest, auto, max);
      RunNoise(q, noise[1..], rest, auto, max);
    }
  }

  /** Such bytes alone change nothing: no reading, no acknowledgement, the reaction time of before. */
  lemma NoTelegram(ack: string, reactionMs: int, noise: string, auto: bool, max: nat)
    requires Noise(noise)
    ensures var o := ReadSpec(false, ack, reactionMs, auto, noise, max).outcome;
            o.Next? && o.p.tuples == [] && o.p.sent == [] && o.p.ack == ack && o.p.reactionMs == reactionMs
  {
    hide RunFrom;
    assert noise + "" == noise;
    RunNoise(Start(ack, reactionMs), noise, "", auto, max);
    RunDry(AfterNoise(Start(ack, reactionMs), noise), auto, max);
  }

  /** A slash begins a telegram wherever nothing has been read yet. */
  lemma SlashBegins(p: Parser, rest: string, auto: bool, max: nat)
    requires Idle(p) && p.tuples == []
    ensures RunFrom(p, ['/'] + rest, auto, max) == RunFrom(p.(context := START, cur := ""), ['/'] + rest, auto, max)
  {
    hide RunFrom, LineTuple;
    var q := p.(context := VENDOR, cur := "");
    RunOne(p, '/', q, rest, auto, max);
    RunOne(p.(context := START, cur := ""), '/', q, rest, auto, max);
  }

  /** Some meters start without a header, with '?' and STX: then the data sets follow at once, and nothing is
      acknowledged. */
  lemma ReadAfterStx(ack: string, reactionMs: int, noise: string, lead: string, sets: seq<DataSet>, rest: string,
                     auto: bool, max: nat)
    requires Noise(noise) && '?' in noise && (forall i :: 0 <= i < |lead| ==> Break(lead[i]))
    requires forall i :: 0 <= i < |sets| ==> SetOk(sets[i])
    ensures var r := ReadSpec(false, ack, reactionMs, auto,
                              noise + (['\U{02}'] + (lead + (PrintSets(sets) + (['!'] + rest)))), max);
            && r.outcome.Done? && r.rest == rest
            && r.outcome.p.tuples == Keep(Readings(sets), max) && r.outcome.p.sent == []
  {
    hide RunFrom, Step, PrintSets, Readings, SetOk, AfterSets;
    var p := Start(ack, reactionMs);
    var r1 := PrintSets(sets) + (['!'] + rest);
    RunNoise(p, noise, ['\U{02}'] + (lead + r1), auto, max);
    var p1 := AfterNoise(p, noise);
    var p2 := p1.(context := OBIS_CODE, cur := "");
    StepStx(p1, auto, max);
    RunOne(p1, '\U{02}', p2, lead + r1, auto, max);
    RunBreaks(p2, lead, r1, auto, max);
    RunSets(p2, sets, ['!'] + rest, auto, max);
    AfterSetsTuples(p2, sets, max);
    assert [] + Readings(sets) == Readings(sets);
    RunStop(AfterSets(p2, sets, max), rest, auto, max);
  }

  lemma StepStx(p: Parser, auto: bool, max: nat)
    requires p.context == END
    ensures Step(p, '\U{02}', auto, max) == Next(p.(context := OBIS_CODE, cur := ""))
  {
    hide LineTuple;
  }

  /** A vendor that is not made of letters ends the read. */
  lemma VendorRejected(p: Parser, v: string, bad: char, rest: string, auto: bool, max: nat)
    requires p.cur == "" && |v| <= 2 && forall i :: 0 <= i < |v| ==> 'a' <= v[i] <= 'z' || 'A' <= v[i] <= 'Z'
    requires !('a' <= bad <= 'z' || 'A' <= bad <= 'Z') && bad !in {'\r', '\n', '/', '?', '!'}
    ensures var r := RunFrom(p, ['/'] + (v + ([bad] + rest)), auto, max);
            r.outcome.Failed? && r.rest == rest && r.outcome.p.tuples == []
  {
    hide RunFrom, LineTuple;
    var p1 := p.(context := VENDOR, tuples := []);
    var tail := [bad] + rest;
    assert tail[0] == bad && tail[1..] == rest;
    RunOne(p, '/', p1, v + tail, auto, max);
    if |v| == 0 {
      assert v + tail == tail;
      RunUnfold(p1, tail, auto, max);
    } else if |v| == 1 {
      assert v + tail == [v[0]] + tail;
      RunOne(p1, v[0], p1.(cur := [v[0]]), tail, auto, max);
      RunUnfold(p1.(cur := [v[0]]), tail, auto, max);
    } else {
      assert v + tail == [v[0]] + ([v[1]] + tail);
      RunOne(p1, v[0], p1.(cur := [v[0]]), [v[1]] + tail, auto, max);
      RunOne(p1.(cur := [v[0]]), v[1], p1.(cur := [v[0], v[1]]), tail, auto, max);
      RunUnfold(p1.(cur := [v[0], v[1]]), tail, auto, max);
    }
  }

  /** The pull sequence "/?!" CR LF that the meter may echo. */
  const PULL: string := ['/', '?', '!', CR, LF]

  lemma StepPull(p: Parser, auto: bool, max: nat)
    requires p.cur == ""
    ensures var q := p.(context := VENDOR, tuples := []);
            && Step(p, '/', auto, max) == Next(q)
            && Step(q, '?', auto, max) == Next(q.(context := END, cur := "?"))
            && Step(q.(context := END, cur := "?"), '!', auto, max) == Next(q)
            && Step(q, CR, auto, max) == Next(q) && Step(q, LF, auto, max) == Next(q)
  {
    hide LineTuple, Append, SendAck;
  }

  lemma RunPull(p: Parser, rest: string, auto: bool, max: nat)
    requires p.cur == ""
    ensures RunFrom(p, PULL + rest, auto, max) == RunFrom(p.(context := VENDOR, tuples := []), rest, auto, max)
  {
    hide RunFrom, Step;
    StepPull(p, auto, max);
    var q := p.(context := VENDOR, tuples := []);
    assert PULL + rest == ['/'] + (['?'] + (['!'] + ([CR] + ([LF] + rest))));
    RunOne(p, '/', q, ['?'] + (['!'] + ([CR] + ([LF] + rest))), auto, max);
    RunOne(q, '?', q.(context := END, cur := "?"), ['!'] + ([CR] + ([LF] + rest)), auto, max);
    RunOne(q.(context := END, cur := "?"), '!', q, [CR] + ([LF] + rest), auto, max);
    RunOne(q, CR, q, [LF] + rest, auto, max);
    RunOne(q, LF, q, rest, auto, max);
  }

  lemma StartsWithSlash(ack: string, reactionMs: int, noise: string, body: string, auto: bool, max: nat)
    requires Noise(noise) && body != "" && body[0] == '/'
    ensures RunFrom(Start(ack, reactionMs), noise + body, auto, max) ==
            RunFrom(Start(ack, reactionMs), body, auto, max)
  {
    hide RunFrom;
    var p := Start(ack, reactionMs);
    RunNoise(p, noise, body, auto, max);
    assert body == ['/'] + body[1..];
    SlashBegins(AfterNoise(p, noise), body[1..], auto, max);
  }

  /** What is sent, and kept as the acknowledgement. */
  lemma AckSent(p: Parser, auto: bool)
    ensures var q := SendAck(p, auto);
            && q.ack == (if p.ack == "" && auto then ModeC(p.baudrate) else p.ack)
            && q.sent == p.sent + (if p.ack == "" && !auto then [] else [q.ack])
  {
  }

  lemma TelegramSlash(t: Telegram)
    ensures PrintTelegram(t) != "" && PrintTelegram(t)[0] == '/'
  {
  }

  /** The acknowledgement that selects data readout, with the baud rate the meter offers, if it is one of the
      six above 300 baud. */
  function ModeC(offered: char): string {
    ['\U{06}', '0', if offered in {'1', '2', '3', '4', '5', '6'} then offered else '0', '0', '\r', '\n']
  }

  /** Reading from a fresh start: leading noise and echoed pull sequences change nothing. */
  lemma ReadTelegram(ack: string, reactionMs: int, noise: string, pulled: bool, t: Telegram, rest: string,
                     auto: bool, max: nat)
    requires TelegramOk(t) && Noise(noise)
    ensures var input := noise + ((if pulled then PULL else "") + (PrintTelegram(t) + rest));
            var r := ReadSpec(false, ack, reactionMs, auto, input, max);
            && r.outcome.Done? && r.rest == rest
            && r.outcome.p.tuples == Keep(Readings(t.sets), max)
            && r.outcome.p.ack == (if ack == "" && auto then ModeC(t.baudrate) else ack)
            && r.outcome.p.reactionMs == (if 'a' <= t.vendor[2] <= 'z' then 20 else 200)
            && r.outcome.p.sent == (if ack == "" && !auto then [] else [r.outcome.p.ack])
  {
    hide RunFrom, PrintTelegram, Noise, Idle, AfterNoise, TelegramOk, SendAck, ModeC, Readings, Keep;
    var p := Start(ack, reactionMs);
    var body := PrintTelegram(t) + rest;
    StartsWithSlash(ack, reactionMs, noise, (if pulled then PULL else "") + body, auto, max) by {
      TelegramSlash(t);
    }
    AckSent(p.(baudrate := t.baudrate), auto);
    AckSent(p.(context := VENDOR, tuples := [], baudrate := t.baudrate), auto);
    if pulled {
      RunPull(p, body, auto, max);
      RunTelegram(p.(context := VENDOR, tuples := []), t, rest, auto, max);
    } else {
      assert "" + body == body;
      RunTelegram(p, t, rest, auto, max);
    }
  }

  // ------------------------------------------------------------------ telegrams made of valid codes

  /** First characters of the lines that are stored: the digits, and C and F. */
  predicate FirstStored(c: char) { '0' <= c <= '9' || c in {'C', 'F'} }

  /** A line is stored exactly if it has a value and a code that is valid and starts with such a character; it
      is stored under that code. */
  lemma LineStored(code: string, value: string, id: O.Id)
    requires (forall i :: 0 <= i < |code| ==> code[i] != NUL) && (forall i :: 0 <= i < |value| ==> value[i] != NUL)
    ensures LineTuple(code, value) == Some(Tuple(id, value)) <==>
            code != "" && value != "" && FirstStored(code[0]) && O.ParseText(code) == O.Parsed(true, id)
    ensures LineTuple(code, value).Some? ==> LineTuple(code, value).value.text == value
  {
    hide O.ParseText, O.FindAlias, O.ALIASES;
    CStringWhole(code);
    CStringWhole(value);
    if code != "" && FirstStored(code[0]) { O.NoAliasStartsWithGroup(code); }
  }

  /** Code and value end at their first NUL. */
  lemma NulEnds(code: string, value: string)
    ensures LineTuple(code, value) == LineTuple(CString(code), CString(value))
  {
    hide O.Resolve;
    CStringWhole(CString(code));
    CStringWhole(CString(value));
  }

  /** For the text of any valid code: stored exactly if it starts with a digit, C or F, and has a value. */
  lemma CodeStored(k: O.ValidCode, value: string)
    requires forall i :: 0 <= i < |value| ==> value[i] != NUL
    ensures LineTuple(O.CodeText(k), value) ==
            if value != "" && FirstStored(O.CodeText(k)[0]) then Some(Tuple(O.CodeId(k), value)) else None
  {
    hide O.CodeText, O.ParseText, O.FindAlias, O.ALIASES, LineTuple;
    O.CodeTextChars(k);
    var code := O.CodeText(k);
    forall i | 0 <= i < |code| ensures code[i] != NUL { assert O.CodeChar(code[i]); }
    O.ParseCodeText(k);
    LineStored(code, value, O.CodeId(k));
    if LineTuple(code, value).Some? { LineStored(code, value, LineTuple(code, value).value.id); }
  }

  /** A reading as a meter sends it: its code, the value text, and presentation details. */
  datatype Measured = Measured(code: O.ValidCode, value: string, unit: Option<string>, breaks: string)

  ghost predicate MeasuredOk(m: Measured) {
    && |O.CodeText(m.code)| <= 16 && FirstStored(O.CodeText(m.code)[0])
    && 0 < |m.value| <= 32 && FieldText(VALUE, m.value)
    && (forall i :: 0 <= i < |m.value| ==> m.value[i] != NUL)
    && (m.unit.Some? ==> FieldText(UNIT, m.unit.value))
    && forall i :: 0 <= i < |m.breaks| ==> Break(m.breaks[i])
  }

  function SetOf(m: Measured): DataSet {
    DataSet(O.CodeText(m.code), m.value, m.unit, m.breaks)
  }

  function SetsOf(ms: seq<Measured>): seq<DataSet> {
    if ms == [] then [] else [SetOf(ms[0])] + SetsOf(ms[1..])
  }

  function TuplesOf(ms: seq<Measured>): seq<Tuple> {
    if ms == [] then [] else [Tuple(O.CodeId(ms[0].code), ms[0].value)] + TuplesOf(ms[1..])
  }

  lemma CStringWhole(s: string)
    requires forall i :: 0 <= i < |s| ==> s[i] != NUL
    ensures CString(s) == s
  {
  }

  lemma MeasuredTuple(m: Measured)
    requires MeasuredOk(m)
    ensures SetOk(SetOf(m))
    ensures LineTuple(Keep(O.CodeText(m.code), 16), Keep(m.value, 32)) ==
            Some(Tuple(O.CodeId(m.code), m.value))
  {
    hide O.CodeText, O.ParseText, O.FindAlias, O.ALIASES;
    var code := O.CodeText(m.code);
    O.CodeTextChars(m.code);
    forall i | 0 <= i < |code| ensures FieldByte(OBIS_CODE, code[i]) && code[i] != NUL {
      assert O.CodeChar(code[i]);
    }
    CStringWhole(code);
    CStringWhole(m.value);
    O.ParseCodeText(m.code);
  }

  lemma {:induction false} MeasuredReadings(ms: seq<Measured>)
    requires forall i :: 0 <= i < |ms| ==> MeasuredOk(ms[i])
    ensures Readings(SetsOf(ms)) == TuplesOf(ms)
    ensures forall i :: 0 <= i < |SetsOf(ms)| ==> SetOk(SetsOf(ms)[i])
  {
    hide LineTuple, O.CodeText, O.CodeId, SetOk;
    if ms != [] {
      MeasuredTuple(ms[0]);
      MeasuredReadings(ms[1..]);
      assert SetsOf(ms)[1..] == SetsOf(ms[1..]);
    }
  }

  /** Sending readings and reading the telegram back gives the readings, cut at `max`. */
  lemma RoundTrip(ack: string, reactionMs: int, noise: string, pulled: bool, t: Telegram, ms: seq<Measured>,
                  rest: string, auto: bool, max: nat)
    requires forall i :: 0 <= i < |ms| ==> MeasuredOk(ms[i])
    requires TelegramOk(t.(sets := []))
    requires Noise(noise)
    ensures var sent := t.(sets := SetsOf(ms));
            var input := noise + ((if pulled then PULL else "") + (PrintTelegram(sent) + rest));
            var r := ReadSpec(false, ack, reactionMs, auto, input, max);
            r.outcome.Done? && r.rest == rest && r.outcome.p.tuples == Keep(TuplesOf(ms), max)
  {
    hide RunFrom, SetsOf, PrintTelegram, Readings, TuplesOf;
    MeasuredReadings(ms);
    ReadTelegram(ack, reactionMs, noise, pulled, t.(sets := SetsOf(ms)), rest, auto, max);
  }

  /** A meter that is already sending: the rest of its message up to '!' is skipped, then the next
      telegram is read as usual. */
  lemma {:induction false} SkipToSyncFinds(tail: string, rest: string, skipped: nat)
    requires forall i :: 0 <= i < |tail| ==> tail[i] != '!'
    requires skipped + |tail| <= 1024
    ensures SkipToSync(tail + (['!'] + rest), skipped) == (rest, false)
    decreases |tail|
  {
    var input := tail + (['!'] + rest);
    if tail == "" {
      assert input[1..] == rest;
    } else {
      assert input[1..] == tail[1..] + (['!'] + rest);
      SkipToSyncFinds(tail[1..], rest, skipped + 1);
    }
  }

  /** Without the mark, and up to 1024 bytes, the wait goes on in the next call. */
  lemma {:induction false} SkipGoesOn(tail: string, skipped: nat)
    requires (forall i :: 0 <= i < |tail| ==> tail[i] != '!') && skipped + |tail| <= 1024
    ensures SkipToSync(tail, skipped) == ("", true)
    decreases |tail|
  {
    if tail != "" { SkipGoesOn(tail[1..], skipped + 1); }
  }

  /** Behind 1025 bytes without the mark the wait is given up. */
  lemma {:induction false} SkipGivesUp(tail: string, rest: string, skipped: nat)
    requires forall i :: 0 <= i < |tail| ==> tail[i] != '!'
    requires tail != "" && skipped + |tail| == 1025
    ensures SkipToSync(tail + rest, skipped) == (rest, false)
    decreases |tail|
  {
    assert (tail + rest)[1..] == tail[1..] + rest;
    if |tail| > 1 {
      SkipGivesUp(tail[1..], rest, skipped + 1);
    } else {
      assert tail[1..] + rest == rest;
    }
  }

  lemma ReadAfterSync(ack: string, reactionMs: int, tail: string, noise: string, t: Telegram, rest: string,
                      auto: bool, max: nat)
    requires TelegramOk(t) && |tail| <= 1024
    requires forall i :: 0 <= i < |tail| ==> tail[i] != '!'
    requires Noise(noise)
    ensures var r := ReadSpec(true, ack, reactionMs, auto, tail + (['!'] + (noise + (PrintTelegram(t) + rest))), max);
            r.outcome.Done? && r.rest == rest && r.outcome.p.tuples == Keep(Readings(t.sets), max)
  {
    hide RunFrom, PrintTelegram, Readings;
    var body := PrintTelegram(t) + rest;
    SkipToSyncFinds(tail, noise + body, 0);
    ReadTelegram(ack, reactionMs, noise, false, t, rest, auto, max);
    assert "" + body == body;
  }

  // ------------------------------------------------------------------ the class

  /** Field `s` is stored in a buffer and terminated. */
  ghost predicate Terminated(buf: array<char>, s: string)
    reads buf
  {
    |s| < buf.Length && buf[..|s|] == s && buf[|s|] == NUL
  }

  /** The bytes stored so far. */
  ghost predicate Holds(buf: array<char>, s: string)
    reads buf
  {
    |s| < buf.Length && buf[..|s|] == s
  }

  /** Stores one more byte unless the field is full. */
  method Put(buf: array<char>, it: nat, limit: nat, byte: char, ghost s: string) returns (it': nat)
    requires Holds(buf, s) && it == |s| <= limit && limit < buf.Length
    modifies buf
    ensures Holds(buf, Append(s, byte, limit)) && it' == |Append(s, byte, limit)|
  {
    it' := it;
    if it < limit {
      buf[it] := byte;
      it' := it + 1;
    }
  }

  method Terminate(buf: array<char>, it: nat, ghost s: string)
    requires Holds(buf, s) && it == |s|
    modifies buf
    ensures Terminated(buf, s)
  {
    buf[it] := NUL;
  }

  /** The C string is the prefix before the first NUL. */
  lemma CStringPrefix(s: string, n: nat)
    requires n <= |s| && (forall i :: 0 <= i < n ==> s[i] != NUL) && (n < |s| ==> s[n] == NUL)
    ensures CString(s) == s[..n]
  {
  }

  /** The C string held by a buffer. */
  method BufferText(buf: array<char>, ghost s: string) returns (text: string)
    requires Terminated(buf, s)
    ensures text == CString(s)
  {
    hide CString;
    var n := 0;
    while buf[n] != NUL
      invariant n <= |s| && forall i :: 0 <= i < n ==> buf[i] != NUL
      decreases |s| - n
    {
      n := n + 1;
    }
    assert forall i :: 0 <= i < |s| ==> s[i] == buf[..|s|][i];
    CStringPrefix(s, n);
    text := buf[..n];
    assert text == buf[..|s|][..n];
  }

  /** The char buffers local to one call of read. */
  class Buffers {
    const vendor: array<char>
    const ident: array<char>
    const code: array<char>
    const value: array<char>
    const unit: array<char>
    const endseq: array<char>

    ghost predicate Valid() {
      && vendor.Length == VENDOR_LEN + 1 && ident.Length == IDENTIFICATION_LEN + 1 && code.Length == OBIS_LEN + 1
      && value.Length == VALUE_LEN + 1 && unit.Length == UNIT_LEN + 1 && endseq.Length == 3
      && vendor != ident && vendor != code && vendor != value && vendor != unit && vendor != endseq
      && ident != code && ident != value && ident != unit && ident != endseq
      && code != value && code != unit && code != endseq
      && value != unit && value != endseq && unit != endseq
    }

    constructor ()
      ensures Valid()
      ensures fresh(vendor) && fresh(ident) && fresh(code) && fresh(value) && fresh(unit) && fresh(endseq)
    {
      vendor := new char[VENDOR_LEN + 1](_ => NUL);
      ident := new char[IDENTIFICATION_LEN + 1](_ => NUL);
      code := new char[OBIS_LEN + 1];
      value := new char[VALUE_LEN + 1];
      unit := new char[UNIT_LEN + 1];
      endseq := new char[3];
    }

    /** The buffers hold the bytes of the field being read and the finished fields of the line. */
    ghost predicate Agree(p: Parser)
      reads vendor, ident, code, value, unit, endseq
    {
      match p.context
      case VENDOR => Holds(vendor, p.cur)
      case IDENTIFICATION => Holds(ident, p.cur)
      case OBIS_CODE => Holds(code, p.cur)
      case VALUE => Holds(value, p.cur) && Terminated(code, p.code)
      case UNIT => Holds(unit, p.cur) && Terminated(code, p.code) && Terminated(value, p.value)
      case END => endseq.Length == 3 && (p.cur != "" ==> endseq[0] == '?')
      case _ => true
    }
  }

  class Meter {
    const autoAck: bool
    var ack: string
    var waitSyncEnd: bool
    var reactionMs: int
    var sent: seq<string>      // acknowledgements written to the meter

    constructor (autoAck: bool, ack: string, waitSyncEnd: bool)
      ensures this.autoAck == autoAck && this.ack == ack && this.waitSyncEnd == waitSyncEnd
      ensures reactionMs == 200 && sent == []
    {
      this.autoAck, this.ack, this.waitSyncEnd := autoAck, ack, waitSyncEnd;
      reactionMs, sent := 200, [];
    }

    /** The scalar loop variables seen as a Parser; `sent0` are the acknowledgements of earlier calls. */
    ghost predicate Agree(p: Parser, context: Context, it: nat, n: nat, baudrate: char,
                          rds: array<Tuple>, sent0: seq<string>)
      reads this, rds
    {
      && context == p.context && it == |p.cur| && baudrate == p.baudrate
      && ack == p.ack && reactionMs == p.reactionMs && sent == sent0 + p.sent
      && n == |p.tuples| <= rds.Length && rds[..n] == p.tuples
    }

    /** Stores a finished line in the next free slot. */
    method StoreLine(code: array<char>, value: array<char>, rds: array<Tuple>, n: nat, max: nat, ghost p: Parser)
      returns (n': nat)
      requires Terminated(code, p.code) && Terminated(value, p.value)
      requires n == |p.tuples| && n <= max <= rds.Length && rds[..n] == p.tuples
      modifies rds
      ensures n' == |EndLine(p, max).tuples| <= max && rds[..n'] == EndLine(p, max).tuples
    {
      hide O.ParseText, O.FindAlias;
      n' := n;
      if n < max {
        var c := BufferText(code, p.code);
        var v := BufferText(value, p.value);
        if |c| > 0 && |v| > 0 && (O.IsDigit(c[0]) || c[0] == 'C' || c[0] == 'F') {
          rds[n] := rds[n].(text := v);
          var obis := new O.Obis.NotGiven();
          var ok := obis.FromText(c);
          if ok {
            rds[n] := Tuple(obis.raw[..], v);
            n' := n + 1;
            assert rds[..n'] == rds[..n] + [rds[n]];
          }
          assert rds[..n] == p.tuples;
        }
      }
    }

    method TakeHeader(byte: char, context0: Context, it0: nat, n0: nat, baudrate0: char,
                      b: Buffers, rds: array<Tuple>, max: nat, ghost p: Parser, ghost sent0: seq<string>)
      returns (context: Context, it: nat, n: nat, baudrate: char, failed: bool)
      requires p.context in {START, VENDOR, BAUDRATE, IDENTIFICATION, ACK} && b.Valid()
      requires |p.cur| <= Limit(p.context) && (p.context == START ==> byte != '/')
      requires Agree(p, context0, it0, n0, baudrate0, rds, sent0) && b.Agree(p)
      modifies this`ack, this`sent, this`reactionMs, b.vendor, b.ident
      ensures var o := Dispatch(p, byte, autoAck, max);
              && failed == o.Failed?
              && Agree(o.p, context, it, n, baudrate, rds, sent0) && (!failed ==> b.Agree(o.p))
    {
      context, it, n, baudrate, failed := context0, it0, n0, baudrate0, false;
      match context {
        case START =>                       // a '/' has already been sent to VENDOR
        case VENDOR =>
          if byte == CR || byte == LF || byte == '/' {
            it, n := 0, 0;
          } else {
            if !IsAlpha(byte) {
              failed := true;
              return;
            }
            b.vendor[it] := byte;
            it := it + 1;
            assert b.vendor[..it] == p.cur + [byte];
            if it >= VENDOR_LEN {
              reactionMs := if IsLower(b.vendor[2]) then 20 else 200;
              b.vendor[it] := NUL;
              it := 0;
              context := BAUDRATE;
            }
          }
        case BAUDRATE =>
          baudrate := byte;
          it := 0;
          context := IDENTIFICATION;
        case IDENTIFICATION =>
          if byte == CR || byte == LF {
            Terminate(b.ident, it, p.cur);
            it := 0;
            context := ACK;
          } else if IsPrint(byte) {
            it := Put(b.ident, it, IDENTIFICATION_LEN, byte, p.cur);
          }
        case ACK =>
          if autoAck || |ack| > 0 {
            if |ack| == 0 {
              ack := [ACK_CHAR, '0', '0', '0', CR, LF];
              if '1' <= baudrate <= '6' { ack := ack[2 := baudrate]; }
            }
            sent := sent + [ack];
          }
          context := OBIS_CODE;
      }
    }

    method TakeLine(byte: char, context0: Context, it0: nat, n0: nat, ghost baudrate: char,
                    b: Buffers, rds: array<Tuple>, max: nat, ghost p: Parser, ghost sent0: seq<string>)
      returns (context: Context, it: nat, n: nat)
      requires p.context in {OBIS_CODE, VALUE, UNIT} && b.Valid()
      requires |p.cur| <= Limit(p.context) && |p.tuples| <= max <= rds.Length
      requires Agree(p, context0, it0, n0, baudrate, rds, sent0) && b.Agree(p)
      modifies b.code, b.value, b.unit, rds
      ensures var q := Dispatch(p, byte, autoAck, max).p;
              Agree(q, context, it, n, baudrate, rds, sent0) && b.Agree(q)
    {
      hide LineTuple;
      context, it, n := context0, it0, n0;
      match context {
        case OBIS_CODE =>
          if byte != LF && byte != CR && byte != STX {
            if byte == '(' {
              Terminate(b.code, it, p.cur);
              it := 0;
              context := VALUE;
            } else {
              it := Put(b.code, it, OBIS_LEN, byte, p.cur);
            }
          }
        case VALUE =>
          if byte == '*' || byte == ')' {
            Terminate(b.value, it, p.cur);
            it := 0;
            if byte == ')' {
              b.unit[0] := NUL;
              context := END_LINE;
            } else {
              context := UNIT;
            }
          } else {
            it := Put(b.value, it, VALUE_LEN, byte, p.cur);
          }
        case UNIT =>
          if byte == ')' {
            Terminate(b.unit, it, p.cur);
            it := 0;
            context := END_LINE;
          } else {
            it := Put(b.unit, it, UNIT_LEN, byte, p.cur);
          }
      }
      if context == END_LINE {
        n := StoreLine(b.code, b.value, rds, n, max, if p.context == VALUE then p.(value := p.cur) else p);
        it := 0;
        context := OBIS_CODE;
      }
    }

    method TakeEnd(byte: char, it0: nat, b: Buffers, ghost p: Parser)
      returns (context: Context, it: nat, done: bool)
      requires p.context == END && it0 == |p.cur| && (p.cur != "" ==> p.cur == "?") && b.Valid() && b.Agree(p)
      modifies b.endseq
      ensures var o := StepEnd(p, byte);
              && !o.Failed? && done == o.Done? && b.Agree(o.p)
              && context == o.p.context && it == |o.p.cur| && o.p == p.(context := context, cur := o.p.cur)
    {
      context, it, done := END, it0, false;
      if byte == '!' {
        if it == 0 {
          done := true;
        } else if b.endseq[0] == '?' {
          context := VENDOR;
          it := 0;
        } else {
          assert false;
        }
      } else if byte == '?' {
        if it == 0 {
          b.endseq[it] := byte;
          it := it + 1;
        }
      } else if byte == STX {
        context := OBIS_CODE;
        it := 0;
      } else if byte == '/' {
        context := VENDOR;
        it := 0;
      } else if it > 0 {
        it := 0;
      }
    }

    /** One byte of the read loop. `stop` is set when the read ends. */
    method TakeByte(byte: char, context0: Context, it0: nat, n0: nat, baudrate0: char,
                    b: Buffers, rds: array<Tuple>, max: nat, ghost p: Parser, ghost sent0: seq<string>)
      returns (context: Context, it: nat, n: nat, baudrate: char, stop: bool)
      requires Inv(p, max) && max <= rds.Length && b.Valid()
      requires Agree(p, context0, it0, n0, baudrate0, rds, sent0) && b.Agree(p)
      modifies this`ack, this`sent, this`reactionMs, b.vendor, b.ident, b.code, b.value, b.unit, b.endseq, rds
      ensures var o := Step(p, byte, autoAck, max);
              && stop == !o.Next?
              && Agree(o.p, context, it, n, baudrate, rds, sent0) && (!stop ==> b.Agree(o.p))
    {
      hide Dispatch, StepEnd;
      context, it, n, baudrate, stop := context0, it0, n0, baudrate0, false;
      if byte == '/' && it == 0 {
        context := VENDOR;
      } else if byte == '?' || byte == '!' {
        if context != END {
          context := END;
          it := 0;
        }
      }
      ghost var q := Retarget(p, byte);
      RetargetKeepsInv(p, byte, max);
      DispatchContexts(q, byte, autoAck, max);
      match context {
        case END =>
          context, it, stop := TakeEnd(byte, it, b, q);
        case OBIS_CODE | VALUE | UNIT =>
          context, it, n := TakeLine(byte, context, it, n, baudrate, b, rds, max, q, sent0);
        case START | VENDOR | BAUDRATE | IDENTIFICATION | ACK =>
          context, it, n, baudrate, stop := TakeHeader(byte, context, it, n, baudrate, b, rds, max, q, sent0);
        case START_LINE | END_LINE =>
          assert false;
      }
    }

    /** The read loop, from byte `used0` of the stream on. */
    method ReadLoop(input: string, used0: nat, b: Buffers, rds: array<Tuple>, max: nat, ghost p0: Parser,
                    ghost sent0: seq<string>)
      returns (n: nat, used: nat)
      requires used0 <= |input| && max <= rds.Length && b.Valid()
      requires p0.context == START && Inv(p0, max) && b.Agree(p0)
      requires Agree(p0, START, 0, 0, NUL, rds, sent0)
      modifies this`ack, this`sent, this`reactionMs, b.vendor, b.ident, b.code, b.value, b.unit, b.endseq, rds
      ensures used <= |input|
      ensures var r := RunFrom(p0, input[used0..], autoAck, max);
              && Inv(r.outcome.p, max) && r.rest == input[used..]
              && Agree(r.outcome.p, r.outcome.p.context, |r.outcome.p.cur|, n, r.outcome.p.baudrate, rds, sent0)
    {
      hide RunFrom, Step, Inv, Agree, Buffers.Agree, Limit;
      var context, baudrate, stop := START, NUL, false;
      var it: nat := 0;
      n, used := 0, used0;
      ghost var p, all := p0, RunFrom(p0, input[used0..], autoAck, max);
      while !stop && used < |input|
        invariant used <= |input| && Inv(p, max)
        invariant Agree(p, context, it, n, baudrate, rds, sent0) && (!stop ==> b.Agree(p))
        invariant if stop then all.outcome.p == p && all.rest == input[used..]
                  else RunFrom(p, input[used..], autoAck, max) == all
      {
        var byte := input[used];
        StepKeepsInv(p, byte, autoAck, max);
        RunUnfold(p, input[used..], autoAck, max);
        assert input[used..][0] == byte && input[used..][1..] == input[used + 1..];
        used := used + 1;
        context, it, n, baudrate, stop := TakeByte(byte, context, it, n, baudrate, b, rds, max, p, sent0);
        p := Step(p, byte, autoAck, max).p;
      }
      if !stop {
        assert input[used..] == "";
        RunDry(p, autoAck, max);
      }
      AgreeScalars(p, context, it, n, baudrate, rds, sent0);
    }

    lemma AgreeScalars(p: Parser, context: Context, it: nat, n: nat, baudrate: char, rds: array<Tuple>,
                       sent0: seq<string>)
      requires Agree(p, context, it, n, baudrate, rds, sent0)
      ensures context == p.context && it == |p.cur| && baudrate == p.baudrate
    {
    }

    /** Reads until the end mark, an error, or until the stream is dry (the timeout). Returns the number
        of readings stored and of bytes taken from the stream. */
    method Read(input: string, rds: array<Tuple>, max: nat) returns (n: nat, used: nat)
      requires max <= rds.Length
      modifies this, rds
      ensures var r := ReadSpec(old(waitSyncEnd), old(ack), old(reactionMs), autoAck, input, max);
              && n == |r.outcome.p.tuples| <= max && rds[..n] == r.outcome.p.tuples
              && used == |input| - |r.rest|
              && ack == r.outcome.p.ack && reactionMs == r.outcome.p.reactionMs
              && sent == old(sent) + r.outcome.p.sent
      ensures waitSyncEnd == (old(waitSyncEnd) && SkipToSync(input, 0).1)
    {
      hide RunFrom, SkipToSync, Step;
      used := SkipSync(input);
      ghost var p := Start(ack, reactionMs);
      ghost var r := RunFrom(p, input[used..], autoAck, max);
      assert rds[..0] == [] && Agree(p, START, 0, 0, NUL, rds, sent);
      var b := new Buffers();
      n, used := ReadLoop(input, used, b, rds, max, p, old(sent));
      assert |r.outcome.p.tuples| <= max;
    }

    method SkipSync(input: string) returns (used: nat)
      modifies this`waitSyncEnd
      ensures used <= |input|
      ensures input[used..] == if old(waitSyncEnd) then SkipToSync(input, 0).0 else input
      ensures waitSyncEnd == (old(waitSyncEnd) && SkipToSync(input, 0).1)
    {
      used := 0;
      assert input[0..] == input;
      if waitSyncEnd {
        var skipped := 0;
        while waitSyncEnd && used < |input|
          invariant used <= |input|
          invariant waitSyncEnd ==> SkipToSync(input, 0) == SkipToSync(input[used..], skipped)
          invariant !waitSyncEnd ==> SkipToSync(input, 0) == (input[used..], false)
        {
          var byte := input[used];
          assert input[used..][1..] == input[used + 1..];
          used := used + 1;
          if byte == '!' {
            waitSyncEnd := false;
          } else {
            skipped := skipped + 1;
            if skipped > D0_BUFFER_LENGTH { waitSyncEnd := false; }
          }
        }
        assert used == |input| ==> input[used..] == "";
      }
    }
  }

  lemma RetargetKeepsInv(p: Parser, byte: char, max: nat)
    requires Inv(p, max)
    ensures Inv(Retarget(p, byte), max)
    ensures Retarget(p, byte).context == START ==> byte != '/'
  {
  }

  /** Contexts a byte can lead to, by the part of the telegram it belongs to. */
  lemma DispatchContexts(p: Parser, byte: char, auto: bool, max: nat)
    requires Inv(p, max)
    ensures var o := Dispatch(p, byte, auto, max);
            if p.context == END then o == StepEnd(p, byte)
            else if p.context in {OBIS_CODE, VALUE, UNIT} then
              o.Next? && o.p.context in {OBIS_CODE, VALUE, UNIT}
            else
              && !o.Done? && o.p.context in {START, VENDOR, BAUDRATE, IDENTIFICATION, ACK, OBIS_CODE}
              && (o.p.context == OBIS_CODE ==> o.p.cur == "")
  {
    hide LineTuple;
  }

  lemma RunUnfold(p: Parser, input: string, auto: bool, max: nat)
    requires input != ""
    ensures var o := Step(p, input[0], auto, max);
            RunFrom(p, input, auto, max) ==
            if o.Next? then RunFrom(o.p, input[1..], auto, max) else Run(o, input[1..])
  {
  }

  lemma RunDry(p: Parser, auto: bool, max: nat)
    ensures RunFrom(p, "", auto, max) == Run(Next(p), "")
  {
  }
}
