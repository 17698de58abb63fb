/** OBIS identifiers: the text parser, the printer and the alias table of src/Obis.cpp. */
module Obis {
  import opened Common

  type Byte = n: int | 0 <= n <= 255

  type Id = s: seq<Byte> | |s| == 6 witness [255, 255, 255, 255, 255, 255]

  const NOT_GIVEN: Id := [255, 255, 255, 255, 255, 255]

  // Positions of the value groups.
  const A := 0
  const B := 1
  const C := 2
  const D := 3
  const E := 4
  const F := 5

  // ------------------------------------------------------------------ the scanner

  /** Variables of the parse loop: the bytes, the last finished group, and the group being read. */
  datatype Scan = Scan(raw: Id, field: int, num: int, digit: int, special: bool)

  datatype ScanResult = Scanned(scan: Scan) | Rejected(raw: Id)

  const SCAN_START := Scan(NOT_GIVEN, -1, 0, 0, false)

  predicate IsDigit(c: char) { '0' <= c <= '9' }

  predicate IsLetter(c: char) { c == 'C' || c == 'F' || c == 'L' || c == 'P' }

  function LetterCode(c: char): int
    requires IsLetter(c)
  {
    if c == 'C' then 96 else if c == 'F' then 97 else if c == 'L' then 98 else 99
  }

  /** The group a separator ends, or -1 when it may not stand after group `field`. */
  function FieldAfter(field: int, sep: char): (r: int)
    requires -1 <= field <= E
    ensures r != -1 ==> field < r <= E
  {
    if sep == '-' && field < A then A
    else if sep == ':' && field < B then B
    else if sep == '.' && field < D then (if field < C then C else D)
    else if (sep == '*' || sep == '&') && field == D then E
    else -1
  }

  ghost predicate ScanInv(s: Scan) { -1 <= s.field <= E }

  function ScanByte(s: Scan, c: char): (r: ScanResult)
    requires ScanInv(s)
    ensures r.Scanned? ==> ScanInv(r.scan) && s.field <= r.scan.field
  {
    var digit := s.digit + 1;
    if IsDigit(c) then
      if s.special then Rejected(s.raw)
      else Scanned(s.(num := Int32(s.num * 10 + (c as int - '0' as int)), digit := digit))
    else if IsLetter(c) then
      if digit > 1 then Rejected(s.raw)
      else Scanned(s.(num := LetterCode(c), digit := digit, special := true))
    else
      var field := FieldAfter(s.field, c);
      if field == -1 || s.num < 0 || s.num > 255 then Rejected(s.raw)
      else Scanned(Scan(s.raw[field := s.num], field, 0, 0, false))
  }

  function ScanFrom(s: Scan, str: string): (r: ScanResult)
    requires ScanInv(s)
    ensures r.Scanned? ==> ScanInv(r.scan) && s.field <= r.scan.field
    decreases |str|
  {
    if str == "" then Scanned(s)
    else
      var r := ScanByte(s, str[0]);
      if r.Rejected? then r else ScanFrom(r.scan, str[1..])
  }

  /** Outcome of parsing: whether it succeeded and what the six bytes then hold. */
  datatype Parsed = Parsed(ok: bool, raw: Id)

  /** The last group is stored without a range check, so only its low byte is kept. */
  function Finish(r: ScanResult): Parsed
    requires r.Scanned? ==> ScanInv(r.scan)
  {
    match r
    case Rejected(raw) => Parsed(false, raw)
    case Scanned(s) => Parsed(s.field + 1 >= D, s.raw[s.field + 1 := s.num % 256])
  }

  function ParseText(str: string): Parsed {
    Finish(ScanFrom(SCAN_START, str))
  }

  // ------------------------------------------------------------------ the reference grammar

  predicate InGroup(c: char) { IsDigit(c) || IsLetter(c) }

  predicate AllDigits(s: string) { forall i :: 0 <= i < |s| ==> IsDigit(s[i]) }

  /** A group is a run of digits, possibly empty, or one special letter. */
  predicate GroupOk(g: string) {
    AllDigits(g) || (|g| == 1 && IsLetter(g[0]))
  }

  /** Decimal value as a 32-bit int accumulates it, starting from n. */
  function DigitsFrom(n: int, s: string): int
    requires AllDigits(s)
    decreases |s|
  {
    if s == "" then n else DigitsFrom(Int32(n * 10 + (s[0] as int - '0' as int)), s[1..])
  }

  function GroupValue(g: string): int
    requires GroupOk(g)
  {
    if AllDigits(g) then DigitsFrom(0, g) else LetterCode(g[0])
  }

  /** A text cut at every character that cannot belong to a group. */
  datatype Cut = Cut(groups: seq<string>, seps: string)

  function CutText(str: string): (r: Cut)
    ensures |r.groups| == |r.seps| + 1
  {
    if str == "" then Cut([""], "")
    else
      var rest := CutText(str[1..]);
      if InGroup(str[0]) then Cut([[str[0]] + rest.groups[0]] + rest.groups[1..], rest.seps)
      else Cut([""] + rest.groups, [str[0]] + rest.seps)
  }

  // Separators allowed after group D, C, B, A and at the start: -? :? . ( . [*&]? )?
  predicate AfterD(seps: string) { seps == "" || (|seps| == 1 && (seps[0] == '*' || seps[0] == '&')) }

  predicate AfterC(seps: string) { seps == "" || (seps[0] == '.' && AfterD(seps[1..])) }

  predicate AfterB(seps: string) { seps != "" && seps[0] == '.' && AfterC(seps[1..]) }

  predicate AfterA(seps: string) { AfterB(seps) || (seps != "" && seps[0] == ':' && AfterB(seps[1..])) }

  /** Separator patterns of A-B:C.D.E*F with A, B, E and F optional. */
  predicate SepsOk(seps: string) { AfterA(seps) || (seps != "" && seps[0] == '-' && AfterA(seps[1..])) }

  /** Number of separators before the first dot. */
  function Lead(seps: string): (n: nat)
    ensures n <= |seps|
  {
    if seps != "" && (seps[0] == '-' || seps[0] == ':') then 1 + Lead(seps[1..]) else 0
  }

  /** Group that the i-th piece belongs to: from the first dot on they are C, D, E and F in order. */
  function GroupAt(seps: string, i: nat): int
    requires i <= |seps|
  {
    if i >= Lead(seps) then C + (i - Lead(seps)) else if seps[i] == '-' then A else B
  }

  ghost predicate InRange(g: string) {
    GroupOk(g) && 0 <= GroupValue(g) <= 255
  }

  /** Every piece is a group and all but the last fit a byte. */
  ghost predicate GroupsOk(groups: seq<string>)
    requires |groups| > 0
  {
    && (forall i :: 0 <= i < |groups| - 1 ==> InRange(groups[i]))
    && GroupOk(groups[|groups| - 1])
  }

  /** Separators that may still follow group `field`. */
  predicate SepsFrom(field: int, seps: string)
    requires -1 <= field <= E
  {
    if field == -1 then SepsOk(seps)
    else if field == A then AfterA(seps)
    else if field == B then AfterB(seps)
    else if field == C then AfterC(seps)
    else if field == D then AfterD(seps)
    else seps == ""
  }

  lemma SepsStep(field: int, seps: string)
    requires -1 <= field <= E && seps != ""
    ensures SepsFrom(field, seps) <==>
            FieldAfter(field, seps[0]) != -1 && SepsFrom(FieldAfter(field, seps[0]), seps[1..])
  {
  }

  /** Group that piece i belongs to when the pieces before it ended group `field`. */
  function Position(field: int, seps: string, i: nat): int
    requires -1 <= field <= E && i <= |seps|
    decreases i
  {
    if seps == "" then field + 1
    else
      var next := FieldAfter(field, seps[0]);
      if i == 0 || next == -1 then next else Position(next, seps[1..], i - 1)
  }

  ghost predicate Fresh(s: Scan) {
    ScanInv(s) && s.num == 0 && s.digit == 0 && !s.special
  }

  lemma {:induction false} ScanDigits(s: Scan, g: string, rest: string)
    requires ScanInv(s) && !s.special && AllDigits(g)
    ensures ScanFrom(s, g + rest) ==
            ScanFrom(s.(num := DigitsFrom(s.num, g), digit := s.digit + |g|), rest)
    decreases |g|
  {
    if g == "" {
      assert g + rest == rest;
    } else {
      var s1 := ScanByte(s, g[0]).scan;
      assert (g + rest)[1..] == g[1..] + rest;
      assert ScanFrom(s, g + rest) == ScanFrom(s1, g[1..] + rest);
      ScanDigits(s1, g[1..], rest);
      assert DigitsFrom(s.num, g) == DigitsFrom(s1.num, g[1..]);
    }
  }

  /** A letter after a digit, or anything after a letter, is rejected. */
  lemma {:induction false} ScanBadTail(s: Scan, g: string, rest: string)
    requires ScanInv(s) && s.digit >= 1 && g != "" && (s.special || !AllDigits(g))
    requires forall i :: 0 <= i < |g| ==> InGroup(g[i])
    ensures ScanFrom(s, g + rest) == Rejected(s.raw)
    decreases |g|
  {
    assert (g + rest)[1..] == g[1..] + rest;
    if !s.special && IsDigit(g[0]) {
      ScanBadTail(ScanByte(s, g[0]).scan, g[1..], rest);
    }
  }

  /** A group that is not all digits: one letter, or rejected. */
  lemma ScanLetterGroup(s: Scan, g: string, rest: string)
    requires Fresh(s) && !AllDigits(g)
    requires forall i :: 0 <= i < |g| ==> InGroup(g[i])
    ensures if |g| == 1 then
              IsLetter(g[0]) &&
              ScanFrom(s, g + rest) == ScanFrom(s.(num := LetterCode(g[0]), digit := 1, special := true), rest)
            else ScanFrom(s, g + rest) == Rejected(s.raw)
  {
    var r1 := ScanByte(s, g[0]);
    assert (g + rest)[1..] == g[1..] + rest;
    assert ScanFrom(s, g + rest) == ScanFrom(r1.scan, g[1..] + rest);
    if |g| == 1 {
      assert g[1..] + rest == rest;
    } else {
      ScanBadTail(r1.scan, g[1..], rest);
    }
  }

  /** A whole group is either read to its value or rejected. */
  lemma ScanGroup(s: Scan, g: string, rest: string)
    requires Fresh(s)
    requires forall i :: 0 <= i < |g| ==> InGroup(g[i])
    ensures GroupOk(g) ==>
              var read := s.(num := GroupValue(g), digit := |g|, special := !AllDigits(g));
              ScanFrom(s, g + rest) == ScanFrom(read, rest)
    ensures !GroupOk(g) ==> ScanFrom(s, g + rest) == Rejected(s.raw)
  {
    if AllDigits(g) {
      ScanDigits(s, g, rest);
    } else {
      ScanLetterGroup(s, g, rest);
    }
  }

  /** The first piece of a text: all of it, or everything up to the first separator. */
  lemma {:induction false} CutHead(str: string)
    ensures var cut := CutText(str);
            && (forall i :: 0 <= i < |cut.groups[0]| ==> InGroup(cut.groups[0][i]))
            && (cut.seps == "" ==> str == cut.groups[0] && |cut.groups| == 1)
            && (cut.seps != "" ==>
                  var k := |cut.groups[0]|;
                  && k < |str| && str == cut.groups[0] + [cut.seps[0]] + str[k + 1..]
                  && !InGroup(cut.seps[0])
                  && CutText(str[k + 1..]) == Cut(cut.groups[1..], cut.seps[1..]))
  {
    if str != "" && InGroup(str[0]) {
      CutHead(str[1..]);
      var cut := CutText(str);
      if cut.seps != "" {
        var k := |cut.groups[0]|;
        assert str[1..][k..] == str[k + 1..];
      }
    }
  }

  /** Bytes stored for the pieces from index i on. */
  ghost predicate Stored(before: Id, after: Id, field: int, groups: seq<string>, seps: string)
    requires -1 <= field <= E && SepsFrom(field, seps)
    requires |groups| == |seps| + 1 && GroupsOk(groups)
  {
    && (forall i :: 0 <= i <= |seps| ==>
          && field < Position(field, seps, i) <= 5
          && after[Position(field, seps, i)] == GroupValue(groups[i]) % 256)
    && (forall k :: 0 <= k < 6 && (forall i :: 0 <= i <= |seps| ==> k != Position(field, seps, i))
          ==> after[k] == before[k])
  }

  /** A piece and the separator after it: stored, or the whole text is rejected. */
  lemma ScanPiece(s: Scan, g: string, sep: char, rest: string)
    requires Fresh(s) && !InGroup(sep)
    requires forall i :: 0 <= i < |g| ==> InGroup(g[i])
    ensures var field := FieldAfter(s.field, sep);
            if InRange(g) && field != -1 then
              ScanFrom(s, g + [sep] + rest) ==
              ScanFrom(Scan(s.raw[field := GroupValue(g)], field, 0, 0, false), rest)
            else ScanFrom(s, g + [sep] + rest).Rejected?
  {
    assert g + [sep] + rest == g + ([sep] + rest);
    assert ([sep] + rest)[1..] == rest;
    ScanGroup(s, g, [sep] + rest);
  }

  /** The last piece is stored when the text ends. */
  lemma ScanLast(s: Scan, g: string)
    requires Fresh(s)
    requires forall i :: 0 <= i < |g| ==> InGroup(g[i])
    ensures if GroupOk(g) then
              Finish(ScanFrom(s, g)) == Parsed(s.field + 1 >= D, s.raw[s.field + 1 := GroupValue(g) % 256])
            else !Finish(ScanFrom(s, g)).ok
  {
    assert g + "" == g;
    ScanGroup(s, g, "");
  }

  lemma {:induction false} ScanCut(s: Scan, str: string)
    requires Fresh(s)
    ensures var cut := CutText(str); var r := Finish(ScanFrom(s, str));
            && (r.ok <==> SepsFrom(s.field, cut.seps) && GroupsOk(cut.groups))
            && (r.ok ==> Stored(s.raw, r.raw, s.field, cut.groups, cut.seps))
    decreases |str|
  {
    var cut := CutText(str);
    var g := cut.groups[0];
    CutHead(str);
    if cut.seps == "" {
      ScanLast(s, g);
      assert Position(s.field, "", 0) == s.field + 1;
    } else {
      var sep, rest := cut.seps[0], str[|g| + 1..];
      var next := FieldAfter(s.field, sep);
      ScanPiece(s, g, sep, rest);
      SepsStep(s.field, cut.seps);
      CutGroupsOk(cut);
      if InRange(g) && next != -1 {
        var s1 := Scan(s.raw[next := GroupValue(g)], next, 0, 0, false);
        ScanCut(s1, rest);
        if SepsFrom(s.field, cut.seps) && GroupsOk(cut.groups) {
          StoredStep(s.raw, s1.raw, Finish(ScanFrom(s, str)).raw, s.field, cut.groups, cut.seps);
        }
      }
    }
  }

  lemma CutGroupsOk(cut: Cut)
    requires |cut.groups| == |cut.seps| + 1 && cut.seps != ""
    ensures GroupsOk(cut.groups) <==> InRange(cut.groups[0]) && GroupsOk(cut.groups[1..])
  {
    var tail := cut.groups[1..];
    if InRange(cut.groups[0]) && GroupsOk(tail) {
      forall i | 0 <= i < |cut.groups| - 1 ensures InRange(cut.groups[i]) {
        if i > 0 { assert cut.groups[i] == tail[i - 1]; }
      }
    }
  }

  lemma StoredStep(before: Id, mid: Id, after: Id, field: int, groups: seq<string>, seps: string)
    requires -1 <= field <= E && seps != "" && SepsFrom(field, seps)
    requires |groups| == |seps| + 1 && GroupsOk(groups) && GroupsOk(groups[1..])
    requires FieldAfter(field, seps[0]) != -1 && SepsFrom(FieldAfter(field, seps[0]), seps[1..])
    requires mid == before[FieldAfter(field, seps[0]) := GroupValue(groups[0])]
    requires Stored(mid, after, FieldAfter(field, seps[0]), groups[1..], seps[1..])
    ensures Stored(before, after, field, groups, seps)
  {
    hide GroupValue, FieldAfter;
    forall i | 0 <= i <= |seps|
      ensures field < Position(field, seps, i) <= 5
      ensures after[Position(field, seps, i)] == GroupValue(groups[i]) % 256
    {
      StoredAt(before, mid, after, field, groups, seps, i);
    }
    forall k | 0 <= k < 6 && (forall i :: 0 <= i <= |seps| ==> k != Position(field, seps, i))
      ensures after[k] == before[k]
    {
      KeptElsewhere(before, mid, after, field, groups, seps, k);
    }
  }

  lemma StoredAt(before: Id, mid: Id, after: Id, field: int, groups: seq<string>, seps: string, i: nat)
    requires -1 <= field <= E && seps != "" && SepsFrom(field, seps)
    requires |groups| == |seps| + 1 && GroupsOk(groups) && GroupsOk(groups[1..])
    requires FieldAfter(field, seps[0]) != -1 && SepsFrom(FieldAfter(field, seps[0]), seps[1..])
    requires mid == before[FieldAfter(field, seps[0]) := GroupValue(groups[0])]
    requires Stored(mid, after, FieldAfter(field, seps[0]), groups[1..], seps[1..])
    requires i <= |seps|
    ensures field < Position(field, seps, i) <= 5
    ensures after[Position(field, seps, i)] == GroupValue(groups[i]) % 256
  {
    hide GroupValue, GroupOk;
    var next := FieldAfter(field, seps[0]);
    if i > 0 {
      assert Position(field, seps, i) == Position(next, seps[1..], i - 1);
      assert groups[i] == groups[1..][i - 1];
    } else {
      assert InRange(groups[0]);
      forall j | 0 <= j <= |seps[1..]| ensures next != Position(next, seps[1..], j) {}
      assert after[next] == mid[next];
      SmallMod(GroupValue(groups[0]), 256);
    }
  }

  lemma KeptElsewhere(before: Id, mid: Id, after: Id, field: int, groups: seq<string>, seps: string, k: nat)
    requires -1 <= field <= E && seps != "" && SepsFrom(field, seps)
    requires |groups| == |seps| + 1 && GroupsOk(groups) && GroupsOk(groups[1..])
    requires FieldAfter(field, seps[0]) != -1 && SepsFrom(FieldAfter(field, seps[0]), seps[1..])
    requires mid == before[FieldAfter(field, seps[0]) := GroupValue(groups[0])]
    requires Stored(mid, after, FieldAfter(field, seps[0]), groups[1..], seps[1..])
    requires k < 6 && forall i :: 0 <= i <= |seps| ==> k != Position(field, seps, i)
    ensures after[k] == before[k]
  {
    hide GroupValue;
    var next := FieldAfter(field, seps[0]);
    assert k != Position(field, seps, 0);
    forall j | 0 <= j <= |seps[1..]| ensures k != Position(next, seps[1..], j) {
      assert k != Position(field, seps, j + 1);
    }
  }

  lemma {:induction false} PositionTail(field: int, seps: string, i: nat)
    requires C <= field <= E && SepsFrom(field, seps) && i <= |seps|
    ensures Position(field, seps, i) == field + 1 + i
    decreases |seps|
  {
    if seps != "" {
      SepsStep(field, seps);
      if i > 0 { PositionTail(FieldAfter(field, seps[0]), seps[1..], i - 1); }
    }
  }

  lemma {:induction false} PositionIsGroupAt(field: int, seps: string, i: nat)
    requires -1 <= field <= B && SepsFrom(field, seps) && i <= |seps|
    ensures Position(field, seps, i) == GroupAt(seps, i)
    decreases |seps|
  {
    SepsStep(field, seps);
    var next := FieldAfter(field, seps[0]);
    if i > 0 {
      if seps[0] == '.' {
        PositionTail(C, seps[1..], i - 1);
      } else {
        PositionIsGroupAt(next, seps[1..], i - 1);
      }
    }
  }

  /** What a cut text means, without the scanner. */
  ghost predicate Denotes(r: Parsed, cut: Cut)
    requires |cut.groups| == |cut.seps| + 1
  {
    && (r.ok <==> SepsOk(cut.seps) && GroupsOk(cut.groups))
    && (r.ok ==>
          && (forall i :: 0 <= i <= |cut.seps| ==>
                && 0 <= GroupAt(cut.seps, i) < 6
                && r.raw[GroupAt(cut.seps, i)] == GroupValue(cut.groups[i]) % 256)
          && (forall k :: 0 <= k < 6 && (forall i :: 0 <= i <= |cut.seps| ==> k != GroupAt(cut.seps, i))
                ==> r.raw[k] == 255))
  }

  /** The parser accepts exactly the texts of the grammar, and stores each piece in its group. */
  lemma ParseReference(str: string)
    ensures Denotes(ParseText(str), CutText(str))
  {
    ScanCut(SCAN_START, str);
    var cut := CutText(str);
    if SepsOk(cut.seps) {
      forall i | 0 <= i <= |cut.seps| ensures Position(-1, cut.seps, i) == GroupAt(cut.seps, i) {
        PositionIsGroupAt(-1, cut.seps, i);
      }
    }
  }

  // ------------------------------------------------------------------ printing

  /** Decimal text of a number. */
  function Dec(n: nat): (s: string)
    ensures s != "" && AllDigits(s)
  {
    if n < 10 then [('0' as int + n) as char] else Dec(n / 10) + [('0' as int + n % 10) as char]
  }

  lemma {:induction false} DigitsSnoc(n: int, s: string, c: char)
    requires AllDigits(s) && IsDigit(c)
    ensures AllDigits(s + [c])
    ensures DigitsFrom(n, s + [c]) == Int32(DigitsFrom(n, s) * 10 + (c as int - '0' as int))
    decreases |s|
  {
    if s == "" {
      assert s + [c] == [c];
    } else {
      assert (s + [c])[1..] == s[1..] + [c];
      DigitsSnoc(Int32(n * 10 + (s[0] as int - '0' as int)), s[1..], c);
    }
  }

  lemma {:induction false} DecValue(n: nat)
    requires n < TWO31
    ensures DigitsFrom(0, Dec(n)) == n
  {
    if n >= 10 {
      DecValue(n / 10);
      DigitsSnoc(0, Dec(n / 10), ('0' as int + n % 10) as char);
    } else {
      var s := Dec(n);
      assert s[1..] == "";
    }
  }

  /** A value group as a meter prints it: a number or a special letter. */
  datatype Group = Number(n: int) | Letter(c: char)

  predicate GroupValid(g: Group) {
    match g
    case Number(n) => 0 <= n <= 255
    case Letter(c) => IsLetter(c)
  }

  function GroupText(g: Group): (s: string)
    requires GroupValid(g)
    ensures s != "" && GroupOk(s)
  {
    match g
    case Number(n) => Dec(n)
    case Letter(c) => [c]
  }

  function GroupCode(g: Group): Byte
    requires GroupValid(g)
  {
    match g
    case Number(n) => n
    case Letter(c) => LetterCode(c)
  }

  /** The code A-B:C.D.E*F; only C and D are mandatory and F needs E. */
  datatype Code = Code(a: Option<Group>, b: Option<Group>, c: Group, d: Group,
                       e: Option<Group>, f: Option<Group>, ampersand: bool)

  predicate OptionValid(g: Option<Group>) { g.Some? ==> GroupValid(g.value) }

  predicate CodeValid(k: Code) {
    && OptionValid(k.a) && OptionValid(k.b) && GroupValid(k.c) && GroupValid(k.d)
    && OptionValid(k.e) && OptionValid(k.f) && (k.f.Some? ==> k.e.Some?)
  }

  type ValidCode = k: Code | CodeValid(k) witness Code(None, None, Number(1), Number(8), None, None, false)

  function OptionCode(g: Option<Group>): Byte
    requires OptionValid(g)
  {
    if g.Some? then GroupCode(g.value) else 255
  }

  function CodeId(k: Code): Id
    requires CodeValid(k)
  {
    [OptionCode(k.a), OptionCode(k.b), GroupCode(k.c), GroupCode(k.d), OptionCode(k.e), OptionCode(k.f)]
  }

  // Text of a code from group E, D, C, B and A on.
  function TextE(k: Code): string
    requires CodeValid(k) && k.e.Some?
  {
    GroupText(k.e.value) +
    (if k.f.None? then "" else [if k.ampersand then '&' else '*'] + GroupText(k.f.value))
  }

  function TextD(k: Code): string
    requires CodeValid(k)
  {
    GroupText(k.d) + (if k.e.None? then "" else ['.'] + TextE(k))
  }

  function TextC(k: Code): string
    requires CodeValid(k)
  {
    GroupText(k.c) + (['.'] + TextD(k))
  }

  function TextB(k: Code): string
    requires CodeValid(k)
  {
    if k.b.None? then TextC(k) else GroupText(k.b.value) + ([':'] + TextC(k))
  }

  function CodeText(k: Code): string
    requires CodeValid(k)
  {
    if k.a.None? then TextB(k) else GroupText(k.a.value) + (['-'] + TextB(k))
  }

  /** Text of all six bytes, as toString and unparse print it. */
  function IdText(o: Id): string {
    Dec(o[0]) + "-" + Dec(o[1]) + ":" + Dec(o[2]) + "." + Dec(o[3]) + "." + Dec(o[4]) + "*" + Dec(o[5])
  }

  lemma GroupTextValue(g: Group)
    requires GroupValid(g)
    ensures InRange(GroupText(g)) && GroupValue(GroupText(g)) == GroupCode(g)
  {
    if g.Number? { DecValue(g.n); }
  }

  /** Scanning one printed group and the separator behind it. */
  lemma ScanPrinted(s: Scan, g: Group, sep: char, rest: string)
    requires Fresh(s) && GroupValid(g) && !InGroup(sep) && FieldAfter(s.field, sep) != -1
    ensures var field := FieldAfter(s.field, sep);
            ScanFrom(s, GroupText(g) + ([sep] + rest)) ==
            ScanFrom(Scan(s.raw[field := GroupCode(g)], field, 0, 0, false), rest)
  {
    hide GroupText, GroupValue, ScanFrom;
    GroupTextValue(g);
    ScanPiece(s, GroupText(g), sep, rest);
    assert GroupText(g) + [sep] + rest == GroupText(g) + ([sep] + rest);
  }

  lemma LastPrinted(s: Scan, g: Group)
    requires Fresh(s) && GroupValid(g)
    ensures Finish(ScanFrom(s, GroupText(g))) == Parsed(s.field + 1 >= D, s.raw[s.field + 1 := GroupCode(g)])
  {
    hide GroupText, GroupValue, ScanFrom;
    GroupTextValue(g);
    ScanLast(s, GroupText(g));
  }

  lemma ParseTextE(raw: Id, k: Code)
    requires CodeValid(k) && k.e.Some?
    ensures Finish(ScanFrom(Scan(raw, D, 0, 0, false), TextE(k))) ==
            Parsed(true, raw[E := OptionCode(k.e)][F := if k.f.Some? then OptionCode(k.f) else raw[F]])
  {
    var s := Scan(raw, D, 0, 0, false);
    if k.f.None? {
      assert TextE(k) == GroupText(k.e.value);
      LastPrinted(s, k.e.value);
    } else {
      ScanPrinted(s, k.e.value, if k.ampersand then '&' else '*', GroupText(k.f.value));
      LastPrinted(Scan(raw[E := OptionCode(k.e)], E, 0, 0, false), k.f.value);
    }
  }

  lemma ParseTextD(raw: Id, k: Code)
    requires CodeValid(k) && raw[E] == raw[F] == 255
    ensures Finish(ScanFrom(Scan(raw, C, 0, 0, false), TextD(k))) ==
            Parsed(true, raw[D := GroupCode(k.d)][E := OptionCode(k.e)][F := OptionCode(k.f)])
  {
    var s := Scan(raw, C, 0, 0, false);
    if k.e.None? {
      assert TextD(k) == GroupText(k.d);
      LastPrinted(s, k.d);
      assert raw[D := GroupCode(k.d)] == raw[D := GroupCode(k.d)][E := 255][F := 255];
    } else {
      ScanPrinted(s, k.d, '.', TextE(k));
      ParseTextE(raw[D := GroupCode(k.d)], k);
    }
  }

  lemma ParseTextC(s: Scan, k: Code)
    requires CodeValid(k) && Fresh(s) && s.field <= B
    requires forall i :: C <= i <= F ==> s.raw[i] == 255
    ensures Finish(ScanFrom(s, TextC(k))) == Parsed(true, CodeId(k)[A := s.raw[A]][B := s.raw[B]])
  {
    ScanPrinted(s, k.c, '.', TextD(k));
    ParseTextD(s.raw[C := GroupCode(k.c)], k);
  }

  lemma ParseTextB(s: Scan, k: Code)
    requires CodeValid(k) && Fresh(s) && s.field <= A
    requires forall i :: B <= i <= F ==> s.raw[i] == 255
    ensures Finish(ScanFrom(s, TextB(k))) == Parsed(true, CodeId(k)[A := s.raw[A]])
  {
    if k.b.None? {
      ParseTextC(s, k);
    } else {
      ScanPrinted(s, k.b.value, ':', TextC(k));
      ParseTextC(Scan(s.raw[B := GroupCode(k.b.value)], B, 0, 0, false), k);
    }
  }

  /** Parsing undoes printing, for every combination of omitted groups: those read back as 255. */
  lemma ParseCodeText(k: Code)
    requires CodeValid(k)
    ensures ParseText(CodeText(k)) == Parsed(true, CodeId(k))
  {
    if k.a.None? {
      ParseTextB(SCAN_START, k);
    } else {
      ScanPrinted(SCAN_START, k.a.value, '-', TextB(k));
      ParseTextB(Scan(NOT_GIVEN[A := GroupCode(k.a.value)], A, 0, 0, false), k);
    }
  }

  predicate CodeChar(c: char) {
    InGroup(c) || c == '-' || c == ':' || c == '.' || c == '*' || c == '&'
  }

  predicate CodeChars(s: string) {
    s != "" && InGroup(s[0]) && forall i :: 0 <= i < |s| ==> CodeChar(s[i])
  }

  lemma GroupChars(g: Group)
    requires GroupValid(g)
    ensures CodeChars(GroupText(g))
  {
  }

  lemma ChainChars(g: Group, sep: char, rest: string)
    requires GroupValid(g) && CodeChar(sep) && CodeChars(rest)
    ensures CodeChars(GroupText(g) + ([sep] + rest))
  {
  }

  /** Printed codes consist of groups and separators and start with a group. */
  lemma CodeTextChars(k: Code)
    requires CodeValid(k)
    ensures CodeChars(CodeText(k))
  {
    hide GroupText;
    if k.e.Some? {
      GroupChars(k.e.value);
      if k.f.Some? {
        GroupChars(k.f.value);
        ChainChars(k.e.value, if k.ampersand then '&' else '*', GroupText(k.f.value));
      } else {
        assert TextE(k) == GroupText(k.e.value);
      }
      ChainChars(k.d, '.', TextE(k));
    } else {
      GroupChars(k.d);
      assert TextD(k) == GroupText(k.d);
    }
    ChainChars(k.c, '.', TextD(k));
    if k.b.Some? { ChainChars(k.b.value, ':', TextC(k)); }
    if k.a.Some? { ChainChars(k.a.value, '-', TextB(k)); }
  }

  /** parse(toString(o)) == o for every six-byte identifier. */
  lemma ParseIdText(o: Id)
    ensures ParseText(IdText(o)) == Parsed(true, o)
  {
    var k := Code(Some(Number(o[0])), Some(Number(o[1])), Number(o[2]), Number(o[3]),
                  Some(Number(o[4])), Some(Number(o[5])), false);
    ParseCodeText(k);
    Regroup(Dec(o[0]), Dec(o[1]), Dec(o[2]), Dec(o[3]), Dec(o[4]), Dec(o[5]));
  }

  lemma Regroup(a: string, b: string, c: string, d: string, e: string, f: string)
    ensures a + "-" + b + ":" + c + "." + d + "." + e + "*" + f ==
            a + (['-'] + (b + ([':'] + (c + (['.'] + (d + (['.'] + (e + (['*'] + f)))))))))
  {
  }

  /** A number above 255 is refused in every group but the last, which keeps its low byte. */
  lemma LastGroupNotChecked(c: string, d: string, e: string)
    requires AllDigits(c) && AllDigits(d) && AllDigits(e) && InRange(c)
    ensures var r := ParseText(c + ['.'] + (d + ['.'] + e));
            if InRange(d) then r == Parsed(true, [255, 255, GroupValue(c), GroupValue(d), GroupValue(e) % 256, 255])
            else !r.ok
  {
    ScanPiece(SCAN_START, c, '.', d + ['.'] + e);
    var s1 := Scan(NOT_GIVEN[C := GroupValue(c)], C, 0, 0, false);
    ScanPiece(s1, d, '.', e);
    if InRange(d) {
      ScanLast(Scan(s1.raw[D := GroupValue(d)], D, 0, 0, false), e);
    }
  }

  /** What a group is, character by character, and the codes of the letters. */
  lemma GroupMeaning(g: string)
    ensures GroupOk(g) <==> (forall i :: 0 <= i < |g| ==> '0' <= g[i] <= '9') || g in {"C", "F", "L", "P"}
    ensures GroupValue("C") == 96 && GroupValue("F") == 97 && GroupValue("L") == 98 && GroupValue("P") == 99
  {
    if |g| == 1 { assert g == [g[0]]; }
    forall c | c in {"C", "F", "L", "P"} ensures !AllDigits(c) && |c| == 1 && IsLetter(c[0]) {
      assert !IsDigit(c[0]);
    }
    assert "C"[0] == 'C' && "F"[0] == 'F' && "L"[0] == 'L' && "P"[0] == 'P';
  }

  // ------------------------------------------------------------------ aliases

  /** Every name in the table starts with a lower-case letter. */
  type AliasName = s: string | s != "" && 'a' <= s[0] <= 'z' witness "a"

  datatype Alias = Alias(id: Id, name: AliasName)

  const GENERAL_ALIASES: seq<Alias> := [
    Alias([1, 0, 1, 7, 255, 255], "power"),
    Alias([1, 0, 21, 7, 255, 255], "power-l1"),
    Alias([1, 0, 41, 7, 255, 255], "power-l2"),
    Alias([1, 0, 61, 7, 255, 255], "power-l3"),
    Alias([1, 0, 12, 7, 255, 255], "voltage"),
    Alias([1, 0, 32, 7, 255, 255], "voltage-l1"),
    Alias([1, 0, 52, 7, 255, 255], "voltage-l2"),
    Alias([1, 0, 72, 7, 255, 255], "voltage-l3"),
    Alias([1, 0, 11, 7, 255, 255], "current"),
    Alias([1, 0, 31, 7, 255, 255], "current-l1"),
    Alias([1, 0, 51, 7, 255, 255], "current-l2"),
    Alias([1, 0, 71, 7, 255, 255], "current-l3"),
    Alias([1, 0, 14, 7, 0, 255], "frequency"),
    Alias([1, 0, 12, 7, 0, 255], "powerfactor"),
    Alias([0, 0, 96, 1, 255, 255], "device"),
    Alias([1, 0, 96, 5, 5, 255], "status"),
    Alias([1, 0, 1, 8, 255, 255], "counter"),
    Alias([1, 0, 2, 8, 255, 255], "counter-out")
  ]

  const METER_ALIASES: seq<Alias> := [
    Alias([1, 0, 1, 8, 1, 255], "esy-counter-t1"),
    Alias([1, 0, 1, 8, 2, 255], "esy-counter-t2"),
    Alias([1, 0, 0, 0, 0, 255], "hag-id"),
    Alias([1, 0, 96, 50, 0, 0], "hag-status"),
    Alias([1, 0, 96, 50, 0, 1], "hag-frequency"),
    Alias([1, 0, 96, 50, 0, 2], "hag-temp"),
    Alias([1, 0, 96, 50, 0, 3], "hag-temp-min"),
    Alias([1, 0, 96, 50, 0, 4], "hag-temp-avg"),
    Alias([1, 0, 96, 50, 0, 5], "hag-temp-max"),
    Alias([1, 0, 96, 50, 0, 6], "hag-check"),
    Alias([1, 0, 96, 50, 0, 7], "hag-diag"),
    Alias([255, 255, 16, 8, 0, 255], "lg-counter-et"),
    Alias([255, 255, 16, 8, 1, 255], "lg-counter-ht"),
    Alias([255, 255, 16, 8, 2, 255], "lg-counter-lt")
  ]

  const ALIASES: seq<Alias> := GENERAL_ALIASES + METER_ALIASES

  function FindAlias(aliases: seq<Alias>, name: string): Option<Id> {
    if aliases == [] then None
    else if aliases[0].name == name then Some(aliases[0].id)
    else FindAlias(aliases[1..], name)
  }

  /** The identifier a text stands for: its code, else its alias; None is the thrown exception. */
  function Resolve(str: string): Option<Id> {
    var r := ParseText(str);
    if r.ok then Some(r.raw) else FindAlias(ALIASES, str)
  }

  /** The lookup finds the first entry with the name, and nothing exactly if there is none. */
  lemma {:induction false} FindAliasByName(aliases: seq<Alias>, name: string) returns (k: nat)
    ensures k <= |aliases| && (forall i :: 0 <= i < k ==> aliases[i].name != name)
    ensures k < |aliases| ==> aliases[k].name == name && FindAlias(aliases, name) == Some(aliases[k].id)
    ensures k == |aliases| ==> FindAlias(aliases, name) == None
  {
    if aliases == [] || aliases[0].name == name {
      k := 0;
    } else {
      k := FindAliasByName(aliases[1..], name);
      k := k + 1;
      assert forall i :: 1 <= i < |aliases| ==> aliases[i] == aliases[1..][i - 1];
    }
  }

  /** The name of an alias resolves to its identifier, that of the first entry with the name. */
  lemma AliasResolves(k: nat)
    requires k < |ALIASES| && forall j :: 0 <= j < k ==> ALIASES[j].name != ALIASES[k].name
    ensures Resolve(ALIASES[k].name) == Some(ALIASES[k].id)
  {
    hide ALIASES;
    var name := ALIASES[k].name;
    assert ScanByte(SCAN_START, name[0]).Rejected?;
    var m := FindAliasByName(ALIASES, name);
  }

  /** A text that starts like a group is never an alias. */
  lemma NoAliasStartsWithGroup(str: string)
    requires str != "" && InGroup(str[0])
    ensures FindAlias(ALIASES, str) == None
    ensures Resolve(str) == (if ParseText(str).ok then Some(ParseText(str).raw) else None)
  {
    var k := FindAliasByName(ALIASES, str);
  }

  // ------------------------------------------------------------------ the class

  class Obis {
    const raw: array<Byte>

    ghost predicate Valid()
      reads this, raw
    {
      raw.Length == 6
    }

    ghost function Value(): Id
      reads this, raw
      requires Valid()
    {
      raw[..]
    }

    constructor NotGiven()
      ensures Valid() && fresh(raw) && Value() == NOT_GIVEN
    {
      raw := new Byte[6](_ => 255);
    }

    /** Byte-by-byte scan; on failure the bytes written so far stay. */
    method Parse(str: string) returns (ok: bool)
      requires Valid()
      modifies raw
      ensures Valid()
      ensures Parsed(ok, Value()) == ParseText(str)
    {
      var num, field, digit, hasSpecial := 0, -1, 0, false;
      for i := 0 to 6
        invariant forall k :: 0 <= k < i ==> raw[k] == 255
      {
        raw[i] := 255;
      }
      assert raw[..] == NOT_GIVEN;
      assert str[0..] == str;
      for i := 0 to |str|
        invariant Valid() && -1 <= field <= E
        invariant ScanFrom(Scan(Value(), field, num, digit, hasSpecial), str[i..]) == ScanFrom(SCAN_START, str)
      {
        var byte := str[i];
        ghost var before := Scan(Value(), field, num, digit, hasSpecial);
        assert str[i..][1..] == str[i + 1..];
        digit := digit + 1;
        if IsDigit(byte) {
          if hasSpecial { return false; }
          num := Int32(num * 10 + (byte as int - '0' as int));
        } else if byte == 'C' {
          num := 96;
          hasSpecial := true;
          if digit > 1 { return false; }
        } else if byte == 'F' {
          num := 97;
          hasSpecial := true;
          if digit > 1 { return false; }
        } else if byte == 'L' {
          num := 98;
          hasSpecial := true;
          if digit > 1 { return false; }
        } else if byte == 'P' {
          num := 99;
          hasSpecial := true;
          if digit > 1 { return false; }
        } else {
          if byte == '-' && field < A {
            field := A;
          } else if byte == ':' && field < B {
            field := B;
          } else if byte == '.' && field < D {
            field := if field < C then C else D;
          } else if (byte == '*' || byte == '&') && field == D {
            field := E;
          } else {
            return false;
          }
          if num < 0 || num > 255 { return false; }
          raw[field] := num;
          assert raw[..] == before.raw[field := num];
          num, digit, hasSpecial := 0, 0, false;
        }
        assert ScanByte(before, byte) == Scanned(Scan(Value(), field, num, digit, hasSpecial));
      }
      ghost var before := Value();
      assert str[|str|..] == "";
      field := field + 1;
      raw[field] := num % 256;
      assert raw[..] == before[field := num % 256];
      ok := field >= D;
    }

    method LookupAlias(aliases: seq<Alias>, name: string) returns (found: bool)
      requires Valid()
      modifies raw
      ensures Valid() && found == FindAlias(aliases, name).Some?
      ensures Value() == if found then FindAlias(aliases, name).value else old(Value())
    {
      assert aliases[0..] == aliases;
      for i := 0 to |aliases|
        invariant FindAlias(aliases, name) == FindAlias(aliases[i..], name)
        invariant raw[..] == old(raw[..])
      {
        assert aliases[i..][1..] == aliases[i + 1..];
        if aliases[i].name == name {
          forall k | 0 <= k < 6 { raw[k] := aliases[i].id[k]; }
          assert raw[..] == aliases[i].id;
          return true;
        }
      }
      assert aliases[|aliases|..] == [];
      found := false;
    }

    /** Construction from text: a code, else an alias, else the exception (ok is false). */
    method FromText(str: string) returns (ok: bool)
      requires Valid()
      modifies raw
      ensures Valid() && ok == Resolve(str).Some?
      ensures ok ==> Value() == Resolve(str).value
    {
      ok := Parse(str);
      if !ok {
        ok := LookupAlias(ALIASES, str);
      }
    }

    method Equals(other: Obis) returns (same: bool)
      requires Valid() && other.Valid()
      ensures same <==> Value() == other.Value()
    {
      for i := 0 to 6
        invariant forall k :: 0 <= k < i ==> raw[k] == other.raw[k]
      {
        if raw[i] < other.raw[i] || raw[i] > other.raw[i] {
          assert Value()[i] != other.Value()[i];
          return false;
        }
      }
      same := true;
    }
  }
}
