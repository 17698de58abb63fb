/** Decoding of needle dials and impulse counting, src/protocols/MeterOCR.cpp. */
module MeterOCR {
  import opened Common

  // ------------------------------------------------------------------ one dial

  /** Fractional part as modf gives it, with the sign of the value. */
  function Frac(x: real): real { x - Trunc(x) as real }

  /** Digit and confidence after rounding by the fraction of the smaller dials. */
  function RoundBySmaller(cur: int, fnr: real, smaller: real, conf: int): (int, int) {
    if smaller < 0.5 then
      var nnr := Trunc(fnr + 0.5 - smaller);
      if nnr != cur then (if nnr >= 10 then 0 else nnr, conf - 10) else (cur, conf)
    else
      var nnr := if fnr < smaller - 0.5 then 9 else Trunc(fnr - smaller + 0.5);
      if nnr != cur then (nnr, conf - 15) else (cur, conf)
  }

  /** A needle position within half a digit of its true place, on a dial of circumference 10. */
  ghost predicate Near(fnr: real, place: real) {
    || -0.5 <= fnr - place < 0.5
    || -0.5 <= fnr - place + 10.0 < 0.5
    || -0.5 <= fnr - place - 10.0 < 0.5
  }

  /** The positions the rounding misreads: exactly 10 with exactly one half below, and positions that were
      left below 0, unless they lie within half a digit of the mark 0 or are rounded down to 9. */
  predicate Corner(fnr: real, smaller: real) {
    || (fnr == 10.0 && smaller == 0.5)
    || (fnr < 0.0 && if smaller < 0.5 then fnr < smaller - 0.5 else fnr < smaller - 1.5)
  }

  predicate Whole(x: real) { x == x.Floor as real }

  /** Corners that are read as exactly ten less. */
  predicate Undershoot(fnr: real, smaller: real) {
    fnr < 0.0 && smaller < 0.5 && fnr < smaller - 0.5 && Whole(fnr + 0.5 - smaller)
  }

  /** A needle half a digit off is still read as its true digit, through both 9/0 wraps, if and only if it
      is not in a corner. A corner at 10 is read as ten more, an undershoot as ten less, any other one as
      a number with a wrong last digit. */
  lemma RoundExact(cur: int, fnr: real, smaller: real, conf: int, d: int)
    requires 0.0 <= smaller < 1.0 && 0 <= d <= 9 && fnr <= 10.0 && cur <= 9
    requires Near(fnr, d as real + smaller)
    ensures var r := RoundBySmaller(cur, fnr, smaller, conf).0;
            && (r == d <==> !Corner(fnr, smaller))
            && (Corner(fnr, smaller) && fnr == 10.0 ==> d == 0 && r == 10)
            && (Undershoot(fnr, smaller) ==> r == d - 10)
            && (Corner(fnr, smaller) && fnr < 0.0 && !Undershoot(fnr, smaller) ==> (r - d) % 10 != 0)
  {
    var x := if smaller < 0.5 then fnr + 0.5 - smaller else fnr - smaller + 0.5;
    if -0.5 <= fnr - (d as real + smaller) < 0.5 {
      assert d as real <= fnr + 0.5 - smaller < d as real + 1.0;
    }
  }

  /** New digit of a single dial, given the digit read last time. */
  function Debounce(prev: int, fnew: real): int {
    var inew := Trunc(fnew);
    if prev == 0 then
      if inew == 9 && fnew > 9.5 then 0
      else if inew == 1 && fnew < 1.5 then 0
      else inew
    else if prev == 9 then
      if inew == 0 && fnew < 0.5 then 9
      else if inew == 8 && fnew >= 8.5 then 9
      else inew
    else if fnew > prev as real then
      if fnew - prev as real < 1.5 then prev else inew
    else
      if prev as real - fnew < 0.5 then prev else inew
  }

  /** How far the needle is ahead of the old digit, around the dial. */
  function Ahead(prev: int, fnew: real): real {
    var x := fnew - (prev % 10) as real;
    if x < -5.0 then x + 10.0 else if x >= 5.0 then x - 10.0 else x
  }

  /** What debouncing is for: the old digit is kept while the needle stays between half a digit before it
      and one and a half after it, measured around the dial; otherwise the needle decides. */
  function Hysteresis(prev: int, fnew: real): (d: int)
    requires -2.5 <= fnew <= 10.0
    ensures 0 <= d <= 9
  {
    if -0.5 < Ahead(prev, fnew) < 1.5 then prev % 10
    else (if fnew < 0.0 then fnew + 10.0 else if fnew >= 10.0 then fnew - 10.0 else fnew).Floor
  }

  /** Where the code does that. It does not at exactly 10, which is read as 10; nor below 0, where only an
      old 9 and, near the mark, an old 0 are kept; nor at 8.5 after a 9, which is kept; nor, when the old
      digit was rounded to 10 or is negative, in the parts of its range that lie outside its own place. */
  predicate Debounced(prev: int, fnew: real) {
    && fnew < 10.0 && fnew > -1.0
    && !(prev == 9 && fnew == 8.5)
    && (fnew < 0.0 ==> prev == 9 || (prev % 10 == 0 && fnew > -0.5))
    && (0.0 <= fnew && !(0 <= prev <= 9) ==>
          !(-0.5 < Ahead(prev, fnew) < 0.0) && !(1.0 <= Ahead(prev, fnew) < 1.5))
  }

  /** For every old digit and every position the read can meet, the result is a digit that obeys the
      hysteresis exactly under that condition. */
  lemma DebounceHysteresis(prev: int, fnew: real)
    requires -10 <= prev <= 10 && -2.5 <= fnew <= 10.0
    ensures Debounce(prev, fnew) == Hysteresis(prev, fnew) <==> Debounced(prev, fnew)
  {
    if 0 <= prev <= 9 {
      DebounceDigit(prev, fnew);
    } else {
      DebounceOther(prev, fnew);
    }
  }

  lemma DebounceDigit(prev: int, fnew: real)
    requires 0 <= prev <= 9 && -2.5 <= fnew <= 10.0
    ensures Debounce(prev, fnew) == Hysteresis(prev, fnew) <==> Debounced(prev, fnew)
  {
    SmallMod(prev, 10);
  }

  lemma DebounceOther(prev: int, fnew: real)
    requires -10 <= prev <= 10 && !(0 <= prev <= 9) && -2.5 <= fnew <= 10.0
    ensures Debounce(prev, fnew) == Hysteresis(prev, fnew) <==> Debounced(prev, fnew)
  {
    assert prev % 10 == if prev == 10 then 0 else prev + 10;
  }

  // ------------------------------------------------------------------ all dials of an image

  datatype Value = Num(v: real) | NaN

  /** Reading collected for one identifier; minConf is None while it still holds the largest double. */
  datatype Reads = Reads(value: Value, confId: string, minConf: Option<int>)

  const NO_READS := Reads(Num(0.0), "", None)

  datatype Box = Box(id: string, confId: string, scaler: int, digit: bool, offset: real)

  /** What the scan found in a box: no needle, or the angles where it begins and ends. */
  datatype Scan = Unseen | Needle(degFrom: int, degTo: int)

  datatype Dial = Dial(box: Box, scan: Scan)

  function Pow10(k: int): (r: real)
    ensures r > 0.0
    decreases if k < 0 then -k else k
  {
    if k == 0 then 1.0 else if k > 0 then 10.0 * Pow10(k - 1) else Pow10(k + 1) / 10.0
  }

  /** Rounding to the nearest integer, ties to even. */
  function Lrint(x: real): int {
    var f := x.Floor;
    if x - f as real < 0.5 then f
    else if x - f as real > 0.5 then f + 1
    else if f % 2 == 0 then f else f + 1
  }

  /** Nothing is nearer, and of two that are equally near it is the even one. */
  lemma LrintNearest(x: real)
    ensures -0.5 <= x - Lrint(x) as real <= 0.5
    ensures x - Lrint(x) as real == 0.5 || x - Lrint(x) as real == -0.5 ==> Lrint(x) % 2 == 0
  {
  }

  function NeedleNumber(b: Box, s: Scan): int
    requires s.Needle?
  {
    var nr := Trunc(b.offset + TruncDiv(TruncDiv(s.degFrom + s.degTo, 2), 36) as real);
    var up := if nr < 0 then nr + 10 else nr;
    if up > 9 then up - 10 else up
  }

  function NeedlePosition(b: Box, s: Scan): real
    requires s.Needle?
  {
    var fnr := b.offset + (s.degFrom + s.degTo) as real / 72.0;
    var up := if fnr < 0.0 then fnr + 10.0 else fnr;
    if up > 10.0 then up - 10.0 else up
  }

  /** What lrint makes of a value that is no number; it depends on the platform. */
  const LRINT_NAN: int

  /** The digit of the last value in the place of a box. */
  function LastDigit(b: Box, v: Value): int {
    match v
    case NaN => LRINT_NAN
    case Num(x) => Lrint(Frac(x / Pow10(b.scaler + 1)) * 10.0)
  }

  /** Digit of a box marked as digit: the needle itself, debounced by the last reading if there is one. */
  function OwnDigit(b: Box, s: Scan, last: Option<Value>): int
    requires s.Needle?
  {
    match last
    case None => NeedleNumber(b, s)
    case Some(v) => Debounce(LastDigit(b, v), NeedlePosition(b, s))
  }

  // ------------------------------------------------------------------ positions a scan can give

  /** Offsets the configuration admits. */
  predicate BoxOk(b: Box) { -10.0 <= b.offset <= 10.0 }

  /** Angles the scan around a dial can end with: a needle away from the mark, or one across it. */
  predicate ScanOk(s: Scan) {
    s.Needle? ==> (1 <= s.degFrom <= s.degTo <= 359) || (-180 <= s.degFrom <= -1 && 0 <= s.degTo <= 179)
  }

  /** The scan around a dial, given the angles at which a new pixel shows the needle's colour. */
  method ScanCircle(red: seq<bool>) returns (s: Scan)
    requires |red| == 360
    ensures ScanOk(s) && (s.Unseen? <==> forall k :: 0 <= k < 360 ==> !red[k])
    ensures s.Needle? && !red[0] ==>
              && 0 <= s.degFrom <= s.degTo < 360 && red[s.degFrom] && red[s.degTo]
              && forall k :: 0 <= k < 360 && red[k] ==> s.degFrom <= k <= s.degTo
    ensures s.Needle? && red[0] ==>
              && 0 <= s.degTo < 180 && -180 <= s.degFrom <= -1
              && red[s.degTo] && (forall k :: 0 <= k < 180 && red[k] ==> k <= s.degTo)
              && (s.degFrom != -1 ==> red[s.degFrom + 360])
              && (forall k :: 180 <= k < 360 && red[k] ==> s.degFrom <= k - 360)
  {
    var degFrom, degTo, wrap := -1, -1, false;
    for deg := 0 to 360
      invariant wrap == (deg > 0 && red[0])
      invariant degTo == -1 ==> degFrom == -1 && forall k :: 0 <= k < deg ==> !red[k]
      invariant degTo != -1 ==> 0 <= degTo < deg && red[degTo]
      invariant !wrap && degTo != -1 ==>
        1 <= degFrom <= degTo && red[degFrom] && forall k :: 0 <= k < deg && red[k] ==> degFrom <= k <= degTo
      invariant wrap ==>
        && 0 <= degTo < 180 && (forall k :: 0 <= k < deg && k < 180 && red[k] ==> k <= degTo)
        && -180 <= degFrom <= -1 && (degFrom != -1 ==> degFrom + 360 < deg && red[degFrom + 360])
        && (forall k :: 180 <= k < deg && red[k] ==> degFrom <= k - 360)
    {
      if red[deg] {
        if deg == 0 {
          wrap := true;
        }
        if wrap {
          if deg < 180 {
            degTo := deg;
          } else if deg - 360 < degFrom {
            degFrom := deg - 360;
          }
        } else {
          if degFrom < 0 {
            degFrom := deg;
          }
          degTo := deg;
        }
      }
    }
    s := if degTo < 0 then Unseen else Needle(degFrom, degTo);
  }

  /** A position is wrapped once, which leaves it below 0 if the offset is below -7.5 and the needle
      stands before the mark. */
  lemma PositionRange(b: Box, s: Scan)
    requires BoxOk(b) && ScanOk(s) && s.Needle?
    ensures -2.5 <= NeedlePosition(b, s) <= 10.0 && -2 <= NeedleNumber(b, s) <= 9
    ensures b.offset >= -7.5 ==> 0.0 <= NeedlePosition(b, s)
  {
  }

  /** Where the needle points, before wrapping: its middle in digits of 36 degrees, moved by the offset. */
  function Pointed(b: Box, s: Scan): real
    requires s.Needle?
  {
    b.offset + (s.degFrom + s.degTo) as real / 2.0 / 36.0
  }

  /** A distance around a dial of circumference 10. */
  function Wrapped(x: real): (y: real)
    ensures 0.0 <= y < 10.0
  {
    x - 10.0 * (x / 10.0).Floor as real
  }

  /** The position is where the needle points, but for one turn at most. */
  lemma PositionPoints(b: Box, s: Scan)
    requires BoxOk(b) && ScanOk(s) && s.Needle?
    ensures var x, fnr := Pointed(b, s), NeedlePosition(b, s);
            && (0.0 <= x <= 10.0 ==> fnr == x)
            && (x < 0.0 ==> fnr == x + 10.0) && (x > 10.0 ==> fnr == x - 10.0)
            && Wrapped(fnr) == Wrapped(x)
  {
    var x := Pointed(b, s);
    assert (x + 10.0) / 10.0 == x / 10.0 + 1.0 && (x - 10.0) / 10.0 == x / 10.0 - 1.0;
  }

  /** The needle points within half a digit of a place. */
  predicate Points(b: Box, s: Scan, place: real)
    requires s.Needle?
  {
    Wrapped(Pointed(b, s) - place + 0.5) < 1.0
  }

  lemma PointsNear(b: Box, s: Scan, place: real)
    requires BoxOk(b) && ScanOk(s) && s.Needle? && 0.0 <= place < 10.0 && Points(b, s, place)
    ensures Near(NeedlePosition(b, s), place)
  {
    var x, fnr := Pointed(b, s), NeedlePosition(b, s);
    PositionRange(b, s);
    PositionPoints(b, s);
    var k := ((x - place + 0.5) / 10.0).Floor;
    assert 10.0 * k as real <= x - place + 0.5 < 10.0 * k as real + 1.0;
  }

  /** The digit read without regard to smaller dials and without a last value. For offsets that are whole
      numbers it is the digit below the position, around the dial, if and only if the needle's middle is not
      before the mark, or at a full digit there. */
  lemma NumberBelow(b: Box, s: Scan)
    requires BoxOk(b) && ScanOk(s) && s.Needle? && Whole(b.offset)
    ensures -2 <= OwnDigit(b, s, None) <= 9 && (b.offset >= -8.0 ==> 0 <= OwnDigit(b, s, None))
    ensures OwnDigit(b, s, None) % 10 == NeedlePosition(b, s).Floor % 10 <==>
            s.degFrom + s.degTo >= 0 || (s.degFrom + s.degTo) % 72 == 0
  {
    hide NeedleNumber, NeedlePosition, Wrapped;
    var o, sum := b.offset.Floor, s.degFrom + s.degTo;
    PositionRange(b, s);
    NumberWraps(b, s);
    if b.offset >= -8.0 { NumberRange(b, s); }
    TruncTwice(sum);
    SumFloor(o, sum);
    FloorWraps(b, s);
    TenMore(o + sum / 72);
  }

  lemma NumberWraps(b: Box, s: Scan)
    requires BoxOk(b) && ScanOk(s) && s.Needle? && Whole(b.offset)
    ensures NeedleNumber(b, s) % 10 ==
            (b.offset.Floor + TruncDiv(TruncDiv(s.degFrom + s.degTo, 2), 36)) % 10
  {
    hide TruncDiv;
    var n := b.offset.Floor + TruncDiv(TruncDiv(s.degFrom + s.degTo, 2), 36);
    WholeTrunc(n);
    TenMore(n);
    TenMore(n + 10);
  }

  lemma NumberRange(b: Box, s: Scan)
    requires BoxOk(b) && ScanOk(s) && s.Needle? && Whole(b.offset) && b.offset >= -8.0
    ensures 0 <= NeedleNumber(b, s) <= 9
  {
    TruncTwice(s.degFrom + s.degTo);
    WholeTrunc(b.offset.Floor + TruncDiv(TruncDiv(s.degFrom + s.degTo, 2), 36));
  }

  lemma WholeTrunc(n: int)
    ensures Trunc(n as real) == n
  {
  }

  lemma FloorWraps(b: Box, s: Scan)
    requires BoxOk(b) && ScanOk(s) && s.Needle?
    ensures NeedlePosition(b, s).Floor % 10 == (b.offset + (s.degFrom + s.degTo) as real / 72.0).Floor % 10
  {
    hide NeedlePosition, Wrapped;
    var x := Pointed(b, s);
    assert x == b.offset + (s.degFrom + s.degTo) as real / 72.0;
    PositionPoints(b, s);
    FloorTen(x);
    TenMore(x.Floor);
  }

  lemma FloorTen(x: real)
    ensures (x + 10.0).Floor == x.Floor + 10 && (x - 10.0).Floor == x.Floor - 10
  {
  }

  lemma TruncTwice(sum: int)
    requires -360 <= sum <= 720
    ensures TruncDiv(TruncDiv(sum, 2), 36) == (if sum >= 0 || sum % 72 == 0 then sum / 72 else sum / 72 + 1)
  {
  }

  lemma SumFloor(o: int, sum: int)
    ensures (o as real + sum as real / 72.0).Floor == o + sum / 72
  {
    var q, r := sum / 72, sum % 72;
    assert sum as real / 72.0 == q as real + r as real / 72.0;
  }

  lemma TenMore(n: int)
    ensures (n + 10) % 10 == n % 10 && (n - 10) % 10 == n % 10 && (n + 1) % 10 != n % 10
  {
  }

  /** The old digit that is compared, after rounding. */
  lemma LastDigitRange(x: real)
    ensures -10 <= Lrint(Frac(x) * 10.0) <= 10
  {
  }

  /** A box marked as digit shows the digit hysteresis asks for exactly if its position and the old digit
      meet the condition. */
  lemma OwnDigitExact(b: Box, s: Scan, v: real)
    requires BoxOk(b) && ScanOk(s) && s.Needle?
    ensures var prev, fnew := LastDigit(b, Num(v)), NeedlePosition(b, s);
            && -10 <= prev <= 10 && -2.5 <= fnew <= 10.0
            && (OwnDigit(b, s, Some(Num(v))) == Hysteresis(prev, fnew) <==> Debounced(prev, fnew))
  {
    hide Lrint, NeedlePosition, Hysteresis, Debounced, Debounce;
    PositionRange(b, s);
    LastDigitRange(v / Pow10(b.scaler + 1));
    DebounceHysteresis(LastDigit(b, Num(v)), NeedlePosition(b, s));
  }

  /** On platforms where lrint makes a large number of no number, an invalid last value has no say. */
  lemma InvalidLastIgnored(b: Box, s: Scan)
    requires BoxOk(b) && ScanOk(s) && s.Needle? && (LRINT_NAN < -4 || LRINT_NAN > 10)
    ensures OwnDigit(b, s, Some(NaN)) == Trunc(NeedlePosition(b, s))
  {
    hide NeedlePosition;
    PositionRange(b, s);
  }

  /** A needle at exactly 10 is read as 10, although the old digit 9 should be kept. */
  lemma ReadAsTen()
    ensures OwnDigit(Box("", "", 0, true, 1.0), Needle(320, 328), Some(Num(9.0))) == 10
  {
    assert Pow10(1) == 10.0;
    assert Lrint(Frac(9.0 / 10.0) * 10.0) == 9;
  }

  /** A last value of 9.7 makes the old digit 10, and 10 is kept. */
  lemma KeptAsTen()
    ensures OwnDigit(Box("", "", 0, true, 0.0), Needle(345, 353), Some(Num(9.7))) == 10
  {
    assert Pow10(1) == 10.0;
    assert Lrint(Frac(9.7 / 10.0) * 10.0) == 10;
  }

  /** Digit and confidence of a seen dial when `value` was read from the smaller ones. */
  function DialDigit(b: Box, s: Scan, value: Value, last: Option<Value>): (int, int)
    requires s.Needle?
  {
    if b.digit then (OwnDigit(b, s, last), 100)
    else if value.NaN? then (NeedleNumber(b, s), 100)
    else RoundBySmaller(NeedleNumber(b, s), NeedlePosition(b, s), Frac(value.v / Pow10(b.scaler)), 100)
  }

  function AddDial(r0: Reads, dial: Dial, last: Option<Value>): Reads {
    var b := dial.box;
    var r := if b.confId != "" then r0.(confId := b.confId) else r0;
    if dial.scan.Unseen? then r.(value := NaN, minConf := Some(0))
    else
      var (nr, conf) := DialDigit(b, dial.scan, r.value, last);
      r.(value := if r.value.NaN? then NaN else Num(r.value.v + nr as real * Pow10(b.scaler)),
         minConf := if r.minConf.None? || conf < r.minConf.value then Some(conf) else r.minConf)
  }

  function Lookup<T>(m: map<string, T>, id: string): Option<T> {
    if id in m then Some(m[id]) else None
  }

  function ReadsOf(m: map<string, Reads>, id: string): Reads {
    if id in m then m[id] else NO_READS
  }

  /** All boxes of an image, in the order of the box list. */
  function Collect(m: map<string, Reads>, dials: seq<Dial>, before: map<string, Value>): map<string, Reads>
    decreases |dials|
  {
    if dials == [] then m
    else
      var id := dials[0].box.id;
      Collect(m[id := AddDial(ReadsOf(m, id), dials[0], Lookup(before, id))], dials[1..], before)
  }

  /** Boxes of one identifier. */
  function Own(dials: seq<Dial>, id: string): seq<Dial>
    decreases |dials|
  {
    if dials == [] then []
    else (if dials[0].box.id == id then [dials[0]] else []) + Own(dials[1..], id)
  }

  function CollectOwn(r: Reads, dials: seq<Dial>, last: Option<Value>): Reads
    decreases |dials|
  {
    if dials == [] then r else CollectOwn(AddDial(r, dials[0], last), dials[1..], last)
  }

  /** Identifiers do not influence each other. */
  lemma {:induction false} CollectById(m: map<string, Reads>, dials: seq<Dial>, before: map<string, Value>, id: string)
    ensures ReadsOf(Collect(m, dials, before), id) == CollectOwn(ReadsOf(m, id), Own(dials, id), Lookup(before, id))
    decreases |dials|
  {
    if dials != [] {
      var id0 := dials[0].box.id;
      CollectById(m[id0 := AddDial(ReadsOf(m, id0), dials[0], Lookup(before, id0))], dials[1..], before, id);
      if id0 == id {
        assert Own(dials, id)[1..] == Own(dials[1..], id);
      } else {
        assert Own(dials, id) == Own(dials[1..], id);
      }
    }
  }

  /** The loop over the bounding boxes. */
  method Recognize(dials: seq<Dial>, before: map<string, Value>, readings0: map<string, Reads>)
    returns (readings: map<string, Reads>)
    ensures readings == Collect(readings0, dials, before)
  {
    hide AddDial;
    readings := readings0;
    assert dials[0..] == dials;
    for i := 0 to |dials|
      invariant Collect(readings, dials[i..], before) == Collect(readings0, dials, before)
    {
      var id := dials[i].box.id;
      assert dials[i..][1..] == dials[i + 1..];
      readings := readings[id := AddDial(ReadsOf(readings, id), dials[i], Lookup(before, id))];
    }
    assert dials[|dials|..] == [];
  }

  /** A reading is invalid exactly when some dial of its identifier was not seen. */
  lemma {:induction false} InvalidIffUnseen(r: Reads, dials: seq<Dial>, last: Option<Value>)
    ensures CollectOwn(r, dials, last).value.NaN? <==>
            r.value.NaN? || exists i :: 0 <= i < |dials| && dials[i].scan.Unseen?
    decreases |dials|
  {
    if dials != [] {
      InvalidIffUnseen(AddDial(r, dials[0], last), dials[1..], last);
      if i :| 0 <= i < |dials[1..]| && dials[1..][i].scan.Unseen? {
        assert dials[i + 1].scan.Unseen?;
      }
      if i :| 0 <= i < |dials| && dials[i].scan.Unseen? && i > 0 {
        assert dials[1..][i - 1].scan.Unseen?;
      }
    }
  }

  // ------------------------------------------------------------------ exact decoding

  function Tens(n: nat): (r: int)
    ensures r > 0
  {
    if n == 0 then 1 else 10 * Tens(n - 1)
  }

  /** A number with a digit put in place n. */
  function Plus(number: int, digit: int, n: nat): int {
    number + digit * Tens(n)
  }

  /** Number whose decimal digits, smallest first, are ds. */
  function Number(ds: seq<int>): int {
    if ds == [] then 0 else Plus(Number(ds[..|ds| - 1]), ds[|ds| - 1], |ds| - 1)
  }

  ghost predicate Digits(ds: seq<int>) { forall i :: 0 <= i < |ds| ==> 0 <= ds[i] <= 9 }

  lemma DigitTimes(d: int, t: int)
    requires 0 <= d <= 9 && t > 0
    ensures 0 <= d * t <= 9 * t
  {
  }

  lemma {:induction false} NumberBound(ds: seq<int>)
    requires Digits(ds)
    ensures 0 <= Number(ds) < Tens(|ds|)
  {
    if ds != [] {
      NumberBound(ds[..|ds| - 1]);
      DigitTimes(ds[|ds| - 1], Tens(|ds| - 1));
    }
  }

  lemma Assoc(a: real, b: real, c: real)
    ensures a * (b * c) == b * (a * c)
  {
  }

  lemma {:induction false} Pow10Shift(s: int, n: nat)
    ensures Pow10(s + n) == Pow10(s) * Tens(n) as real
  {
    if n > 0 {
      Pow10Shift(s, n - 1);
      Pow10Next(s + n - 1);
      Assoc(10.0, Pow10(s), Tens(n - 1) as real);
    }
  }

  lemma Pow10Next(k: int)
    ensures Pow10(k + 1) == 10.0 * Pow10(k)
  {
  }

  /** Fraction that the number read so far leaves below dial n. */
  function Below(number: int, n: nat): real {
    (number % Tens(n)) as real / Tens(n) as real
  }

  lemma Product(x: real, t: real)
    requires t > 0.0
    ensures x >= 0.0 <==> x * t >= 0.0
  {
  }

  lemma Ratio(r: real, t: real)
    requires 0.0 <= r < t
    ensures 0.0 <= r / t < 1.0
  {
    var q := r / t;
    assert q * t == r;
    Product(q, t);
    Product(q - 1.0, t);
    assert (q - 1.0) * t == r - t;
  }

  lemma BelowBounds(number: int, n: nat)
    ensures 0.0 <= Below(number, n) < 1.0
  {
    var t := Tens(n);
    assert 0 <= number % t < t;
    Ratio((number % t) as real, t as real);
  }

  lemma Cancel(a: real, p: real, t: real)
    requires p > 0.0 && t > 0.0
    ensures p * t > 0.0 && a * p / (p * t) == a / t
  {
    var q := a / t;
    assert q * t == a;
    assert a * p == q * (p * t);
  }

  lemma FracSplit(q: int, f: real)
    requires 0.0 <= f < 1.0
    ensures Frac(q as real + f) == if q >= 0 || f == 0.0 then f else f - 1.0
  {
    var x := q as real + f;
    if q >= 0 {
      FloorIs(x, q);
    } else if f == 0.0 {
      FloorIs(-x, -q);
    } else {
      FloorIs(-x, -q - 1);
    }
  }

  lemma FloorIs(x: real, k: int)
    requires k as real <= x < k as real + 1.0
    ensures x.Floor == k
  {
  }

  lemma SumRatio(q: real, r: real, t: real)
    requires t > 0.0
    ensures (q * t + r) / t == q + r / t
  {
    var x := r / t;
    assert x * t == r;
    assert (q + x) * t == q * t + r;
  }

  lemma BelowIs(number: int, n: nat)
    ensures Below(number, n) == (number % Tens(n)) as real / Tens(n) as real
  {
  }

  lemma FracOf(x: real, q: int, f: real)
    requires x == q as real + f && 0.0 <= f < 1.0
    ensures Frac(x) == if q >= 0 || f == 0.0 then f else f - 1.0
  {
    FracSplit(q, f);
  }

  lemma CancelTo(value: real, a: real, p: real, t: real, pt: real)
    requires p > 0.0 && t > 0.0 && value == a * p && pt == p * t
    ensures pt > 0.0 && value / pt == a / t
  {
    Cancel(a, p, t);
  }

  /** Number read from the first dials of an identifier, in units of the smallest one. */
  function Decoded(dials: seq<Dial>, s: int, last: Option<Value>): int
    requires forall i :: 0 <= i < |dials| ==> dials[i].scan.Needle?
    decreases |dials|
  {
    if dials == [] then 0
    else
      var n := |dials| - 1;
      var number := Decoded(dials[..n], s, last);
      Plus(number, DialDigit(dials[n].box, dials[n].scan, Num(Scale(number, s)), last).0, n)
  }

  /** The value of a number of units of size 10^s. */
  function Scale(number: int, s: int): real {
    number as real * Pow10(s)
  }

  lemma {:induction false} CollectSnoc(r: Reads, dials: seq<Dial>, dial: Dial, last: Option<Value>)
    ensures CollectOwn(r, dials + [dial], last) == AddDial(CollectOwn(r, dials, last), dial, last)
    decreases |dials|
  {
    hide AddDial;
    if dials == [] {
      assert [] + [dial] == [dial];
    } else {
      assert (dials + [dial])[1..] == dials[1..] + [dial];
      CollectSnoc(AddDial(r, dials[0], last), dials[1..], dial, last);
    }
  }

  ghost predicate Scaled(dials: seq<Dial>, s: int) {
    forall i :: 0 <= i < |dials| ==> dials[i].scan.Needle? && dials[i].box.scaler == s + i
  }

  lemma {:induction false} CollectDecoded(dials: seq<Dial>, s: int, last: Option<Value>)
    requires Scaled(dials, s)
    ensures CollectOwn(NO_READS, dials, last).value == Num(Scale(Decoded(dials, s, last), s))
    decreases |dials|
  {
    if dials != [] {
      hide AddDial, DialDigit, Pow10, Scale, CollectOwn, Decoded, Plus;
      var n := |dials| - 1;
      DecodedStep(dials, s, last);
      CollectDecoded(dials[..n], s, last);
      CollectSnoc(NO_READS, dials[..n], dials[n], last);
      assert dials[..n] + [dials[n]] == dials;
      AddScaled(CollectOwn(NO_READS, dials[..n], last), Decoded(dials[..n], s, last), n, s, dials[n], last);
    }
  }

  lemma DecodedStep(dials: seq<Dial>, s: int, last: Option<Value>)
    requires dials != [] && Scaled(dials, s)
    ensures var n := |dials| - 1; var number := Decoded(dials[..n], s, last);
            Decoded(dials, s, last) ==
            Plus(number, DialDigit(dials[n].box, dials[n].scan, Num(Scale(number, s)), last).0, n)
  {
    hide DialDigit, Tens, Scale;
  }

  lemma AddScaled(r: Reads, number: int, n: nat, s: int, dial: Dial, last: Option<Value>)
    requires dial.scan.Needle? && dial.box.scaler == s + n && r.value == Num(Scale(number, s))
    ensures AddDial(r, dial, last).value ==
            Num(Scale(Plus(number, DialDigit(dial.box, dial.scan, Num(Scale(number, s)), last).0, n), s))
  {
    hide AddDial, DialDigit, Pow10, Scale, Plus;
    AddDialValue(r, dial, last);
    SumScaled(number, DialDigit(dial.box, dial.scan, r.value, last).0, n, s);
  }

  lemma AddDialValue(r: Reads, dial: Dial, last: Option<Value>)
    requires dial.scan.Needle? && r.value.Num?
    ensures var nr := DialDigit(dial.box, dial.scan, r.value, last).0;
            AddDial(r, dial, last).value == Num(r.value.v + nr as real * Pow10(dial.box.scaler))
  {
    hide DialDigit, Pow10;
  }

  lemma SumScaled(a: int, b: int, n: nat, s: int)
    ensures Scale(Plus(a, b, n), s) == Scale(a, s) + b as real * Pow10(s + n)
  {
    hide Pow10, Tens;
    Pow10Shift(s, n);
    var t := Tens(n);
    assert (b * t) as real == b as real * t as real;
    Distribute(a as real, b as real, t as real, Pow10(s));
  }

  lemma Distribute(a: real, b: real, t: real, p: real)
    ensures (a + b * t) * p == a * p + b * (p * t)
  {
  }

  /** The place of the needle of dial i when the dials show the digits ds. */
  function Place(ds: seq<int>, i: nat): real
    requires i < |ds|
  {
    ds[i] as real + Below(Number(ds[..i]), i)
  }

  lemma PlaceRange(ds: seq<int>, i: nat)
    requires i < |ds| && Digits(ds)
    ensures 0.0 <= Place(ds, i) < 10.0
  {
    BelowBounds(Number(ds[..i]), i);
  }

  /** Dial i shows its digit: a digit box reads it directly, the others lie within half a digit of it. */
  ghost predicate Shows(dial: Dial, ds: seq<int>, i: nat, last: Option<Value>)
    requires i < |ds| && dial.scan.Needle?
  {
    if dial.box.digit then OwnDigit(dial.box, dial.scan, last) == ds[i]
    else Points(dial.box, dial.scan, Place(ds, i))
  }

  ghost predicate CornerAt(dial: Dial, ds: seq<int>, i: nat)
    requires i < |ds| && dial.scan.Needle?
  {
    !dial.box.digit && Corner(NeedlePosition(dial.box, dial.scan), Below(Number(ds[..i]), i))
  }

  ghost predicate AllShow(dials: seq<Dial>, ds: seq<int>, s: int, last: Option<Value>) {
    && |dials| == |ds| && Digits(ds) && Scaled(dials, s)
    && (forall i :: 0 <= i < |ds| ==> BoxOk(dials[i].box) && ScanOk(dials[i].scan))
    && forall i :: 0 <= i < |ds| ==> Shows(dials[i], ds, i, last)
  }

  /** What one dial does to the error below it, counted in units of its own place: the carry into the
      place after it, or None if the digit in its place is wrong for good. f is the true fraction below it
      and d its true digit. After an undershoot the value below is negative, and rounding by it reads one
      too many, which makes good for it unless the digit wraps from 9 to 0. */
  function NextCarry(carry: int, fnr: real, f: real, d: int): Option<int> {
    if carry == 0 then
      if !Corner(fnr, f) then Some(0)
      else if fnr == 10.0 then Some(1)
      else if Undershoot(fnr, f) then Some(-1)
      else None
    else if carry == -1 then
      var z := fnr + 0.5 - f;
      if d == 9 then Some(-1) else if z >= 0.0 then Some(0) else if Whole(z) then Some(-1) else None
    else None
  }

  /** The fraction the code takes for the one below: that of a number one unit too small is negative. */
  function Taken(carry: int, f: real): real {
    if carry == -1 then f - 1.0 else f
  }

  lemma CarryStep(cur: int, fnr: real, f: real, conf: int, d: int, carry: int)
    requires 0.0 <= f < 1.0 && 0 <= d <= 9 && -2.5 <= fnr <= 10.0 && cur <= 9 && Near(fnr, d as real + f)
    requires -1 <= carry <= 1 && (carry == -1 ==> f >= 0.7)
    ensures var off := carry + RoundBySmaller(cur, fnr, Taken(carry, f), conf).0 - d;
            match NextCarry(carry, fnr, f, d)
            case Some(next) => off == 10 * next && -1 <= next <= 1 && (next == -1 ==> d >= 7)
            case None => off % 10 != 0
  {
    if carry == -1 {
      AfterUndershoot(cur, fnr, f, conf, d);
    } else {
      hide RoundBySmaller, Undershoot, Corner, Near;
      RoundExact(cur, fnr, f, conf, d);
      if Corner(fnr, f) { CornerOff(cur, fnr, f, conf, d); }
    }
  }

  /** How far off a corner is read, for the positions a scan can give. */
  lemma CornerOff(cur: int, fnr: real, f: real, conf: int, d: int)
    requires 0.0 <= f < 1.0 && 0 <= d <= 9 && -2.5 <= fnr <= 10.0 && cur <= 9 && Near(fnr, d as real + f)
    requires Corner(fnr, f)
    ensures var off := RoundBySmaller(cur, fnr, f, conf).0 - d;
            && off in {10, -10, -9, 1, 2}
            && (fnr == 10.0 <==> off == 10) && (Undershoot(fnr, f) <==> off == -10) && (off == -10 ==> d >= 7)
  {
    RoundExact(cur, fnr, f, conf, d);
    if fnr < 0.0 {
      assert d as real <= fnr + 10.5 - f < d as real + 1.0;
    }
  }

  lemma AfterUndershoot(cur: int, fnr: real, f: real, conf: int, d: int)
    requires 0.7 <= f < 1.0 && 0 <= d <= 9 && -2.5 <= fnr <= 10.0 && cur <= 9 && Near(fnr, d as real + f)
    ensures var off := RoundBySmaller(cur, fnr, f - 1.0, conf).0 - d - 1;
            match NextCarry(-1, fnr, f, d)
            case Some(next) => off == 10 * next && -1 <= next <= 0 && (next == -1 ==> d >= 7)
            case None => off % 10 != 0
  {
    var z := fnr + 0.5 - f;
    if z >= 0.0 {
      assert d as real <= z < d as real + 1.0;
    } else {
      assert d as real <= z + 10.0 < d as real + 1.0;
    }
  }

  /** The carry out of all dials. It depends only on the needles and on what the dials should show. */
  function Carry(dials: seq<Dial>, ds: seq<int>): Option<int>
    requires |dials| == |ds| && forall i :: 0 <= i < |dials| ==> dials[i].scan.Needle?
    decreases |dials|
  {
    if ds == [] then Some(0)
    else
      var n := |ds| - 1;
      match Carry(dials[..n], ds[..n])
      case None => None
      case Some(carry) =>
        if dials[n].box.digit then (if carry == 0 then Some(0) else None)
        else NextCarry(carry, NeedlePosition(dials[n].box, dials[n].scan), Below(Number(ds[..n]), n), ds[n])
  }

  lemma ScaleIs(number: int, s: int)
    ensures Scale(number, s) == number as real * Pow10(s)
  {
  }

  /** The fraction below dial n when the number read so far is off by a carry. */
  lemma FracWithCarry(value: real, number: int, carry: int, s: int, n: nat)
    requires 0 <= number < Tens(n) && -1 <= carry <= 1 && (carry == -1 ==> Below(number, n) > 0.0)
    requires value == (number + carry * Tens(n)) as real * Pow10(s)
    ensures Frac(value / Pow10(s + n)) == Taken(carry, Below(number, n))
  {
    hide Frac, Tens, Pow10, Below;
    var t := Tens(n);
    SmallMod(number, t);
    BelowIs(number, n);
    BelowBounds(number, n);
    Pow10Shift(s, n);
    RealSum(number, carry, t);
    OffRatio(value, (number + carry * t) as real, carry as real, number as real, Pow10(s), t as real, Pow10(s + n));
    FracOf(value / Pow10(s + n), carry, Below(number, n));
  }

  lemma RealSum(number: int, carry: int, t: int)
    ensures (number + carry * t) as real == carry as real * t as real + number as real
  {
    assert (carry * t) as real == carry as real * t as real;
  }

  lemma OffRatio(value: real, a: real, c: real, r: real, p: real, t: real, pt: real)
    requires p > 0.0 && t > 0.0 && value == a * p && pt == p * t && a == c * t + r
    ensures value / pt == c + r / t
  {
    CancelTo(value, a, p, t, pt);
    SumRatio(c, r, t);
  }

  lemma DigitSnoc(dials: seq<Dial>, ds: seq<int>, s: int, last: Option<Value>)
    requires AllShow(dials, ds, s, last) && ds != []
    ensures var n := |ds| - 1;
            && AllShow(dials[..n], ds[..n], s, last) && Shows(dials[n], ds, n, last)
            && BoxOk(dials[n].box) && ScanOk(dials[n].scan) && dials[n].box.scaler == s + n && 0 <= ds[n] <= 9
  {
    hide OwnDigit, NeedlePosition, Near, Below, Number, BoxOk, ScanOk;
    var n := |ds| - 1;
    forall i | 0 <= i < n
      ensures Shows(dials[..n][i], ds[..n], i, last)
    {
      assert Shows(dials[i], ds, i, last);
      assert ds[..n][..i] == ds[..i];
    }
  }

  lemma NumberSnoc(ds: seq<int>)
    requires ds != []
    ensures var n := |ds| - 1; Number(ds) == Number(ds[..n]) + ds[n] * Tens(n)
  {
    hide Tens;
  }

  /** A wrong last digit stays wrong whatever is added in higher places. */
  lemma LostStays(number: int, truth: int, r: int, d: int, t: int)
    requires 0 <= truth < t && number % t != truth
    ensures (number + r * t) % (10 * t) != truth + d * t
  {
    var a := number + r * t;
    if a % (10 * t) == truth + d * t {
      var q := a / (10 * t);
      assert a == q * (10 * t) + truth + d * t;
      assert q * (10 * t) == 10 * q * t;
      assert number == (10 * q + d - r) * t + truth by {
        assert (10 * q + d - r) * t == 10 * q * t + d * t - r * t;
      }
      ModOf(10 * q + d - r, truth, t);
    }
  }

  lemma LostNow(truth: int, off: int, d: int, t: int)
    requires 0 <= truth < t && 0 <= d <= 9 && off % 10 != 0
    ensures (truth + d * t + off * t) % (10 * t) != truth + d * t
  {
    var a := truth + d * t + off * t;
    if a % (10 * t) == truth + d * t {
      var q := a / (10 * t);
      assert a == q * (10 * t) + truth + d * t;
      assert off * t == q * (10 * t) == (10 * q) * t;
      SameFactor(off, 10 * q, t);
    }
  }

  lemma SameFactor(a: int, b: int, t: int)
    requires t > 0 && a * t == b * t
    ensures a == b
  {
    assert (a - b) * t == 0;
  }

  /** The number is off by exactly the carry into the place above, or wrong in some place below it. */
  ghost predicate OffBy(carry: Option<int>, number: int, truth: int, n: nat) {
    match carry
    case Some(c) =>
      && -1 <= c <= 1 && number == truth + c * Tens(n)
      && (c == -1 ==> 10 * truth >= 7 * Tens(n))
    case None => number % Tens(n) != truth
  }

  lemma {:induction false} DecodedCarry(dials: seq<Dial>, ds: seq<int>, s: int, last: Option<Value>)
    requires AllShow(dials, ds, s, last)
    ensures OffBy(Carry(dials, ds), Decoded(dials, s, last), Number(ds), |ds|)
    decreases |ds|
  {
    if ds != [] {
      hide DialDigit, Tens, Shows, Scale, AllShow, NextCarry, OffBy, Decoded, Number, NeedlePosition, Below;
      var n := |ds| - 1;
      DigitSnoc(dials, ds, s, last);
      DecodedCarry(dials[..n], ds[..n], s, last);
      AllShowDigits(dials, ds, s, last);
      DecodedStep(dials, s, last);
      CarrySnoc(dials, ds, s, last, Carry(dials[..n], ds[..n]));
    }
  }

  lemma AllShowDigits(dials: seq<Dial>, ds: seq<int>, s: int, last: Option<Value>)
    requires AllShow(dials, ds, s, last)
    ensures Digits(ds) && Scaled(dials, s) && |dials| == |ds|
  {
  }

  /** One dial more. */
  lemma CarrySnoc(dials: seq<Dial>, ds: seq<int>, s: int, last: Option<Value>, before: Option<int>)
    requires AllShow(dials, ds, s, last) && ds != []
    requires var n := |ds| - 1;
             before == Carry(dials[..n], ds[..n]) && OffBy(before, Decoded(dials[..n], s, last), Number(ds[..n]), n)
    ensures OffBy(Carry(dials, ds), Decoded(dials, s, last), Number(ds), |ds|)
  {
    hide DialDigit, Tens, Shows, Scale, AllShow, NextCarry, Decoded, Number, NeedlePosition, Below, OffBy;
    AllShowDigits(dials, ds, s, last);
    var n := |ds| - 1;
    var number, truth, t := Decoded(dials[..n], s, last), Number(ds[..n]), Tens(n);
    DigitSnoc(dials, ds, s, last);
    NumberSnoc(ds);
    DecodedStep(dials, s, last);
    NumberBound(ds[..n]);
    var r := DialDigit(dials[n].box, dials[n].scan, Num(Scale(number, s)), last).0;
    PlusIs(number, r, n);
    if before.None? {
      LostBelow(number, truth, r, ds[n], n);
    } else {
      OffByMeans(before, number, truth, n);
      DialCarry(dials[n], ds, n, s, number, last, before.value);
      OffByNext(Carry(dials, ds), number, truth, r, ds[n], before.value, n);
    }
  }

  lemma PlusIs(number: int, r: int, n: nat)
    ensures Plus(number, r, n) == number + r * Tens(n)
  {
  }

  lemma OffByMeans(carry: Option<int>, number: int, truth: int, n: nat)
    requires OffBy(carry, number, truth, n) && carry.Some?
    ensures -1 <= carry.value <= 1 && number == truth + carry.value * Tens(n)
    ensures carry.value == -1 ==> 10 * truth >= 7 * Tens(n)
  {
  }

  lemma LostBelow(number: int, truth: int, r: int, d: int, n: nat)
    requires OffBy(None, number, truth, n) && 0 <= truth < Tens(n)
    ensures OffBy(None, number + r * Tens(n), truth + d * Tens(n), n + 1)
  {
    hide Tens;
    TensNext(n);
    LostStays(number, truth, r, d, Tens(n));
  }

  lemma OffByNext(next: Option<int>, number: int, truth: int, r: int, d: int, carry: int, n: nat)
    requires 0 <= truth < Tens(n) && 0 <= d <= 9 && number == truth + carry * Tens(n)
    requires var off := carry + r - d;
             match next
             case Some(c) => off == 10 * c && -1 <= c <= 1 && (c == -1 ==> d >= 7)
             case None => off % 10 != 0
    ensures OffBy(next, number + r * Tens(n), truth + d * Tens(n), n + 1)
  {
    hide Tens;
    var t := Tens(n);
    TensNext(n);
    var off := carry + r - d;
    Regrouped(truth, carry, r, d, off, t);
    match next {
      case Some(c) => TenTimes(c, off, d, t);
      case None => LostNow(truth, off, d, t);
    }
  }

  lemma Regrouped(truth: int, carry: int, r: int, d: int, off: int, t: int)
    requires off == carry + r - d
    ensures truth + carry * t + r * t == truth + d * t + off * t
  {
  }

  lemma TenTimes(c: int, off: int, d: int, t: int)
    requires off == 10 * c && t > 0
    ensures off * t == c * (10 * t) && (d >= 7 ==> d * t >= 7 * t)
  {
  }

  lemma TensNext(n: nat)
    ensures Tens(n + 1) == 10 * Tens(n)
  {
  }

  /** What dial n is read as, on top of a number that is off by a carry. */
  lemma DialCarry(dial: Dial, ds: seq<int>, n: nat, s: int, number: int, last: Option<Value>, carry: int)
    requires n == |ds| - 1 && Digits(ds) && dial.scan.Needle? && BoxOk(dial.box) && ScanOk(dial.scan)
    requires dial.box.scaler == s + n && Shows(dial, ds, n, last)
    requires 0 <= Number(ds[..n]) < Tens(n)
    requires -1 <= carry <= 1 && number == Number(ds[..n]) + carry * Tens(n)
    requires carry == -1 ==> 10 * Number(ds[..n]) >= 7 * Tens(n)
    ensures var off := carry + DialDigit(dial.box, dial.scan, Num(Scale(number, s)), last).0 - ds[n];
            var next := if dial.box.digit then (if carry == 0 then Some(0) else None)
                        else NextCarry(carry, NeedlePosition(dial.box, dial.scan), Below(Number(ds[..n]), n), ds[n]);
            match next
            case Some(c) => off == 10 * c && -1 <= c <= 1 && (c == -1 ==> ds[n] >= 7)
            case None => off % 10 != 0
  {
    hide NextCarry, Scale, Number, Below, Tens, RoundBySmaller, NeedleNumber, NeedlePosition, Frac, Pow10, Near, BoxOk,
      ScanOk, OwnDigit;
    if !dial.box.digit {
      PlaceRange(ds, n);
      PointsNear(dial.box, dial.scan, Place(ds, n));
      NeedleCarry(dial.box, dial.scan, Number(ds[..n]), Place(ds, n), n, s, number, ds[n], carry);
    }
  }

  lemma NeedleCarry(b: Box, scan: Scan, truth: int, place: real, n: nat, s: int, number: int, d: int, carry: int)
    requires scan.Needle? && BoxOk(b) && ScanOk(scan) && b.scaler == s + n && 0 <= d <= 9
    requires 0 <= truth < Tens(n) && place == d as real + Below(truth, n) && Near(NeedlePosition(b, scan), place)
    requires -1 <= carry <= 1 && number == truth + carry * Tens(n)
    requires carry == -1 ==> 10 * truth >= 7 * Tens(n)
    ensures var fnr := NeedlePosition(b, scan);
            var off := carry +
                       RoundBySmaller(NeedleNumber(b, scan), fnr, Frac(Scale(number, s) / Pow10(b.scaler)), 100).0 - d;
            match NextCarry(carry, fnr, Below(truth, n), d)
            case Some(c) => off == 10 * c && -1 <= c <= 1 && (c == -1 ==> d >= 7)
            case None => off % 10 != 0
  {
    hide Frac, NeedleNumber, NeedlePosition, RoundBySmaller, Tens, Pow10, Near, Below, NextCarry, Taken, Scale, BoxOk,
      ScanOk;
    var f := Below(truth, n);
    ScaleIs(number, s);
    BelowBounds(truth, n);
    if carry == -1 { BelowLarge(truth, n); }
    FracWithCarry(Scale(number, s), truth, carry, s, n);
    PositionRange(b, scan);
    CarryStep(NeedleNumber(b, scan), NeedlePosition(b, scan), f, 100, d, carry);
  }

  lemma BelowLarge(truth: int, n: nat)
    requires 0 <= truth < Tens(n) && 10 * truth >= 7 * Tens(n)
    ensures Below(truth, n) >= 0.7
  {
    var t := Tens(n);
    SmallMod(truth, t);
    var q := truth as real / t as real;
    assert q * t as real == truth as real;
    Product(q - 0.7, t as real);
    assert (q - 0.7) * t as real == truth as real - 0.7 * t as real;
  }

  /** For any number of dials with consecutive scalers whose needles lie within half a digit of their
      places, the value read is the true number if and only if no carry is left over. */
  lemma NeedleExact(dials: seq<Dial>, ds: seq<int>, s: int, last: Option<Value>)
    requires AllShow(dials, ds, s, last)
    ensures CollectOwn(NO_READS, dials, last).value == Num(Scale(Number(ds), s)) <==> Carry(dials, ds) == Some(0)
  {
    hide CollectOwn, Decoded, Number, Shows, Scale, Carry, Tens;
    CollectDecoded(dials, s, last);
    ScaleInjective(Decoded(dials, s, last), Number(ds), s);
    DecodedCarry(dials, ds, s, last);
    NumberBound(ds);
    SmallMod(Number(ds), Tens(|ds|));
  }

  /** Without a corner no carry arises. */
  lemma {:induction false} NoCorner(dials: seq<Dial>, ds: seq<int>)
    requires |dials| == |ds| && forall i :: 0 <= i < |dials| ==> dials[i].scan.Needle?
    requires forall i :: 0 <= i < |ds| ==> !CornerAt(dials[i], ds, i)
    ensures Carry(dials, ds) == Some(0)
    decreases |ds|
  {
    hide Corner, Undershoot, Number, NeedlePosition, Below;
    if ds != [] {
      var n := |ds| - 1;
      forall i | 0 <= i < n ensures !CornerAt(dials[..n][i], ds[..n], i) {
        assert ds[..n][..i] == ds[..i];
        assert !CornerAt(dials[i], ds, i);
      }
      NoCorner(dials[..n], ds[..n]);
      assert !CornerAt(dials[n], ds, n);
    }
  }

  /** A first corner that is no undershoot leaves a carry or a wrong digit, whatever the larger dials show. */
  lemma {:induction false} CornerLeaves(dials: seq<Dial>, ds: seq<int>, i: nat)
    requires |dials| == |ds| && (forall j :: 0 <= j < |dials| ==> dials[j].scan.Needle?)
    requires i < |ds| && CornerAt(dials[i], ds, i)
    requires !Undershoot(NeedlePosition(dials[i].box, dials[i].scan), Below(Number(ds[..i]), i))
    requires forall j :: 0 <= j < i ==> !CornerAt(dials[j], ds, j)
    ensures Carry(dials, ds) == None || Carry(dials, ds) == Some(1)
    decreases |ds|
  {
    hide Undershoot, Number, NeedlePosition, Below, Corner;
    var n := |ds| - 1;
    forall j | 0 <= j < n ensures ds[..n][..j] == ds[..j] {}
    if i < n {
      forall j | 0 <= j < i ensures !CornerAt(dials[..n][j], ds[..n], j) {
        assert !CornerAt(dials[j], ds, j);
      }
      CornerLeaves(dials[..n], ds[..n], i);
    } else {
      forall j | 0 <= j < n ensures !CornerAt(dials[..n][j], ds[..n], j) {
        assert !CornerAt(dials[j], ds, j);
      }
      NoCorner(dials[..n], ds[..n]);
    }
  }

  /** Such a corner makes the number wrong. */
  lemma CornerWrong(dials: seq<Dial>, ds: seq<int>, s: int, last: Option<Value>, i: nat)
    requires AllShow(dials, ds, s, last) && i < |ds| && CornerAt(dials[i], ds, i)
    requires !Undershoot(NeedlePosition(dials[i].box, dials[i].scan), Below(Number(ds[..i]), i))
    requires forall j :: 0 <= j < i ==> !CornerAt(dials[j], ds, j)
    ensures Decoded(dials, s, last) != Number(ds)
  {
    hide Decoded, Number, CornerAt, Shows, Tens, Undershoot, Carry, NeedlePosition, Below;
    CornerLeaves(dials, ds, i);
    DecodedCarry(dials, ds, s, last);
    NumberBound(ds);
    SmallMod(Number(ds), Tens(|ds|));
  }

  /** With offsets of at least -7.5 no position stays below 0; then the value read is the true number if
      and only if no needle stands at exactly 10 above exactly one half. */
  lemma NeedleExactAbove(dials: seq<Dial>, ds: seq<int>, s: int, last: Option<Value>)
    requires AllShow(dials, ds, s, last)
    requires forall i :: 0 <= i < |dials| ==> dials[i].box.offset >= -7.5
    ensures CollectOwn(NO_READS, dials, last).value == Num(Scale(Number(ds), s)) <==>
            forall i :: 0 <= i < |ds| && !dials[i].box.digit ==>
              !(NeedlePosition(dials[i].box, dials[i].scan) == 10.0 && Below(Number(ds[..i]), i) == 0.5)
  {
    hide CollectOwn, Decoded, Number, Shows, Scale, Carry, Below, NeedlePosition;
    NeedleExact(dials, ds, s, last);
    forall i | 0 <= i < |ds|
      ensures 0.0 <= NeedlePosition(dials[i].box, dials[i].scan)
    {
      PositionRange(dials[i].box, dials[i].scan);
    }
    if i0 :| 0 <= i0 < |ds| && CornerAt(dials[i0], ds, i0) {
      var i := FirstCorner(dials, ds, i0);
      assert 0.0 <= NeedlePosition(dials[i].box, dials[i].scan);
      CornerLeaves(dials, ds, i);
    } else {
      NoCorner(dials, ds);
    }
  }

  /** The same for the readings of a whole image: each identifier is decoded from its own dials. */
  lemma RecognizeExact(dials: seq<Dial>, before: map<string, Value>, id: string, ds: seq<int>, s: int)
    requires AllShow(Own(dials, id), ds, s, Lookup(before, id))
    ensures ReadsOf(Collect(map[], dials, before), id).value == Num(Scale(Number(ds), s)) <==>
            Carry(Own(dials, id), ds) == Some(0)
  {
    hide Collect, CollectOwn, Carry, Shows, Scale, Number;
    CollectById(map[], dials, before, id);
    NeedleExact(Own(dials, id), ds, s, Lookup(before, id));
  }

  lemma ScaleInjective(a: int, b: int, s: int)
    ensures Scale(a, s) == Scale(b, s) <==> a == b
  {
    if Scale(a, s) == Scale(b, s) {
      Product((a - b) as real, Pow10(s));
      Product((b - a) as real, Pow10(s));
      assert (a - b) as real * Pow10(s) == 0.0;
    }
  }

  lemma {:induction false} FirstCorner(dials: seq<Dial>, ds: seq<int>, i0: nat) returns (i: nat)
    requires |dials| == |ds| && (forall j :: 0 <= j < |ds| ==> dials[j].scan.Needle?)
    requires i0 < |ds| && CornerAt(dials[i0], ds, i0)
    ensures i <= i0 && CornerAt(dials[i], ds, i) && forall j :: 0 <= j < i ==> !CornerAt(dials[j], ds, j)
  {
    if j0 :| 0 <= j0 < i0 && CornerAt(dials[j0], ds, j0) {
      i := FirstCorner(dials, ds, j0);
    } else {
      i := i0;
    }
  }

  // ------------------------------------------------------------------ the digit read before

  /** The digits below a place, and the rest above it. */
  lemma {:induction false} NumberCut(ds: seq<int>, i: nat) returns (q: int)
    requires Digits(ds) && i <= |ds|
    ensures q >= 0 && Number(ds) == Number(ds[..i]) + q * Tens(i)
    decreases |ds| - i
  {
    if i == |ds| {
      assert ds[..i] == ds;
      q := 0;
    } else {
      hide Tens;
      var r := NumberCut(ds, i + 1);
      assert ds[..i + 1][..i] == ds[..i];
      NumberSnoc(ds[..i + 1]);
      TensNext(i);
      q := ds[i] + 10 * r;
      Regroup(ds[i], r, Tens(i));
    }
  }

  lemma Regroup(d: int, r: int, t: int)
    ensures d * t + r * (10 * t) == (d + 10 * r) * t
  {
  }

  /** The fraction of a number below a place. */
  lemma FracBelow(value: real, number: int, q: int, s: int, n: nat)
    requires 0 <= number < Tens(n) && q >= 0
    requires value == (number + q * Tens(n)) as real * Pow10(s)
    ensures Frac(value / Pow10(s + n)) == Below(number, n)
  {
    hide Frac, Tens, Pow10, Below;
    var t := Tens(n);
    SmallMod(number, t);
    BelowIs(number, n);
    BelowBounds(number, n);
    Pow10Shift(s, n);
    RealSum(number, q, t);
    OffRatio(value, (number + q * t) as real, q as real, number as real, Pow10(s), t as real, Pow10(s + n));
    FracOf(value / Pow10(s + n), q, Below(number, n));
  }

  /** Ten times the fraction below a place is the digit before that place and the fraction below it. */
  lemma BelowTimesTen(ds: seq<int>, i: nat)
    requires i < |ds| && Digits(ds)
    ensures Below(Number(ds[..i + 1]), i + 1) * 10.0 == Place(ds, i)
  {
    hide Tens, Number;
    assert ds[..i + 1][..i] == ds[..i];
    NumberSnoc(ds[..i + 1]);
    NumberBound(ds[..i + 1]);
    NumberBound(ds[..i]);
    TensNext(i);
    var number, t := Number(ds[..i]), Tens(i);
    SmallMod(number, t);
    SmallMod(Number(ds[..i + 1]), Tens(i + 1));
    assert Number(ds[..i + 1]) as real == ds[i] as real * t as real + number as real by {
      assert (ds[i] * t) as real == ds[i] as real * t as real;
    }
    SumRatio(ds[i] as real, number as real, t as real);
    TenthOf(Number(ds[..i + 1]) as real, t as real);
  }

  lemma TenthOf(a: real, t: real)
    requires t > 0.0
    ensures a / (10.0 * t) * 10.0 == a / t
  {
    var q := a / (10.0 * t);
    assert q * (10.0 * t) == a;
    assert q * 10.0 * t == a;
  }

  /** For every scaler: if the last value shows the digits ds, the old digit in place i is that digit with the
      smaller ones rounded into it; in the smallest place it is the digit itself. */
  lemma LastDigitIs(b: Box, ds: seq<int>, s: int, i: nat)
    requires i < |ds| && Digits(ds) && b.scaler == s + i
    ensures LastDigit(b, Num(Scale(Number(ds), s))) == Lrint(Place(ds, i))
    ensures i == 0 || Below(Number(ds[..i]), i) < 0.5 ==> LastDigit(b, Num(Scale(Number(ds), s))) == ds[i]
  {
    hide Frac, Tens, Pow10, Below, Lrint, Number, Scale;
    var q := NumberCut(ds, i + 1);
    NumberBound(ds[..i + 1]);
    ScaleIs(Number(ds), s);
    FracBelow(Scale(Number(ds), s), Number(ds[..i + 1]), q, s, i + 1);
    BelowTimesTen(ds, i);
    BelowBounds(Number(ds[..i]), i);
    if i == 0 { NothingBelow(Number(ds[..0])); }
    if Below(Number(ds[..i]), i) < 0.5 { LrintNear(Place(ds, i), ds[i]); }
  }

  lemma NothingBelow(number: int)
    ensures Below(number, 0) == 0.0
  {
  }

  /** A digit box after an image that showed the digits ds, smaller ones below one half: with a position from 0
      on and before 10 it shows the old digit again if and only if the needle is less than half a digit
      before it and less than one and a half after it, around the dial, or at 8.5 after a 9. */
  lemma OldDigitKept(b: Box, scan: Scan, ds: seq<int>, s: int, i: nat)
    requires i < |ds| && Digits(ds) && b.scaler == s + i && (i == 0 || Below(Number(ds[..i]), i) < 0.5)
    requires BoxOk(b) && ScanOk(scan) && scan.Needle? && 0.0 <= NeedlePosition(b, scan) < 10.0
    ensures var fnew := NeedlePosition(b, scan);
            OwnDigit(b, scan, Some(Num(Scale(Number(ds), s)))) == ds[i] <==>
            -0.5 < Ahead(ds[i], fnew) < 1.5 || (ds[i] == 9 && fnew == 8.5)
  {
    hide LastDigit, Number, Scale, Below, NeedlePosition, Debounce, Hysteresis;
    LastDigitIs(b, ds, s, i);
    DebounceHysteresis(ds[i], NeedlePosition(b, scan));
    HysteresisKeeps(ds[i], NeedlePosition(b, scan));
    KeptAtNine();
    var prev, fnew := ds[i], NeedlePosition(b, scan);
    assert OwnDigit(b, scan, Some(Num(Scale(Number(ds), s)))) == Debounce(prev, fnew);
    assert Debounced(prev, fnew) <==> !(prev == 9 && fnew == 8.5);
  }

  lemma HysteresisKeeps(prev: int, fnew: real)
    requires 0 <= prev <= 9 && 0.0 <= fnew < 10.0
    ensures Hysteresis(prev, fnew) == prev <==> -0.5 < Ahead(prev, fnew) < 1.5
  {
    SmallMod(prev, 10);
  }

  /** The one position from 0 on and before 10 at which a digit departs from the hysteresis. */
  lemma KeptAtNine()
    ensures Debounce(9, 8.5) == 9
  {
  }

  // ------------------------------------------------------------------ confidence

  /** Confidence is lowered if rounding changes the digit read: by 10 if smaller dials are below one half, else
      by 15; the digit shown is then another one, unless a 10 is shown as 0. */
  lemma RoundConfidence(cur: int, fnr: real, smaller: real, conf: int)
    ensures var (nr, c) := RoundBySmaller(cur, fnr, smaller, conf);
            && (c == conf || c == conf - if smaller < 0.5 then 10 else 15)
            && (c == conf ==> nr == cur)
            && (c != conf && nr == cur ==> nr == 0 && smaller < 0.5)
  {
  }

  /** Confidence of dial i of an identifier. */
  function ConfAt(dials: seq<Dial>, i: nat, last: Option<Value>): int
    requires i < |dials|
  {
    if dials[i].scan.Unseen? then 0
    else DialDigit(dials[i].box, dials[i].scan, CollectOwn(NO_READS, dials[..i], last).value, last).1
  }

  lemma AddDialConfidence(r: Reads, dial: Dial, last: Option<Value>)
    ensures var conf := if dial.scan.Unseen? then 0 else DialDigit(dial.box, dial.scan, r.value, last).1;
            AddDial(r, dial, last).minConf ==
            if r.minConf.None? || conf < r.minConf.value || dial.scan.Unseen? then Some(conf) else r.minConf
  {
    hide DialDigit, Pow10;
  }

  /** The confidence kept for an identifier is the least of its dials. */
  lemma {:induction false} LeastConfidence(dials: seq<Dial>, last: Option<Value>) returns (k: nat)
    requires dials != []
    ensures k < |dials| && CollectOwn(NO_READS, dials, last).minConf == Some(ConfAt(dials, k, last))
    ensures forall i :: 0 <= i < |dials| ==> ConfAt(dials, k, last) <= ConfAt(dials, i, last)
    decreases |dials|
  {
    hide DialDigit, CollectOwn, AddDial;
    var n := |dials| - 1;
    var init := dials[..n];
    assert init + [dials[n]] == dials;
    var r := CollectOwn(NO_READS, init, last);
    CollectSnoc(NO_READS, init, dials[n], last);
    AddDialConfidence(r, dials[n], last);
    SeenConfidence(dials, n, last);
    if n == 0 {
      assert init == [];
      NoReadsYet(last);
      k := 0;
    } else {
      k := LeastConfidence(init, last);
      SeenConfidence(init, k, last);
      forall i | 0 <= i < n ensures ConfAt(init, i, last) == ConfAt(dials, i, last) {
        assert init[..i] == dials[..i];
      }
      if ConfAt(dials, n, last) < ConfAt(dials, k, last) || dials[n].scan.Unseen? { k := n; }
    }
  }

  /** It is 0 exactly if a dial was not seen, and at least 85 else. */
  lemma ConfidenceZero(dials: seq<Dial>, last: Option<Value>)
    requires dials != []
    ensures var r := CollectOwn(NO_READS, dials, last).minConf;
            if exists i :: 0 <= i < |dials| && dials[i].scan.Unseen? then r == Some(0)
            else r in {Some(85), Some(90), Some(100)}
  {
    hide ConfAt, CollectOwn;
    var k := LeastConfidence(dials, last);
    SeenConfidence(dials, k, last);
    if i :| 0 <= i < |dials| && dials[i].scan.Unseen? {
      SeenConfidence(dials, i, last);
    }
  }

  lemma NoReadsYet(last: Option<Value>)
    ensures CollectOwn(NO_READS, [], last) == NO_READS
  {
  }

  lemma SeenConfidence(dials: seq<Dial>, i: nat, last: Option<Value>)
    requires i < |dials|
    ensures if dials[i].scan.Unseen? then ConfAt(dials, i, last) == 0 else ConfAt(dials, i, last) in {85, 90, 100}
  {
    hide CollectOwn, NeedleNumber, NeedlePosition, Frac, Pow10, OwnDigit;
  }

  /** The identifier of the confidence reading is the last one configured. */
  lemma {:induction false} LastConfId(dials: seq<Dial>, last: Option<Value>, i: nat)
    requires i < |dials| && dials[i].box.confId != ""
    requires forall j :: i < j < |dials| ==> dials[j].box.confId == ""
    ensures CollectOwn(NO_READS, dials, last).confId == dials[i].box.confId
    decreases |dials|
  {
    hide DialDigit, CollectOwn;
    var n := |dials| - 1;
    assert dials[..n] + [dials[n]] == dials;
    CollectSnoc(NO_READS, dials[..n], dials[n], last);
    if i < n { LastConfId(dials[..n], last, i); }
  }

  // ------------------------------------------------------------------ corners at concrete boxes

  /** Offset 1 and a needle around 324 degrees: position 10; above a 5 it is read as 10 instead of 0. */
  lemma TenAboveFive()
    ensures var b, scan := Box("", "", 1, false, 1.0), Needle(320, 328);
            && BoxOk(b) && ScanOk(scan) && NeedlePosition(b, scan) == 10.0 && Near(10.0, 0.5)
            && DialDigit(b, scan, Num(5.0), None).0 == 10
  {
    assert Pow10(1) == 10.0;
  }

  /** Offset -10 and a needle just before the mark: the position stays below 0, and above a 4 the digit 9 is
      read as 0. */
  lemma NineReadAsZero()
    ensures var b, scan := Box("", "", 1, false, -10.0), Needle(-15, 0);
            && BoxOk(b) && ScanOk(scan) && NeedlePosition(b, scan) == -15.0 / 72.0 && Near(-15.0 / 72.0, 9.4)
            && DialDigit(b, scan, Num(4.0), None).0 == 0
  {
    assert Pow10(1) == 10.0;
  }

  /** An undershoot: position -1.5 instead of 8.5, and the digit 9 is read as -1. */
  lemma NineReadAsMinusOne()
    ensures var b, scan := Box("", "", 0, false, -10.0), Needle(-108, 0);
            && BoxOk(b) && ScanOk(scan) && NeedlePosition(b, scan) == -1.5 && Near(-1.5, 9.0)
            && DialDigit(b, scan, Num(0.0), None).0 == -1
  {
    assert Pow10(0) == 1.0;
  }

  /** The next dial shows 0.9; above -1 it is read as 1 instead of 0, so that the number is 9 again. */
  lemma UndershootMadeGood()
    ensures var b, scan := Box("", "", 1, false, 0.0), Needle(31, 34);
            && BoxOk(b) && ScanOk(scan) && Near(NeedlePosition(b, scan), 0.9)
            && DialDigit(b, scan, Num(-1.0), None).0 == 1
  {
    var b, scan := Box("", "", 1, false, 0.0), Needle(31, 34);
    assert Pow10(1) == 10.0;
    assert Frac(-1.0 / 10.0) == -0.1;
    assert NeedlePosition(b, scan) == 65.0 / 72.0 && NeedleNumber(b, scan) == 0;
    assert RoundBySmaller(0, 65.0 / 72.0, -0.1, 100).0 == 1;
  }

  // ------------------------------------------------------------------ impulses

  /** Difference of two values in impulses. */
  function RawDiff(impulses: int, value: real, before: real): int {
    Lrint((value - before) * impulses as real)
  }

  /** The same with a value before that may be no number. */
  function RawStep(impulses: int, value: real, before: Value): int {
    if before.NaN? then LRINT_NAN else RawDiff(impulses, value, before.v)
  }

  /** Impulses between two values of a dial that counts `impulses` per turn. */
  method CalcImpulses(impulses: int, value: real, before: Value) returns (imp: int)
    ensures imp == ImpulsesOf(impulses, RawStep(impulses, value, before))
  {
    hide RawStep;
    imp := RawStep(impulses, value, before);
    ghost var diff := imp;
    if impulses >= 10 && (if imp < 0 then -imp else imp) > impulses / 2 {
      if imp < 0 {
        while imp < 0
          invariant (imp - diff) % impulses == 0 && diff <= imp < impulses
        {
          imp := imp + impulses;
          StepMod(imp - impulses - diff, impulses);
        }
        ModUnique(imp, diff, impulses);
      } else {
        while imp > 0
          invariant (diff - imp) % impulses == 0 && -impulses < imp <= diff
        {
          imp := imp - impulses;
          StepMod(diff - imp - impulses, impulses);
        }
        ModUnique(-imp, -diff, impulses);
      }
    }
  }

  /** A difference of more than half a turn is taken to be a wrap in the other direction. */
  function ImpulsesOf(impulses: int, diff: int): int {
    if impulses >= 10 && diff < 0 && -diff > impulses / 2 then diff % impulses
    else if impulses >= 10 && diff > 0 && diff > impulses / 2 then -((-diff) % impulses)
    else diff
  }

  /** With less than ten impulses a turn, or up to half a turn, the difference is taken as it is; a larger one is
      taken to be less than a turn in the other direction. */
  lemma ImpulsesWrap(impulses: int, diff: int)
    requires impulses > 0
    ensures var d := ImpulsesOf(impulses, diff); var size := if diff < 0 then -diff else diff;
            if impulses < 10 || size <= impulses / 2 then d == diff
            else (d - diff) % impulses == 0 && if diff < 0 then 0 <= d < impulses else -impulses < d <= 0
  {
    ImpulsesCongruent(impulses, diff);
  }

  lemma StepMod(a: int, t: int)
    requires t > 0 && a % t == 0
    ensures (a + t) % t == 0
  {
    ModAdd(a, 1, t);
  }

  /** The count is always congruent to the raw difference. */
  lemma ImpulsesCongruent(impulses: int, diff: int)
    requires impulses > 0
    ensures (ImpulsesOf(impulses, diff) - diff) % impulses == 0
  {
    var back := -diff;
    if diff < 0 {
      RemainderCongruent(diff, impulses);
    } else {
      RemainderCongruent(back, impulses);
      assert -(back % impulses) - diff == back - back % impulses;
    }
    SmallMod(0, impulses);
  }

  /** Advancing k counts from position p, possibly past the end of the dial, is counted as k exactly
      when k is less than half a turn, or is half a turn that did not wrap. */
  lemma ImpulsesExact(impulses: int, p: int, k: int)
    requires impulses >= 10 && 0 <= p < impulses && 0 <= k < impulses
    ensures var diff := (p + k) % impulses - p;
            ImpulsesOf(impulses, diff) == k <==>
            2 * k < impulses || (2 * k == impulses && p + k < impulses)
  {
    var wrapped := p + k >= impulses;
    var diff := (p + k) % impulses - p;
    if wrapped {
      ModAdd(p + k - impulses, 1, impulses);
      SmallMod(p + k - impulses, impulses);
      ModAdd(k, -1, impulses);
      SmallMod(k, impulses);
    } else {
      SmallMod(p + k, impulses);
      if k > 0 {
        ModAdd(-k, 1, impulses);
        SmallMod(impulses - k, impulses);
      }
    }
  }

  lemma LrintNear(x: real, n: int)
    requires -0.5 < x - n as real < 0.5
    ensures Lrint(x) == n
  {
  }

  /** One read in impulse mode, for one identifier; `others` says that another identifier of the image is
      invalid. Without a last value nothing is reported and whatever was read is kept, even an invalid
      value; with one, an invalid value of any identifier makes the last values be forgotten. */
  function ReadStep(impulses: int, last: Option<Value>, value: Value, others: bool): (Option<int>, Option<Value>) {
    (if last.None? || value.NaN? then None else Some(ImpulsesOf(impulses, RawStep(impulses, value.v, last.value))),
     if last.Some? && (value.NaN? || others) then None else Some(value))
  }

  class ImpulseMeter {
    const impulses: int
    var lastReads: Option<Value>

    constructor (impulses: int)
      ensures this.impulses == impulses && lastReads == None
    {
      this.impulses, lastReads := impulses, None;
    }

    method Read(value: Value, others: bool) returns (imp: Option<int>)
      modifies this
      ensures (imp, lastReads) == ReadStep(impulses, old(lastReads), value, others)
    {
      hide RawStep;
      var wasNAN := false;
      imp := None;
      if lastReads.Some? {
        if value.Num? {
          var n := CalcImpulses(impulses, value.v, lastReads.value);
          imp := Some(n);
        } else {
          wasNAN := true;
        }
        if others { wasNAN := true; }
      }
      lastReads := None;
      if !wasNAN { lastReads := Some(value); }
    }
  }

  /** Advance of the dial since the sample before, what was read then, and whether another identifier was
      invalid. */
  datatype Sample = Sample(advance: int, value: Value, others: bool)

  /** A value read at count p, less than a quarter count off. */
  ghost predicate At(impulses: int, v: real, p: int) {
    -0.25 < v * impulses as real - p as real < 0.25
  }

  /** The samples follow a dial that stands at count p and never advances half a turn between them. */
  ghost predicate Tracks(impulses: int, p: int, samples: seq<Sample>)
    requires impulses > 0
    decreases |samples|
  {
    samples == [] ||
    (var k := samples[0].advance; var p1 := (p + k) % impulses;
     && 0 <= k && 2 * k < impulses
     && (samples[0].value.Num? ==> At(impulses, samples[0].value.v, p1))
     && Tracks(impulses, p1, samples[1..]))
  }

  /** Sum of the impulses reported over a run. */
  function Reported(impulses: int, last: Option<Value>, samples: seq<Sample>): int
    decreases |samples|
  {
    if samples == [] then 0
    else
      var (imp, next) := ReadStep(impulses, last, samples[0].value, samples[0].others);
      (if imp.Some? then imp.value else 0) + Reported(impulses, next, samples[1..])
  }

  function Advance(samples: seq<Sample>): int
    decreases |samples|
  {
    if samples == [] then 0 else samples[0].advance + Advance(samples[1..])
  }

  /** What is kept between reads. */
  datatype Kept = Forgotten | Invalid | Valid

  function KeptOf(last: Option<Value>): Kept {
    if last.None? then Forgotten else if last.value.NaN? then Invalid else Valid
  }

  function KeptAfter(kept: Kept, sample: Sample): Kept {
    if kept != Forgotten && (sample.value.NaN? || sample.others) then Forgotten
    else if sample.value.NaN? then Invalid
    else Valid
  }

  /** Advance that is not reported: up to an invalid value, or up to the first one after the last value was
      forgotten or while it is invalid. */
  function Missed(kept: Kept, samples: seq<Sample>): int
    decreases |samples|
  {
    if samples == [] then 0
    else
      (if kept == Valid && samples[0].value.Num? then 0 else samples[0].advance) +
      Missed(KeptAfter(kept, samples[0]), samples[1..])
  }

  /** Valid values read while the kept one is invalid: each reports impulses that come from no dial. */
  function Spurious(kept: Kept, samples: seq<Sample>): nat
    decreases |samples|
  {
    if samples == [] then 0
    else
      (if kept == Invalid && samples[0].value.Num? then 1 else 0) + Spurious(KeptAfter(kept, samples[0]), samples[1..])
  }

  lemma ReportOne(impulses: int, p: int, k: int, o: real, v: real)
    requires impulses >= 10 && 0 <= p < impulses && 0 <= k && 2 * k < impulses
    requires At(impulses, o, p) && At(impulses, v, (p + k) % impulses)
    ensures ImpulsesOf(impulses, RawDiff(impulses, v, o)) == k
  {
    hide RawDiff, At, ImpulsesOf;
    RawDiffNear(impulses, o, v, p, (p + k) % impulses);
    ImpulsesExact(impulses, p, k);
  }

  lemma RawDiffNear(impulses: int, o: real, v: real, a: int, b: int)
    requires At(impulses, o, a) && At(impulses, v, b)
    ensures RawDiff(impulses, v, o) == b - a
  {
    Difference(v, o, impulses as real);
    var x := (v - o) * impulses as real;
    LrintNear(x, b - a);
    assert RawDiff(impulses, v, o) == Lrint(x);
  }

  lemma Difference(v: real, o: real, t: real)
    ensures (v - o) * t == v * t - o * t
  {
  }

  /** Reported impulses are the true advance less what was missed, plus, for each valid value that meets an
      invalid kept one, what lrint makes of no number. */
  lemma {:induction false} ReportedIsAdvance(impulses: int, p: int, last: Option<Value>, samples: seq<Sample>)
    requires impulses >= 10 && 0 <= p < impulses && Tracks(impulses, p, samples)
    requires last.Some? && last.value.Num? ==> At(impulses, last.value.v, p)
    ensures Reported(impulses, last, samples) ==
            Advance(samples) - Missed(KeptOf(last), samples) +
            Spurious(KeptOf(last), samples) * ImpulsesOf(impulses, LRINT_NAN)
    decreases |samples|
  {
    hide RawDiff, At, ImpulsesOf;
    if samples != [] {
      var sample := samples[0];
      var p1 := (p + sample.advance) % impulses;
      if last.Some? && last.value.Num? && sample.value.Num? {
        ReportOne(impulses, p, sample.advance, last.value.v, sample.value.v);
      }
      var next := ReadStep(impulses, last, sample.value, sample.others).1;
      assert KeptOf(next) == KeptAfter(KeptOf(last), sample);
      ReportedIsAdvance(impulses, p1, next, samples[1..]);
      OneMore(if KeptOf(last) == Invalid && sample.value.Num? then 1 else 0, Spurious(KeptOf(next), samples[1..]),
              ImpulsesOf(impulses, LRINT_NAN));
    }
  }

  lemma OneMore(a: int, b: int, t: int)
    ensures (a + b) * t == a * t + b * t
  {
  }

  /** With valid images only, from a valid value on, nothing is missed and nothing spurious. */
  lemma {:induction false} ValidMissesNothing(samples: seq<Sample>)
    requires forall i :: 0 <= i < |samples| ==> samples[i].value.Num? && !samples[i].others
    ensures Missed(Valid, samples) == 0 && Spurious(Valid, samples) == 0
    decreases |samples|
  {
    if samples != [] {
      ValidMissesNothing(samples[1..]);
    }
  }

  /** Two invalid images in a row after a valid one are enough for spurious impulses: the first makes the
      meter forget, the second is kept. */
  lemma TwoInvalidAreKept(advance: int, value: real)
    ensures var invalid, valid := Sample(advance, NaN, false), Sample(advance, Num(value), false);
            && Spurious(Valid, [invalid, invalid, valid]) == 1
            && Spurious(Valid, [invalid, valid]) == 0 && Spurious(Forgotten, [invalid, valid]) == 1
  {
    var invalid, valid := Sample(advance, NaN, false), Sample(advance, Num(value), false);
    assert [invalid, invalid, valid][1..] == [invalid, valid] && [invalid, valid][1..] == [valid] && [valid][1..] == [];
    assert Spurious(Invalid, [valid]) == 1 && Spurious(Forgotten, [valid]) == 0;
    assert Spurious(Forgotten, [invalid, valid]) == 1;
  }

  /** Spurious impulses arise exactly when a valid value follows an even number, at least two, of invalid
      ones after a value that was kept, or an odd number after a forgotten one. */
  lemma {:induction false} InvalidRun(kept: Kept, invalid: seq<Sample>, valid: Sample)
    requires (forall i :: 0 <= i < |invalid| ==> invalid[i].value.NaN?) && valid.value.Num? && kept != Invalid
    ensures Spurious(kept, invalid + [valid]) ==
            if invalid != [] && (|invalid| % 2 == 0 <==> kept == Valid) then 1 else 0
    decreases |invalid|
  {
    if invalid == [] {
      assert [] + [valid] == [valid] && [valid][1..] == [];
      assert Spurious(KeptAfter(kept, valid), []) == 0;
    } else if kept == Valid {
      assert (invalid + [valid])[1..] == invalid[1..] + [valid];
      InvalidRun(Forgotten, invalid[1..], valid);
    } else if |invalid| == 1 {
      assert (invalid + [valid])[1..] == [valid] && [valid][1..] == [];
      assert Spurious(Invalid, [valid]) == 1;
    } else {
      assert (invalid + [valid])[1..] == invalid[1..] + [valid];
      assert (invalid[1..] + [valid])[1..] == invalid[2..] + [valid];
      InvalidRun(Forgotten, invalid[2..], valid);
    }
  }
}
