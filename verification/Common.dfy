/** Small vocabulary shared by the models. */
module Common {
  datatype Option<+T> = None | Some(value: T)

  const TWO31: int := 0x8000_0000
  const TWO32: int := 0x1_0000_0000
  const TWO64: int := 0x1_0000_0000_0000_0000

  /** The value a 32-bit two's complement int keeps of n. */
  function Int32(n: int): (r: int)
    ensures -TWO31 <= r < TWO31
    ensures (r - n) % TWO32 == 0
    ensures -TWO31 <= n < TWO31 ==> r == n
  {
    (n + TWO31) % TWO32 - TWO31
  }

  /** Integer division as C does it: the quotient is truncated toward zero. */
  function TruncDiv(a: int, b: int): int
    requires b > 0
  {
    if a >= 0 then a / b else -((-a) / b)
  }

  /** Conversion of a floating-point value to int as C does it. */
  function Trunc(x: real): int {
    if x >= 0.0 then x.Floor else -((-x).Floor)
  }

  function Last<T>(s: seq<T>): T
    requires s != []
  {
    s[|s| - 1]
  }

  function Init<T>(s: seq<T>): seq<T>
    requires s != []
  {
    s[..|s| - 1]
  }

  function Flatten<T>(parts: seq<seq<T>>): seq<T> {
    if parts == [] then [] else parts[0] + Flatten(parts[1..])
  }

  lemma {:induction false} FlattenSnoc<T>(parts: seq<seq<T>>, part: seq<T>)
    ensures Flatten(parts + [part]) == Flatten(parts) + part
  {
    if parts == [] {
      assert parts + [part] == [part];
      assert [part][1..] == [];
    } else {
      FlattenSnoc(parts[1..], part);
      assert (parts + [part])[1..] == parts[1..] + [part];
    }
  }

  // ------------------------------------------------------------------ remainders

  lemma TimesAtLeast(x: int, t: int)
    requires x >= 1 && t > 0
    ensures x * t >= t
  {
  }

  lemma SmallMod(a: int, t: int)
    requires 0 <= a < t
    ensures a % t == a
  {
  }

  /** Quotient and remainder are unique. */
  lemma ModOf(q: int, r: int, t: int)
    requires 0 <= r < t
    ensures (q * t + r) % t == r && (q * t + r) / t == q
  {
    var a := q * t + r;
    var q2, r2 := a / t, a % t;
    assert a == q2 * t + r2;
    assert (q - q2) * t == r2 - r && (q2 - q) * t == r - r2;
    if q > q2 { TimesAtLeast(q - q2, t); }
    if q < q2 { TimesAtLeast(q2 - q, t); }
  }

  lemma ModAdd(a: int, b: int, t: int)
    requires t > 0
    ensures (a + b * t) % t == a % t
  {
    var q, r := a / t, a % t;
    assert a == q * t + r;
    assert (q + b) * t == q * t + b * t;
    ModOf(q + b, r, t);
  }

  /** A number and its remainder differ by a multiple. */
  lemma RemainderCongruent(a: int, t: int)
    requires t > 0
    ensures (a % t - a) % t == 0 && (a - a % t) % t == 0
  {
    var q := a / t;
    assert a == q * t + a % t;
    assert -(q * t) == (-q) * t;
    ModAdd(0, -q, t);
    ModAdd(0, q, t);
  }

  lemma ModUnique(a: int, b: int, t: int)
    requires t > 0 && 0 <= a < t && (a - b) % t == 0
    ensures a == b % t
  {
    var q := (a - b) / t;
    assert a - b == q * t;
    ModAdd(b, q, t);
    SmallMod(a, t);
  }
}
