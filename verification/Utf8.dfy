/** Strict UTF-8 between code points and bytes. */
module Utf8 {
  import opened Prelude

  type Bytes = seq<int>

  /** A code point that has an encoding: in range, and no surrogate. */
  predicate Scalar(c: int) { 0 <= c < 0xD800 || 0xE000 <= c < 0x110000 }

  predicate AllScalar(t: Text) { forall i :: 0 <= i < |t| ==> Scalar(t[i]) }

  function Unit(c: int): (b: Bytes)
    requires Scalar(c)
    ensures b != []
  {
    if c < 0x80 then [c]
    else if c < 0x800 then [0xC0 + c / 64, 0x80 + c % 64]
    else if c < 0x10000 then [0xE0 + c / 4096, 0x80 + c / 64 % 64, 0x80 + c % 64]
    else [0xF0 + c / 262144, 0x80 + c / 4096 % 64, 0x80 + c / 64 % 64, 0x80 + c % 64]
  }

  /** The UTF-8 bytes of encodable text. */
  function Encoded(t: Text): Bytes
    requires AllScalar(t)
  {
    if t == [] then [] else Unit(t[0]) + Encoded(t[1..])
  }

  predicate Continues(b: int) { 0x80 <= b < 0xC0 }

  datatype First = First(point: int, size: nat)

  /** The first code point, in its shortest form only. */
  function DecodeFirst(b: Bytes): (f: Option<First>)
    ensures f.Some? ==> 1 <= f.value.size <= |b| && Scalar(f.value.point)
  {
    if b == [] then None
    else if 0 <= b[0] < 0x80 then Some(First(b[0], 1))
    else if 0xC2 <= b[0] < 0xE0 && 2 <= |b| && Continues(b[1]) then Some(First((b[0] - 0xC0) * 64 + (b[1] - 0x80), 2))
    else if 0xE0 <= b[0] < 0xF0 && 3 <= |b| && Continues(b[1]) && Continues(b[2]) then
      var c := (b[0] - 0xE0) * 4096 + (b[1] - 0x80) * 64 + (b[2] - 0x80);
      if 0x800 <= c && Scalar(c) then Some(First(c, 3)) else None
    else if 0xF0 <= b[0] < 0xF5 && 4 <= |b| && Continues(b[1]) && Continues(b[2]) && Continues(b[3]) then
      var c := (b[0] - 0xF0) * 262144 + (b[1] - 0x80) * 4096 + (b[2] - 0x80) * 64 + (b[3] - 0x80);
      if 0x10000 <= c && Scalar(c) then Some(First(c, 4)) else None
    else None
  }

  /** Strict UTF-8 decoding. */
  function Decode(b: Bytes): Option<Text>
    decreases |b|
  {
    if b == [] then Some([])
    else
      var first := DecodeFirst(b);
      if first.None? then None
      else
        var rest := Decode(b[first.value.size..]);
        if rest.None? then None else Some([first.value.point] + rest.value)
  }

  lemma {:induction false} TwoDigits(c: int)
    requires 0 <= c
    ensures c == c / 64 * 64 + c % 64 && 0 <= c % 64 < 64
    ensures c / 64 == c / 4096 * 64 + c / 64 % 64 && 0 <= c / 64 % 64 < 64
    ensures c / 4096 == c / 262144 * 64 + c / 4096 % 64 && 0 <= c / 4096 % 64 < 64
  {
  }

  lemma {:induction false} FirstOfUnit(c: int, rest: Bytes)
    requires Scalar(c)
    ensures DecodeFirst(Unit(c) + rest) == Some(First(c, |Unit(c)|))
  {
    TwoDigits(c);
  }

  /** Decoding an encoding gives the text back. */
  lemma {:induction false} RoundTrip(t: Text)
    requires AllScalar(t)
    ensures Decode(Encoded(t)) == Some(t)
  {
    hide DecodeFirst, Unit, Scalar;
    if t != [] {
      FirstOfUnit(t[0], Encoded(t[1..]));
      RoundTrip(t[1..]);
      assert Encoded(t)[|Unit(t[0])|..] == Encoded(t[1..]);
      assert [t[0]] + t[1..] == t;
    }
  }

  lemma {:induction false} Digit(high: int, low: int)
    requires 0 <= low < 64
    ensures (high * 64 + low) / 64 == high && (high * 64 + low) % 64 == low
  {
  }

  lemma {:induction false} Blocks(c: int)
    ensures c / 4096 == c / 64 / 64 && c / 262144 == c / 64 / 64 / 64
  {
  }

  lemma {:induction false} UnitThree(x: int, y: int, z: int)
    requires 0 <= x && 0 <= y < 64 && 0 <= z < 64
    requires 0x800 <= x * 4096 + y * 64 + z < 0x10000 && Scalar(x * 4096 + y * 64 + z)
    ensures Unit(x * 4096 + y * 64 + z) == [0xE0 + x, 0x80 + y, 0x80 + z]
  {
    var c := x * 4096 + y * 64 + z;
    Blocks(c);
    assert c == (x * 64 + y) * 64 + z;
    Digit(x * 64 + y, z);
    Digit(x, y);
  }

  lemma {:induction false} UnitFour(w: int, x: int, y: int, z: int)
    requires 0 <= w && 0 <= x < 64 && 0 <= y < 64 && 0 <= z < 64
    requires 0x10000 <= w * 262144 + x * 4096 + y * 64 + z && Scalar(w * 262144 + x * 4096 + y * 64 + z)
    ensures Unit(w * 262144 + x * 4096 + y * 64 + z) == [0xF0 + w, 0x80 + x, 0x80 + y, 0x80 + z]
  {
    var c := w * 262144 + x * 4096 + y * 64 + z;
    Blocks(c);
    assert c == ((w * 64 + x) * 64 + y) * 64 + z;
    Digit((w * 64 + x) * 64 + y, z);
    Digit(w * 64 + x, y);
    Digit(w, x);
  }

  lemma {:induction false} UnitOfFirst(b: Bytes)
    requires DecodeFirst(b).Some?
    ensures Unit(DecodeFirst(b).value.point) == b[..DecodeFirst(b).value.size]
  {
    var f := DecodeFirst(b).value;
    if f.size == 2 {
      Digit(b[0] - 0xC0, b[1] - 0x80);
    } else if f.size == 3 {
      hide Unit;
      UnitThree(b[0] - 0xE0, b[1] - 0x80, b[2] - 0x80);
    } else if f.size == 4 {
      hide Unit;
      UnitFour(b[0] - 0xF0, b[1] - 0x80, b[2] - 0x80, b[3] - 0x80);
    }
  }

  /** Whatever decodes is the encoding of its text: there is no second spelling. */
  lemma {:induction false} DecodeUnique(b: Bytes)
    requires Decode(b).Some?
    ensures AllScalar(Decode(b).value) && Encoded(Decode(b).value) == b
    decreases |b|
  {
    hide DecodeFirst, Unit, Scalar;
    if b != [] {
      var f := DecodeFirst(b).value;
      UnitOfFirst(b);
      DecodeUnique(b[f.size..]);
      assert Decode(b).value[1..] == Decode(b[f.size..]).value;
      assert b == b[..f.size] + b[f.size..];
    }
  }

  lemma {:induction false} EncodedAppend(a: Text, b: Text)
    requires AllScalar(a) && AllScalar(b)
    ensures AllScalar(a + b) && Encoded(a + b) == Encoded(a) + Encoded(b)
  {
    hide Unit, Scalar;
    if a == [] {
      assert a + b == b;
    } else {
      EncodedAppend(a[1..], b);
      assert (a + b)[1..] == a[1..] + b;
    }
  }
}
