/** Well-formed UTF-8, section 4 of RFC 3629. */
module Utf8 {
  import opened Binary

  predicate Continues(b: Byte) {
    0x80 <= b <= 0xBF
  }

  /** How many bytes the well-formed character at the head has; none if there is no such character. */
  function CharLength(b: Bytes): (n: nat)
    ensures n <= |b| && (b == [] ==> n == 0)
  {
    if b == [] then 0
    else if b[0] <= 0x7F then 1
    else if 0xC2 <= b[0] <= 0xDF && |b| >= 2 && Continues(b[1]) then 2
    else if 0xE0 <= b[0] <= 0xEF && |b| >= 3 && SecondOfThree(b[0], b[1]) && Continues(b[2]) then 3
    else if 0xF0 <= b[0] <= 0xF4 && |b| >= 4 && SecondOfFour(b[0], b[1]) && Continues(b[2]) && Continues(b[3]) then 4
    else 0
  }

  /** No overlong form and no surrogate. */
  predicate SecondOfThree(first: Byte, second: Byte) {
    if first == 0xE0 then 0xA0 <= second <= 0xBF
    else if first == 0xED then 0x80 <= second <= 0x9F
    else Continues(second)
  }

  /** No overlong form and nothing beyond the last code point. */
  predicate SecondOfFour(first: Byte, second: Byte) {
    if first == 0xF0 then 0x90 <= second <= 0xBF
    else if first == 0xF4 then 0x80 <= second <= 0x8F
    else Continues(second)
  }

  predicate IsUtf8(b: Bytes)
    decreases |b|
  {
    b == [] || (CharLength(b) > 0 && IsUtf8(b[CharLength(b)..]))
  }

  /** An ASCII byte is never part of a longer character, so a text is cut there without breaking one. */
  lemma {:induction false} CutAtAscii(a: Bytes, c: Byte, b: Bytes)
    requires c <= 0x7F
    ensures IsUtf8(a + [c] + b) <==> IsUtf8(a) && IsUtf8(b)
    decreases |a|
  {
    var all := a + [c] + b;
    if a == [] {
      assert all[0] == c && all[1..] == b;
    } else {
      var n := CharLength(a);
      SameChar(a, c, b);
      if n > 0 {
        assert all[n..] == a[n..] + [c] + b;
        CutAtAscii(a[n..], c, b);
      }
    }
  }

  lemma SameChar(a: Bytes, c: Byte, b: Bytes)
    requires c <= 0x7F && a != []
    ensures CharLength(a + [c] + b) == CharLength(a)
  {
    var all := a + [c] + b;
    assert forall i :: 0 <= i < |a| ==> all[i] == a[i];
    assert all[|a|] == c;
  }

  // ---------------------------------------------------------------------------
  // Texts are what encodes characters
  // ---------------------------------------------------------------------------

  /** A Unicode scalar value: any code point but the surrogates. */
  predicate IsScalar(c: nat) {
    c <= 0xD7FF || 0xE000 <= c <= 0x10FFFF
  }

  /** The table of section 3. */
  function Encode(c: nat): (b: Bytes)
    requires IsScalar(c)
    ensures b != []
  {
    if c <= 0x7F then [c]
    else if c <= 0x7FF then [0xC0 + c / 64, 0x80 + c % 64]
    else if c <= 0xFFFF then [0xE0 + c / 4096, 0x80 + c / 64 % 64, 0x80 + c % 64]
    else [0xF0 + c / 262144, 0x80 + c / 4096 % 64, 0x80 + c / 64 % 64, 0x80 + c % 64]
  }

  ghost predicate AllScalar(text: seq<nat>) {
    forall i :: 0 <= i < |text| ==> IsScalar(text[i])
  }

  function EncodeAll(text: seq<nat>): Bytes
    requires AllScalar(text)
  {
    if text == [] then [] else Encode(text[0]) + EncodeAll(text[1..])
  }

  lemma EncodedIsChar(c: nat, more: Bytes)
    requires IsScalar(c)
    ensures CharLength(Encode(c) + more) == |Encode(c)|
  {
    EncodedAlone(c);
    SameHead(Encode(c), more);
  }

  lemma SameHead(head: Bytes, more: Bytes)
    requires CharLength(head) == |head| && head != []
    ensures CharLength(head + more) == |head|
  {
    assert forall i :: 0 <= i < |head| ==> (head + more)[i] == head[i];
  }

  lemma EncodedAlone(c: nat)
    requires IsScalar(c)
    ensures CharLength(Encode(c)) == |Encode(c)|
  {}

  /** Six more bits. */
  lemma SixBits(q: nat, r: nat)
    requires r < 64
    ensures (64 * q + r) / 64 == q && (64 * q + r) % 64 == r
  {}

  lemma TwoBytes(b: Bytes) returns (c: nat)
    requires CharLength(b) == 2
    ensures IsScalar(c) && b[..2] == Encode(c)
  {
    var x, y := b[0] as int - 0xC0, b[1] as int - 0x80;
    c := 64 * x + y;
    SixBits(x, y);
  }

  lemma ThreeBytes(b: Bytes) returns (c: nat)
    requires CharLength(b) == 3
    ensures IsScalar(c) && b[..3] == Encode(c)
  {
    var x, y, z := b[0] as int - 0xE0, b[1] as int - 0x80, b[2] as int - 0x80;
    c := 64 * (64 * x + y) + z;
    SixBits(x, y);
    SixBits(64 * x + y, z);
    assert c / 4096 == x;
  }

  lemma FourBytes(b: Bytes) returns (c: nat)
    requires CharLength(b) == 4
    ensures IsScalar(c) && b[..4] == Encode(c)
  {
    var w, x, y, z := b[0] as int - 0xF0, b[1] as int - 0x80, b[2] as int - 0x80, b[3] as int - 0x80;
    c := 64 * (64 * (64 * w + x) + y) + z;
    SixBits(w, x);
    SixBits(64 * w + x, y);
    SixBits(64 * (64 * w + x) + y, z);
    assert c / 4096 == 64 * w + x && c / 262144 == w;
  }

  lemma CharIsEncoded(b: Bytes) returns (c: nat)
    requires CharLength(b) > 0
    ensures IsScalar(c) && b[..CharLength(b)] == Encode(c)
  {
    match CharLength(b) {
      case 1 => c := b[0];
      case 2 => c := TwoBytes(b);
      case 3 => c := ThreeBytes(b);
      case _ => c := FourBytes(b);
    }
  }

  lemma {:induction false} EncodedIsText(text: seq<nat>)
    requires AllScalar(text)
    ensures IsUtf8(EncodeAll(text))
  {
    if text != [] {
      EncodedIsText(text[1..]);
      EncodedIsChar(text[0], EncodeAll(text[1..]));
      assert EncodeAll(text)[|Encode(text[0])|..] == EncodeAll(text[1..]);
    }
  }

  lemma {:induction false} TextIsEncoded(b: Bytes) returns (text: seq<nat>)
    requires IsUtf8(b)
    ensures AllScalar(text) && EncodeAll(text) == b
    decreases |b|
  {
    if b == [] {
      text := [];
    } else {
      var n := CharLength(b);
      var c := CharIsEncoded(b);
      var rest := TextIsEncoded(b[n..]);
      text := [c] + rest;
      assert text[1..] == rest && b == b[..n] + b[n..];
    }
  }

  /** Exactly the encodings of sequences of scalar values are accepted. */
  lemma TextIffEncoded(b: Bytes)
    ensures IsUtf8(b) <==> exists text :: AllScalar(text) && EncodeAll(text) == b
  {
    if IsUtf8(b) {
      var text := TextIsEncoded(b);
    } else if text :| AllScalar(text) && EncodeAll(text) == b {
      EncodedIsText(text);
    }
  }
}
