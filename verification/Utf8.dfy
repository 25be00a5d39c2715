/** UTF-8, and decoding that puts one replacement character where a byte sequence is cut short. */
module Utf8 {
  const REPLACEMENT: char := '\U{fffd}'

  function Width(c: char): (n: nat)
    ensures 1 <= n <= 4
  {
    var x := c as int;
    if x < 0x80 then 1 else if x < 0x800 then 2 else if x < 0x1_0000 then 3 else 4
  }

  function Bytes(c: char): (b: seq<int>)
    ensures |b| == Width(c)
  {
    var x := c as int;
    var q1 := x / 64;
    var q2 := q1 / 64;
    var q3 := q2 / 64;
    match Width(c)
    case 1 => [x]
    case 2 => [0xC0 + q1, 0x80 + x % 64]
    case 3 => [0xE0 + q2, 0x80 + q1 % 64, 0x80 + x % 64]
    case _ => [0xF0 + q3, 0x80 + q2 % 64, 0x80 + q1 % 64, 0x80 + x % 64]
  }

  function Encode(text: string): seq<int> {
    if text == "" then [] else Bytes(text[0]) + Encode(text[1..])
  }

  // ---------- Decoding ----------

  /** How many bytes the sequence that starts with this byte should have. */
  function Announced(lead: int): (n: nat)
    ensures 1 <= n <= 4
  {
    if 0xC0 <= lead < 0xE0 then 2 else if 0xE0 <= lead < 0xF0 then 3 else if 0xF0 <= lead < 0xF8 then 4 else 1
  }

  predicate IsContinuation(b: int) {
    0x80 <= b < 0xC0
  }

  /** The number of continuation bytes at the front, up to `most`. */
  function Continuations(b: seq<int>, most: nat): (n: nat)
    ensures n <= most && n <= |b|
  {
    if most == 0 || b == [] || !IsContinuation(b[0]) then 0 else 1 + Continuations(b[1..], most - 1)
  }

  /** The number a complete sequence stands for. */
  function Value(b: seq<int>): int
    requires 1 <= |b| <= 4
  {
    match |b|
    case 1 => b[0]
    case 2 => (b[0] - 0xC0) * 64 + (b[1] - 0x80)
    case 3 => (b[0] - 0xE0) * 4096 + (b[1] - 0x80) * 64 + (b[2] - 0x80)
    case _ => (b[0] - 0xF0) * 262144 + (b[1] - 0x80) * 4096 + (b[2] - 0x80) * 64 + (b[3] - 0x80)
  }

  predicate IsScalar(x: int) {
    0 <= x < 0xD800 || 0xE000 <= x < 0x11_0000
  }

  /** The length of the first sequence, or of what there is of it. */
  function Taken(b: seq<int>): (n: nat)
    requires b != []
    ensures 1 <= n <= |b| && n <= 4
  {
    1 + Continuations(b[1..], Announced(b[0]) - 1)
  }

  function Read(b: seq<int>): char
    requires b != []
  {
    var n := Taken(b);
    if n == Announced(b[0]) && IsScalar(Value(b[..n])) then Value(b[..n]) as char else REPLACEMENT
  }

  function Decode(b: seq<int>): string {
    if b == [] then "" else [Read(b)] + Decode(b[Taken(b)..])
  }

  // ---------- Round trip ----------

  lemma ReadWhole(c: char, rest: seq<int>)
    ensures Taken(Bytes(c) + rest) == Width(c) && Read(Bytes(c) + rest) == c
  {
    var b := Bytes(c) + rest;
    BytesShape(c);
    assert b[..Width(c)] == Bytes(c);
    ContinuationsOf(c, Width(c), rest);
    assert b[1..] == Bytes(c)[1..Width(c)] + rest;
  }

  lemma BytesShape(c: char)
    ensures Announced(Bytes(c)[0]) == Width(c) && Value(Bytes(c)) == c as int
    ensures forall i :: 0 < i < Width(c) ==> IsContinuation(Bytes(c)[i])
  {
    var x := c as int;
    var q1 := x / 64;
    var q2 := q1 / 64;
    assert x == q1 * 64 + x % 64 && q1 == q2 * 64 + q1 % 64 && q2 == q2 / 64 * 64 + q2 % 64;
    assert Width(c) == 2 ==> q1 < 32;
    assert Width(c) == 3 ==> q2 < 16;
    assert Width(c) == 4 ==> q2 / 64 < 5;
  }

  /** All continuation bytes among the first `n` bytes of a character are found. */
  lemma ContinuationsOf(c: char, n: nat, rest: seq<int>)
    requires 1 <= n <= Width(c) && (n == Width(c) || rest == [])
    ensures Continuations(Bytes(c)[1..n] + rest, Width(c) - 1) == n - 1
  {
    BytesShape(c);
    CountFront(Bytes(c)[1..n], rest, Width(c) - 1);
  }

  lemma {:induction false} CountFront(b: seq<int>, rest: seq<int>, most: nat)
    requires forall i :: 0 <= i < |b| ==> IsContinuation(b[i])
    requires |b| == most || (|b| < most && rest == [])
    ensures Continuations(b + rest, most) == |b|
  {
    if b != [] {
      assert (b + rest)[1..] == b[1..] + rest;
      CountFront(b[1..], rest, most - 1);
    }
  }

  /** Decoding undoes encoding. */
  lemma {:induction false} DecodeEncode(text: string)
    ensures Decode(Encode(text)) == text
  {
    if text != "" {
      var rest := Encode(text[1..]);
      ReadWhole(text[0], rest);
      DecodeEncode(text[1..]);
      assert (Bytes(text[0]) + rest)[Width(text[0])..] == rest;
    }
  }

  // ---------- Cutting ----------

  /** The number of characters that are complete in the first `n` bytes. */
  function Whole(text: string, n: nat): (k: nat)
    ensures k <= |text|
  {
    if text == "" || n < Width(text[0]) then 0 else 1 + Whole(text[1..], n - Width(text[0]))
  }

  /** The number of bytes the cut leaves of the character it falls into. */
  function Leftover(text: string, n: nat): nat {
    if text == "" then 0
    else if n < Width(text[0]) then n
    else Leftover(text[1..], n - Width(text[0]))
  }

  /** What is decoded from the part of a character that is left. */
  function Mark(left: nat): string {
    if left > 0 then [REPLACEMENT] else ""
  }

  lemma ReadCut(c: char, n: nat)
    requires 0 < n < Width(c)
    ensures Decode(Bytes(c)[..n]) == [REPLACEMENT]
  {
    var b := Bytes(c)[..n];
    BytesShape(c);
    ContinuationsOf(c, n, []);
    assert b[1..] == Bytes(c)[1..n] + [];
    assert Taken(b) == n;
    assert b[n..] == [];
  }

  /** What is decoded from a cut encoding: the complete characters, and a replacement for one that was cut. */
  lemma {:induction false} DecodeCut(text: string, n: nat)
    requires n <= |Encode(text)|
    ensures Decode(Encode(text)[..n]) == text[..Whole(text, n)] + Mark(Leftover(text, n))
  {
    hide Bytes, Read, Taken;
    if text != "" {
      var c, rest := text[0], Encode(text[1..]);
      if n < Width(c) {
        assert (Bytes(c) + rest)[..n] == Bytes(c)[..n];
        if n > 0 {
          ReadCut(c, n);
        }
      } else {
        var m := n - Width(c);
        assert (Bytes(c) + rest)[..n] == Bytes(c) + rest[..m];
        ReadWhole(c, rest[..m]);
        assert (Bytes(c) + rest[..m])[Width(c)..] == rest[..m];
        DecodeCut(text[1..], m);
        assert text[..Whole(text, n)] == [c] + text[1..][..Whole(text[1..], m)];
      }
    }
  }

  /** The complete characters take up all bytes but those left of the one that was cut. */
  lemma {:induction false} WholeSize(text: string, n: nat)
    requires n <= |Encode(text)|
    ensures |Encode(text[..Whole(text, n)])| + Leftover(text, n) == n
    ensures Leftover(text, n) <= 3
  {
    if text != "" && n >= Width(text[0]) {
      var m := n - Width(text[0]);
      WholeSize(text[1..], m);
      var k := Whole(text, n);
      assert text[..k][1..] == text[1..][..k - 1] && text[..k][0] == text[0];
    }
  }

  lemma EncodeStep(c: char, rest: string)
    ensures Encode([c] + rest) == Bytes(c) + Encode(rest) && Encode("") == []
  {
    hide Bytes;
    assert ([c] + rest)[1..] == rest;
  }

  lemma {:induction false} EncodeConcat(a: string, b: string)
    ensures Encode(a + b) == Encode(a) + Encode(b)
  {
    hide Bytes, Encode;
    if a == "" {
      assert a + b == b;
      EncodeStep(' ', "");
    } else {
      var c, rest := a[0], a[1..];
      EncodeConcat(rest, b);
      EncodeStep(c, rest + b);
      EncodeStep(c, rest);
      assert [c] + rest == a && [c] + (rest + b) == a + b;
    }
  }
}
