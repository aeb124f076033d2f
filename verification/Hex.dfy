/** Lowercase hexadecimal with one spelling only, as the proofs need it. */
module Hex {
  type Byte = b: nat | b < 256

  predicate IsHexDigit(c: char) { '0' <= c <= '9' || 'a' <= c <= 'f' }

  function DigitValue(c: char): (x: nat)
    requires IsHexDigit(c)
    ensures x < 16
  {
    if c <= '9' then (c - '0') as nat else (c - 'a') as nat + 10
  }

  const DIGITS: string := "0123456789abcdef"

  function Digit(x: nat): (c: char)
    requires x < 16
    ensures IsHexDigit(c) && DigitValue(c) == x
  {
    DIGITS[x]
  }

  /** The text of n bytes: 2n digits. */
  predicate IsHex(s: string, n: nat) {
    |s| == 2 * n && forall i :: 0 <= i < |s| ==> IsHexDigit(s[i])
  }

  function Decode(s: string, n: nat): (b: seq<Byte>)
    requires IsHex(s, n)
    ensures |b| == n
  {
    seq(n, i requires 0 <= i < n => 16 * DigitValue(s[2 * i]) + DigitValue(s[2 * i + 1]))
  }

  function Encode(b: seq<Byte>): (s: string)
    ensures IsHex(s, |b|)
  {
    seq(2 * |b|, i requires 0 <= i < 2 * |b| => if i % 2 == 0 then Digit(b[i / 2] / 16) else Digit(b[i / 2] % 16))
  }

  lemma DigitIsOnly(c: char)
    requires IsHexDigit(c)
    ensures Digit(DigitValue(c)) == c
  {
  }

  lemma EncodeAt(b: seq<Byte>, i: nat)
    requires i < |b|
    ensures Encode(b)[2 * i] == Digit(b[i] / 16) && Encode(b)[2 * i + 1] == Digit(b[i] % 16)
    ensures 16 * DigitValue(Encode(b)[2 * i]) + DigitValue(Encode(b)[2 * i + 1]) == b[i]
  {
  }

  lemma DecodeOfEncode(b: seq<Byte>)
    ensures Decode(Encode(b), |b|) == b
  {
    forall i | 0 <= i < |b| ensures Decode(Encode(b), |b|)[i] == b[i] { EncodeAt(b, i); }
  }

  /** One spelling: what was accepted is what the bytes are printed as. */
  lemma EncodeOfDecode(s: string, n: nat)
    requires IsHex(s, n)
    ensures Encode(Decode(s, n)) == s
  {
    var b := Decode(s, n);
    forall i | 0 <= i < 2 * n ensures Encode(b)[i] == s[i] {
      var k := i / 2;
      var hi, lo := DigitValue(s[2 * k]), DigitValue(s[2 * k + 1]);
      assert b[k] == 16 * hi + lo && b[k] / 16 == hi && b[k] % 16 == lo;
      DigitIsOnly(s[i]);
    }
  }

  /** comp_hex_parse: fills the first n bytes of out, or refuses. */
  method HexParse(s: string, out: array<Byte>, n: nat) returns (ok: bool)
    requires n <= out.Length
    modifies out
    ensures ok <==> IsHex(s, n)
    ensures ok ==> out[..n] == Decode(s, n)
    ensures forall k :: n <= k < out.Length ==> out[k] == old(out[k])
  {
    if |s| != n * 2 { return false; }
    for i := 0 to n
      invariant IsHex(s[..2 * i], i) && out[..i] == Decode(s[..2 * i], i)
      invariant forall k :: n <= k < out.Length ==> out[k] == old(out[k])
    {
      var good, v := ParseByte(s[2 * i], s[2 * i + 1]);
      if !good { return false; }
      out[i] := v;
      DecodeGrows(s, i);
      assert out[..i + 1] == out[..i] + [v];
    }
    assert s[..2 * n] == s;
    ok := true;
  }

  /** The inner loop: two digits, the value shifted left by four for each. */
  method ParseByte(hi: char, lo: char) returns (ok: bool, v: Byte)
    ensures ok <==> IsHexDigit(hi) && IsHexDigit(lo)
    ensures ok ==> v == 16 * DigitValue(hi) + DigitValue(lo)
  {
    v := 0;
    for j := 0 to 2
      invariant j > 0 ==> IsHexDigit(hi)
      invariant j < 2 ==> v < 16
      invariant j > 1 ==> IsHexDigit(lo)
      invariant v == if j == 0 then 0 else if j == 1 then DigitValue(hi) else 16 * DigitValue(hi) + DigitValue(lo)
    {
      var c := if j == 0 then hi else lo;
      var x;
      if '0' <= c <= '9' {
        x := (c - '0') as nat;
      } else if 'a' <= c <= 'f' {
        x := (c - 'a') as nat + 10;
      } else {
        return false, 0;
      }
      assert IsHexDigit(c) && x == DigitValue(c);
      Shift(v);
      v := (v * 16) % 256 + x;
    }
    ok := true;
  }

  lemma Shift(v: nat)
    requires v < 16
    ensures (v * 16) % 256 == 16 * v
  {
  }

  /** One more pair of digits, one more byte. */
  lemma DecodeGrows(s: string, i: nat)
    requires 2 * i + 2 <= |s| && IsHex(s[..2 * i], i) && IsHexDigit(s[2 * i]) && IsHexDigit(s[2 * i + 1])
    ensures IsHex(s[..2 * (i + 1)], i + 1)
    ensures Decode(s[..2 * (i + 1)], i + 1) ==
      Decode(s[..2 * i], i) + [16 * DigitValue(s[2 * i]) + DigitValue(s[2 * i + 1])]
  {
  }

  /** comp_hex: 2n digits and a terminating zero. */
  method HexPrint(src: array<Byte>, n: nat, out: array<char>)
    requires n <= src.Length && 2 * n < out.Length
    modifies out
    ensures out[..2 * n] == Encode(src[..n]) && out[2 * n] == '\0'
  {
    for i := 0 to n
      invariant forall k :: 0 <= k < 2 * i ==> out[k] == Encode(src[..n])[k]
    {
      out[i * 2] := DIGITS[src[i] / 16];
      out[i * 2 + 1] := DIGITS[src[i] % 16];
    }
    out[n * 2] := '\0';
  }
}
