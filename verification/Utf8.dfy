/** UTF-8 as section 3 of RFC 3629 defines it, strictly decoded, and truncation to a number of bytes. */
module Utf8 {
  import opened Options

  type Byte = x: int | 0 <= x < 256
  type CodePoint = x: int | 0 <= x < 0x11_0000

  predicate Surrogate(c: CodePoint)
  {
    0xD800 <= c < 0xE000
  }

  predicate Clean(text: seq<CodePoint>)
  {
    forall i :: 0 <= i < |text| ==> !Surrogate(text[i])
  }

  // ---------- encoding ----------

  /** The number of bytes of a code point. */
  function Width(c: CodePoint): nat
  {
    if c < 0x80 then 1 else if c < 0x800 then 2 else if c < 0x1_0000 then 3 else 4
  }

  function EncodeOne(c: CodePoint): (r: seq<Byte>)
    ensures |r| == Width(c)
  {
    if c < 0x80 then [c]
    else if c < 0x800 then [0xC0 + c / 64, 0x80 + c % 64]
    else if c < 0x1_0000 then [0xE0 + c / 4096, 0x80 + c / 64 % 64, 0x80 + c % 64]
    else [0xF0 + c / 26_2144, 0x80 + c / 4096 % 64, 0x80 + c / 64 % 64, 0x80 + c % 64]
  }

  function Encode(text: seq<CodePoint>): seq<Byte>
  {
    if text == [] then [] else EncodeOne(text[0]) + Encode(text[1..])
  }

  // ---------- decoding ----------

  /** The number of bytes that a lead byte announces; 0 for a byte that cannot lead. */
  function Announced(b: Byte): nat
  {
    if b < 0x80 then 1 else if b < 0xC0 then 0 else if b < 0xE0 then 2 else if b < 0xF0 then 3 else if b < 0xF8 then 4 else 0
  }

  predicate Continues(b: Byte)
  {
    0x80 <= b < 0xC0
  }

  /** The payload bits of a byte with the given marker. */
  function Bits(b: Byte, marker: int): int
  {
    b as int - marker
  }

  /** The number that the payload bits spell. */
  function Payload(b: seq<Byte>): int
    requires 1 <= |b| <= 4
  {
    if |b| == 1 then b[0]
    else if |b| == 2 then Bits(b[0], 0xC0) * 64 + Bits(b[1], 0x80)
    else if |b| == 3 then Bits(b[0], 0xE0) * 4096 + Bits(b[1], 0x80) * 64 + Bits(b[2], 0x80)
    else Bits(b[0], 0xF0) * 26_2144 + Bits(b[1], 0x80) * 4096 + Bits(b[2], 0x80) * 64 + Bits(b[3], 0x80)
  }

  /** The bytes are one code point: complete, in the shortest form, in range and no surrogate. */
  predicate WellFormed(b: seq<Byte>)
  {
    && b != [] && Announced(b[0]) == |b|
    && (forall i :: 1 <= i < |b| ==> Continues(b[i]))
    && 0 <= Payload(b) < 0x11_0000 && Width(Payload(b)) == |b| && !Surrogate(Payload(b))
  }

  /** Strict decoding: `None` is a `UnicodeDecodeError`. */
  function Decode(b: seq<Byte>): Option<seq<CodePoint>>
  {
    if b == [] then Some([])
    else
      var n := Announced(b[0]);
      if n == 0 || n > |b| || !WellFormed(b[..n]) then None
      else
        var rest := Decode(b[n..]);
        if rest.None? then None else Some([Payload(b[..n]) as CodePoint] + rest.value)
  }

  // ---------- one code point ----------

  lemma EncodedIsWellFormed(c: CodePoint)
    requires !Surrogate(c)
    ensures WellFormed(EncodeOne(c)) && Payload(EncodeOne(c)) == c
  {
    SixBits(c);
    SixBits(c / 64);
    SixBits(c / 4096);
  }

  lemma SixBits(c: int)
    requires 0 <= c
    ensures c == c / 64 * 64 + c % 64 && c / 4096 == c / 64 / 64 && c / 26_2144 == c / 4096 / 64
  {
  }

  lemma WellFormedIsEncoded(b: seq<Byte>)
    requires WellFormed(b)
    ensures EncodeOne(Payload(b) as CodePoint) == b
  {
    var c := Payload(b);
    if |b| == 2 {
      Digits(Bits(b[0], 0xC0), Bits(b[1], 0x80));
    } else if |b| == 3 {
      Digits(Bits(b[0], 0xE0), Bits(b[1], 0x80));
      Digits(Bits(b[0], 0xE0) * 64 + Bits(b[1], 0x80), Bits(b[2], 0x80));
    } else if |b| == 4 {
      Digits(Bits(b[0], 0xF0), Bits(b[1], 0x80));
      Digits(Bits(b[0], 0xF0) * 64 + Bits(b[1], 0x80), Bits(b[2], 0x80));
      Digits((Bits(b[0], 0xF0) * 64 + Bits(b[1], 0x80)) * 64 + Bits(b[2], 0x80), Bits(b[3], 0x80));
    }
  }

  lemma Digits(high: int, low: int)
    requires 0 <= high && 0 <= low < 64
    ensures (high * 64 + low) / 64 == high && (high * 64 + low) % 64 == low
  {
  }

  // ---------- the form that section 3 of RFC 3629 prescribes ----------

  function Pow2(k: nat): (r: nat)
    ensures r > 0
  {
    if k == 0 then 1 else 2 * Pow2(k - 1)
  }

  /** One byte has seven payload bits; otherwise the lead byte has 7 - width and every other byte six. */
  function PayloadBits(width: nat): int
  {
    if width == 1 then 7 else 7 - width + 6 * (width - 1)
  }

  lemma Powers()
    ensures Pow2(3) == 8 && Pow2(4) == 16 && Pow2(5) == 32 && Pow2(6) == 64 && Pow2(7) == 128 && Pow2(11) == 2048 && Pow2(16) == 65536 && Pow2(21) == 209_7152
  {
    assert Pow2(8) == 256 && Pow2(12) == 4096 && Pow2(17) == 13_1072;
  }

  /** The width is the least number of bytes whose payload bits hold the code point. */
  lemma WidthIsLeast(c: CodePoint)
    ensures 1 <= Width(c) <= 4 && c < Pow2(PayloadBits(Width(c)))
    ensures forall w: nat :: 1 <= w < Width(c) ==> PayloadBits(w) >= 0 && Pow2(PayloadBits(w)) <= c
  {
    Powers();
    assert PayloadBits(1) == 7 && PayloadBits(2) == 11 && PayloadBits(3) == 16 && PayloadBits(4) == 21;
  }

  /** The number spelled by the low six bits of the bytes, most significant first, after `high`. */
  function Spelled(high: int, b: seq<Byte>): int
    decreases |b|
  {
    if b == [] then high else Spelled(high * 64 + b[0] % 64, b[1..])
  }

  /**
    A single byte is the code point. Otherwise the lead byte starts with as many ones as there are
    bytes, and a zero; every other byte starts with 10; and the other bits spell the code point.
   */
  lemma EncodedForm(c: CodePoint)
    ensures var b, w := EncodeOne(c), Width(c);
            && |b| == w && (w == 1 ==> b[0] == c < 128)
            && (w > 1 ==> b[0] / Pow2(7 - w) == Pow2(w + 1) - 2 && Spelled(b[0] % Pow2(7 - w), b[1..]) == c)
            && (forall i :: 1 <= i < w ==> b[i] / 64 == 2)
  {
    if Width(c) == 1 {
      Powers();
    } else if Width(c) == 2 {
      TwoBytes(c);
    } else if Width(c) == 3 {
      ThreeBytes(c);
    } else {
      FourBytes(c);
    }
  }

  lemma TwoBytes(c: CodePoint)
    requires Width(c) == 2
    ensures var b := EncodeOne(c); b[0] / Pow2(5) == Pow2(3) - 2 && Spelled(b[0] % Pow2(5), b[1..]) == c && b[1] / 64 == 2
  {
    Powers();
    var b := EncodeOne(c);
    SpelledOut(b[0] % 32, b[1..]);
    SixBits(c);
  }

  lemma ThreeBytes(c: CodePoint)
    requires Width(c) == 3
    ensures var b := EncodeOne(c); b[0] / Pow2(4) == Pow2(4) - 2 && Spelled(b[0] % Pow2(4), b[1..]) == c && b[1] / 64 == 2 && b[2] / 64 == 2
  {
    Powers();
    var b := EncodeOne(c);
    SpelledOut(b[0] % 16, b[1..]);
    SixBits(c);
    SixBits(c / 64);
  }

  lemma FourBytes(c: CodePoint)
    requires Width(c) == 4
    ensures var b := EncodeOne(c);
            b[0] / Pow2(3) == Pow2(5) - 2 && Spelled(b[0] % Pow2(3), b[1..]) == c && b[1] / 64 == 2 && b[2] / 64 == 2 && b[3] / 64 == 2
  {
    Powers();
    var b := EncodeOne(c);
    SpelledOut(b[0] % 8, b[1..]);
    SixBits(c);
    SixBits(c / 64);
    SixBits(c / 4096);
    assert b[0] % 8 == c / 26_2144;
    assert (c / 26_2144) * 64 + c / 4096 % 64 == c / 4096;
    assert (c / 4096) * 64 + c / 64 % 64 == c / 64;
  }

  lemma {:induction false} SpelledOut(high: int, b: seq<Byte>)
    ensures |b| == 0 ==> Spelled(high, b) == high
    ensures |b| == 1 ==> Spelled(high, b) == high * 64 + b[0] % 64
    ensures |b| == 2 ==> Spelled(high, b) == (high * 64 + b[0] % 64) * 64 + b[1] % 64
    ensures |b| == 3 ==> Spelled(high, b) == ((high * 64 + b[0] % 64) * 64 + b[1] % 64) * 64 + b[2] % 64
    decreases |b|
  {
    if b != [] {
      SpelledOut(high * 64 + b[0] % 64, b[1..]);
    }
  }

  // ---------- texts ----------

  /** Strict decoding undoes encoding, for exactly the byte sequences that are encodings. */
  lemma {:induction false} DecodeEncode(text: seq<CodePoint>)
    requires Clean(text)
    ensures Decode(Encode(text)) == Some(text)
  {
    hide WellFormed, EncodeOne, Payload;
    if text != [] {
      DecodeEncode(text[1..]);
      DecodeStep(text[0], Encode(text[1..]));
      assert text == [text[0]] + text[1..];
    }
  }

  lemma DecodeStep(c: CodePoint, tail: seq<Byte>)
    requires !Surrogate(c)
    ensures Decode(EncodeOne(c) + tail) == if Decode(tail).None? then None else Some([c] + Decode(tail).value)
  {
    hide EncodeOne, Payload;
    EncodedIsWellFormed(c);
    var b := EncodeOne(c) + tail;
    assert b[..Width(c)] == EncodeOne(c) && b[Width(c)..] == tail;
  }

  lemma {:induction false} EncodeDecode(b: seq<Byte>)
    requires Decode(b).Some?
    ensures Clean(Decode(b).value) && Encode(Decode(b).value) == b
    decreases |b|
  {
    hide EncodeOne, Payload;
    if b != [] {
      var n := Announced(b[0]);
      EncodeDecode(b[n..]);
      WellFormedIsEncoded(b[..n]);
      var text := Decode(b).value;
      assert text[1..] == Decode(b[n..]).value;
      assert b == b[..n] + b[n..];
    }
  }

  /** The number of bytes of the first `j` code points. */
  function Offset(text: seq<CodePoint>, j: nat): nat
    requires j <= |text|
  {
    |Encode(text[..j])|
  }

  lemma {:induction false} EncodeSplits(text: seq<CodePoint>, j: nat)
    requires j <= |text|
    ensures Encode(text) == Encode(text[..j]) + Encode(text[j..])
  {
    hide EncodeOne;
    if j == 0 {
      assert text[0..] == text;
    } else {
      EncodeSplits(text[1..], j - 1);
      assert text[..j][1..] == text[1..][..j - 1];
      assert text[1..][j - 1..] == text[j..];
    }
  }

  /** A proper part of the bytes of one code point never decodes. */
  lemma CutCodePoint(c: CodePoint, k: nat)
    requires !Surrogate(c) && 0 < k < Width(c)
    ensures Decode(EncodeOne(c)[..k]) == None
  {
    EncodedIsWellFormed(c);
    assert EncodeOne(c)[..k][0] == EncodeOne(c)[0];
  }

  /** The first `k` bytes decode if and only if they end where a code point ends. */
  lemma {:induction false} PrefixDecodes(text: seq<CodePoint>, k: nat)
    requires Clean(text) && k <= |Encode(text)|
    ensures Decode(Encode(text)[..k]).Some? <==> exists j: nat :: j <= |text| && Offset(text, j) == k
    ensures forall j: nat :: j <= |text| && Offset(text, j) == k ==> Decode(Encode(text)[..k]) == Some(text[..j])
  {
    forall j: nat | j <= |text| && Offset(text, j) == k
      ensures Decode(Encode(text)[..k]) == Some(text[..j])
    {
      EncodeSplits(text, j);
      assert Encode(text)[..k] == Encode(text[..j]);
      DecodeEncode(text[..j]);
    }
    if Decode(Encode(text)[..k]).Some? {
      DecodedPrefix(text, k);
    }
  }

  lemma {:induction false} DecodedPrefix(text: seq<CodePoint>, k: nat)
    requires Clean(text) && k <= |Encode(text)| && Decode(Encode(text)[..k]).Some?
    ensures exists j: nat :: j <= |text| && Offset(text, j) == k
  {
    hide EncodeOne, Payload, WellFormed;
    if k == 0 {
      assert Offset(text, 0) == 0;
    } else {
      var c, tail := text[0], Encode(text[1..]);
      assert Encode(text) == EncodeOne(c) + tail;
      if k < Width(c) {
        assert Encode(text)[..k] == EncodeOne(c)[..k];
        CutCodePoint(c, k);
      } else {
        var k' := k - Width(c);
        assert Encode(text)[..k] == EncodeOne(c) + tail[..k'];
        DecodeStep(c, tail[..k']);
        DecodedPrefix(text[1..], k');
        var j: nat :| j <= |text| - 1 && Offset(text[1..], j) == k';
        assert text[..j + 1][1..] == text[1..][..j];
        assert Offset(text, j + 1) == k;
      }
    }
  }

  lemma {:induction false} OffsetGrows(text: seq<CodePoint>, i: nat, j: nat)
    requires i <= j <= |text|
    ensures Offset(text, i) + (j - i) <= Offset(text, j) <= Offset(text, i) + 4 * (j - i)
    decreases j
  {
    hide EncodeOne;
    if i < j {
      OffsetGrows(text, i, j - 1);
      OffsetNext(text, j - 1);
    }
  }

  lemma OffsetNext(text: seq<CodePoint>, j: nat)
    requires j < |text|
    ensures Offset(text, j + 1) == Offset(text, j) + Width(text[j])
  {
    hide EncodeOne;
    EncodeSplits(text[..j + 1], j);
    assert text[..j + 1][..j] == text[..j] && text[..j + 1][j..] == [text[j]];
    assert [text[j]][1..] == [];
  }

  // ---------- truncation ----------

  /** `text[..j]` is the longest prefix whose encoding fits into the bound. */
  ghost predicate LongestFitting(text: seq<CodePoint>, bound: int, j: nat)
  {
    && j <= |text| && (Offset(text, j) <= bound || j == 0)
    && forall i: nat :: i <= |text| && Offset(text, i) <= bound ==> i <= j
  }

  /** The last code point that ends within the first `k` bytes. */
  lemma {:induction false} LastBoundary(text: seq<CodePoint>, k: nat, m: nat) returns (j: nat)
    requires m <= |text| && k < Offset(text, m)
    ensures j < m && Offset(text, j) <= k < Offset(text, j) + 4 && k < Offset(text, j + 1)
    decreases m
  {
    hide Encode;
    OffsetZero(text);
    OffsetNext(text, m - 1);
    if k < Offset(text, m - 1) {
      j := LastBoundary(text, k, m - 1);
    } else {
      j := m - 1;
    }
  }

  lemma LastBoundaryIsLongest(text: seq<CodePoint>, k: nat, j: nat)
    requires j < |text| && Offset(text, j) <= k < Offset(text, j + 1)
    ensures LongestFitting(text, k, j)
  {
    hide Offset;
    forall i: nat | i <= |text| && Offset(text, i) <= k
      ensures i <= j
    {
      if i > j {
        OffsetGrows(text, j + 1, i);
      }
    }
  }

  lemma OffsetZero(text: seq<CodePoint>)
    ensures Offset(text, 0) == 0
  {
  }

  /**
    `truncate_utf8_bytes`: `None` is the `UnicodeEncodeError` of a text with a surrogate. The result
    is the longest prefix that fits, and at most three bytes are dropped one by one to find it.
   */
  method Truncate(text: seq<CodePoint>, bound: int) returns (r: Option<seq<CodePoint>>, ghost dropped: nat)
    ensures r.None? <==> bound > 0 && !Clean(text)
    ensures bound <= 0 ==> r == Some([])
    ensures r.Some? && bound > 0 ==> exists j: nat :: LongestFitting(text, bound, j) && r.value == text[..j]
    ensures dropped <= 3
  {
    hide Encode, Decode;
    dropped := 0;
    if bound <= 0 || text == [] {
      if text == [] {
        assert LongestFitting(text, bound, 0);
      }
      return Some([]), 0;
    }
    if !Clean(text) {
      return None, 0;
    }
    var raw := Encode(text);
    assert text[..|text|] == text;
    if |raw| <= bound {
      assert LongestFitting(text, bound, |text|);
      return Some(text), 0;
    }
    ghost var last := LastBoundary(text, bound, |text|);
    LastBoundaryIsLongest(text, bound, last);
    var truncated := raw[..bound];
    while truncated != []
      invariant |truncated| <= bound && truncated == raw[..|truncated|]
      invariant Offset(text, last) <= |truncated| && dropped == bound - |truncated|
      decreases |truncated|
    {
      PrefixDecodes(text, |truncated|);
      var decoded := Decode(truncated);
      if decoded.Some? {
        ghost var i: nat :| i <= |text| && Offset(text, i) == |truncated|;
        assert i == last by {
          OffsetGrows(text, i, last);
        }
        return decoded, dropped;
      }
      assert Offset(text, last) != |truncated|;
      truncated := truncated[..|truncated| - 1];
      dropped := dropped + 1;
    }
    OffsetGrows(text, 0, last);
    assert last == 0;
    r := Some([]);
  }
}
