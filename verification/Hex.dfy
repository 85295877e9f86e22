// The hexadecimal text in which storage.cc keeps a serialized record.

module HexCodec {
  import opened Wrappers

  type byte = x: nat | x < 256

  function HexDigit(n: nat): char
    requires n < 16
  {
    if n < 10 then '0' + n as char else 'a' + (n - 10) as char
  }

  /** -1 stands for anything but a lower-case hexadecimal digit. */
  function DigitValue(c: char): (v: int)
    ensures -1 <= v < 16
  {
    if '0' <= c <= '9' then c as int - '0' as int
    else if 'a' <= c <= 'f' then c as int - 'a' as int + 10
    else -1
  }

  lemma DigitsInvert(n: nat, c: char)
    ensures n < 16 ==> DigitValue(HexDigit(n)) == n
    ensures DigitValue(c) >= 0 ==> HexDigit(DigitValue(c)) == c
  {
  }

  function HexPair(b: byte): (pair: string)
    ensures |pair| == 2
  {
    [HexDigit(b / 16), HexDigit(b % 16)]
  }

  lemma PairInverts(b: byte)
    ensures DigitValue(HexPair(b)[0]) * 16 + DigitValue(HexPair(b)[1]) == b
    ensures DigitValue(HexPair(b)[0]) >= 0 && DigitValue(HexPair(b)[1]) >= 0
  {
    DigitsInvert(b / 16, '0');
    DigitsInvert(b % 16, '0');
  }

  function HexText(bytes: seq<byte>): string {
    if bytes == [] then ""
    else HexText(bytes[..|bytes| - 1]) + HexPair(bytes[|bytes| - 1])
  }

  predicate IsHexText(text: string) {
    |text| % 2 == 0 && forall i | 0 <= i < |text| :: DigitValue(text[i]) >= 0
  }

  function HexBytes(text: string): seq<byte>
    requires IsHexText(text)
  {
    if text == "" then []
    else
      var n := |text| - 2;
      HexBytes(text[..n]) + [DigitValue(text[n]) * 16 + DigitValue(text[n + 1])]
  }

  lemma Halves(a: nat, b: nat)
    requires a < 16 && b < 16
    ensures (a * 16 + b) / 16 == a && (a * 16 + b) % 16 == b
  {
  }

  lemma OneMorePair(text: string, x: char, y: char)
    requires IsHexText(text) && DigitValue(x) >= 0 && DigitValue(y) >= 0
    ensures IsHexText(text + [x, y]) && HexBytes(text + [x, y]) == HexBytes(text) + [DigitValue(x) * 16 + DigitValue(y)]
  {
    hide DigitValue;
    assert (text + [x, y])[..|text|] == text;
  }

  lemma {:induction false} EncodedIsDecoded(bytes: seq<byte>)
    ensures |HexText(bytes)| == 2 * |bytes| && IsHexText(HexText(bytes))
    ensures HexBytes(HexText(bytes)) == bytes
    decreases |bytes|
  {
    hide HexDigit, DigitValue, HexPair;
    if bytes != [] {
      var rest, last := bytes[..|bytes| - 1], bytes[|bytes| - 1];
      EncodedIsDecoded(rest);
      PairInverts(last);
      OneMorePair(HexText(rest), HexPair(last)[0], HexPair(last)[1]);
      assert HexPair(last) == [HexPair(last)[0], HexPair(last)[1]];
      assert bytes == rest + [last];
    }
  }

  const DIGITS := "0123456789abcdef"

  lemma DigitsInOrder(n: nat)
    requires n < 16
    ensures HexDigit(n) == DIGITS[n]
  {
  }

  /** Byte i stands at 2i and 2i + 1, its high half first. */
  lemma {:induction false} DigitsOfByte(bytes: seq<byte>, i: nat)
    requires i < |bytes|
    ensures |HexText(bytes)| == 2 * |bytes|
    ensures HexText(bytes)[2 * i] == DIGITS[bytes[i] / 16] && HexText(bytes)[2 * i + 1] == DIGITS[bytes[i] % 16]
    decreases |bytes|
  {
    hide HexDigit, DigitValue;
    var n := |bytes| - 1;
    EncodedIsDecoded(bytes);
    EncodedIsDecoded(bytes[..n]);
    if i < n {
      DigitsOfByte(bytes[..n], i);
    } else {
      DigitsInOrder(bytes[i] / 16);
      DigitsInOrder(bytes[i] % 16);
    }
  }

  /** Only lower-case digits are accepted, so a text that decodes is the encoding of what it decodes to. */
  lemma {:induction false} DecodedIsEncoded(text: string)
    requires IsHexText(text)
    ensures HexText(HexBytes(text)) == text
    decreases |text|
  {
    if text != "" {
      var n := |text| - 2;
      DecodedIsEncoded(text[..n]);
      DigitsInvert(0, text[n]);
      DigitsInvert(0, text[n + 1]);
      Halves(DigitValue(text[n]), DigitValue(text[n + 1]));
      hide DigitValue, HexDigit;
      var bytes := HexBytes(text);
      assert bytes[|bytes| - 1] == DigitValue(text[n]) * 16 + DigitValue(text[n + 1]);
      assert bytes[..|bytes| - 1] == HexBytes(text[..n]);
      assert text == text[..n] + [text[n], text[n + 1]];
    }
  }

  method Encode(bytes: seq<byte>) returns (out: string)
    ensures out == HexText(bytes)
    ensures |out| == 2 * |bytes|
    ensures forall k | 0 <= k < |bytes| ::
      out[2 * k] == DIGITS[bytes[k] / 16] && out[2 * k + 1] == DIGITS[bytes[k] % 16]
  {
    out := "";
    var i := 0;
    while i < |bytes|
      invariant i <= |bytes| && out == HexText(bytes[..i])
    {
      assert bytes[..i + 1][..i] == bytes[..i];
      out := out + [HexDigit(bytes[i] / 16)];
      out := out + [HexDigit(bytes[i] % 16)];
      assert out == HexText(bytes[..i]) + HexPair(bytes[i]);
      i := i + 1;
    }
    assert bytes[..i] == bytes;
    EncodedIsDecoded(bytes);
    forall k | 0 <= k < |bytes|
      ensures out[2 * k] == DIGITS[bytes[k] / 16] && out[2 * k + 1] == DIGITS[bytes[k] % 16]
    {
      DigitsOfByte(bytes, k);
    }
  }

  /** The loop of Decode: it stops at the first pair that is not hexadecimal. */
  method Decode(hex: string) returns (r: Option<seq<byte>>)
    ensures r == if IsHexText(hex) then Some(HexBytes(hex)) else None
  {
    var bytes: seq<byte> := [];
    var valid := |hex| % 2 == 0;
    var i := 0;
    while valid && i < |hex|
      invariant i <= |hex| && (valid ==> i % 2 == 0 && IsHexText(hex[..i]) && bytes == HexBytes(hex[..i]))
      invariant valid ==> |hex| % 2 == 0
      invariant !valid ==> !IsHexText(hex)
      decreases |hex| - i, valid
    {
      var a, b := DigitValue(hex[i]), DigitValue(hex[i + 1]);
      if a < 0 || b < 0 {
        valid := false;
      } else {
        bytes := bytes + [a * 16 + b];
        assert hex[..i + 2][..i] == hex[..i];
        i := i + 2;
      }
    }
    if valid {
      assert hex[..i] == hex;
    }
    return if valid then Some(bytes) else None;
  }
}
