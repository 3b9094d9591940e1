/**
 * The base62 codec the extension calls: a u128 written as its minimal
 * base-62 numeral over the alphabet 0-9A-Za-z, and text read back by
 * Horner's rule with checked 128-bit arithmetic.
 *
 * The codec is an external library. It is stated here by the contract the
 * extension relies on: encoding fills a caller buffer with the digits,
 * most significant first, and reports how many it wrote; decoding fails on
 * a character outside the alphabet or when the value leaves the u128 range.
 */
module Base62Codec {
  import opened Radix
  import opened Words
  import opened Wrappers

  /** The number of digits of the largest u128, 2^128 - 1. */
  const MAX_DIGITS: nat := 22

  /** Digit values 0 to 61, in alphabet order. */
  const Alphabet: string :=
    "0123456789" + "ABCDEFGHIJKLMNOPQRSTUVWXYZ" + "abcdefghijklmnopqrstuvwxyz"

  type digit = d: int | 0 <= d < 62

  datatype CodecError =
    | EmptyInput             // decoding was given no characters
    | InvalidCharacter(index: nat)  // the character at index is not in the alphabet
    | ArithmeticOverflow     // the value does not fit in a u128
    | BufferTooSmall         // the caller buffer cannot hold every digit

  // ---------------------------------------------------------------------
  // The alphabet

  /** The alphabet is three runs of consecutive ASCII characters. */
  lemma AlphabetAt(d: digit)
    ensures Alphabet[d] as int ==
      if d < 10 then '0' as int + d
      else if d < 36 then 'A' as int + (d - 10)
      else 'a' as int + (d - 36)
  {
    if d < 10 {
      assert Alphabet[d] == "0123456789"[d];
    } else if d < 36 {
      assert Alphabet[d] == "ABCDEFGHIJKLMNOPQRSTUVWXYZ"[d - 10];
    } else {
      assert Alphabet[d] == "abcdefghijklmnopqrstuvwxyz"[d - 36];
    }
  }

  /** The reverse lookup: the digit value of a character, if it is in the alphabet. */
  function DigitOf(c: char): (r: Option<digit>)
  {
    if '0' <= c <= '9' then Some(c as int - '0' as int)
    else if 'A' <= c <= 'Z' then Some(c as int - 'A' as int + 10)
    else if 'a' <= c <= 'z' then Some(c as int - 'a' as int + 36)
    else None
  }

  /** The lookup finds a character exactly when it is in the alphabet, and then finds its index. */
  lemma DigitOfFinds(c: char)
    ensures DigitOf(c).Some? ==> Alphabet[DigitOf(c).value] == c
    ensures DigitOf(c).Some? <==> c in Alphabet
  {
    if DigitOf(c).Some? {
      AlphabetAt(DigitOf(c).value);
    } else if c in Alphabet {
      var d :| 0 <= d < |Alphabet| && Alphabet[d] == c;
      AlphabetAt(d);
    }
  }

  /** Every character of the alphabet is ASCII, and each stands for its own index. */
  lemma AlphabetIsAsciiAndDistinct(d: digit)
    ensures Alphabet[d] as int < 128
    ensures DigitOf(Alphabet[d]) == Some(d)
  {
    AlphabetAt(d);
  }

  /** The ASCII code of the character that stands for digit d (see DigitByteSpells). */
  function DigitByte(d: digit): byte
  {
    if d < 10 then '0' as int + d
    else if d < 36 then 'A' as int + (d - 10)
    else 'a' as int + (d - 36)
  }

  /** The byte the codec writes for a digit is the code of its alphabet character. */
  lemma DigitByteSpells(d: digit)
    ensures DigitByte(d) == Alphabet[d] as int
  {
    AlphabetAt(d);
  }

  // ---------------------------------------------------------------------
  // Encoding

  /** The characters of a digit sequence. */
  function Spell(ds: seq<int>): (s: string)
    requires IsDigits(ds, 62)
    ensures |s| == |ds|
    ensures forall i :: 0 <= i < |ds| ==>
      s[i] == Alphabet[ds[i]] && s[i] as int < 128 && DigitOf(s[i]) == Some(ds[i])
  {
    var s := seq(|ds|, i requires 0 <= i < |ds| => Alphabet[ds[i]]);
    assert forall i :: 0 <= i < |ds| ==> s[i] as int < 128 && DigitOf(s[i]) == Some(ds[i]) by {
      forall i | 0 <= i < |ds| ensures s[i] as int < 128 && DigitOf(s[i]) == Some(ds[i]) {
        AlphabetIsAsciiAndDistinct(ds[i]);
      }
    }
    s
  }

  /** The text the codec writes for v: its minimal base-62 numeral. */
  function EncodedText(v: nat): (s: string)
  {
    Spell(Numeral(v, 62))
  }

  /** The bytes of an ASCII string. */
  function AsciiBytes(s: string): (bs: seq<byte>)
    requires forall i :: 0 <= i < |s| ==> s[i] as int < 128
    ensures |bs| == |s| && forall i :: 0 <= i < |s| ==> bs[i] == s[i] as int
  {
    seq(|s|, i requires 0 <= i < |s| => s[i] as int)
  }

  /** The encoded text of a u128 is between one and 22 characters long. */
  lemma EncodedLength(v: u128)
    ensures 1 <= |EncodedText(v)| <= MAX_DIGITS
  {
    assert |EncodedText(v)| == Width(v, 62);
    Pow62Bounds();
    assert v < Pow(62, MAX_DIGITS);
    WidthAtMost(v, 62, MAX_DIGITS);
  }

  /** The powers that bound the length of a u128's numeral: 62^20 < 2^120 < 62^21 < 2^128 <= 62^22. */
  lemma Pow62Bounds()
    ensures Pow(62, 20) == 704423425546998022968330264616370176
    ensures Pow(256, 15) == 1329227995784915872903807060280344576
    ensures Pow(62, 21) == 43674252383913877424036476406214950912
    ensures U128_LIMIT == 340282366920938463463374607431768211456
    ensures Pow(62, 22) == 2707803647802660400290261537185326956544
  {
    assert Pow(62, 10) == 839299365868340224;
    assert Pow(256, 8) == 0x1_0000_0000_0000_0000;
    assert Pow(256, 12) == 0x1_0000_0000_0000_0000_0000_0000;
  }

  /** The number of digits the codec will write for value. */
  method DigitCount(value: u128) returns (n: nat)
    ensures n == |EncodedText(value)|
  {
    n := 1;
    var q: nat := value;
    while q >= 62
      invariant Width(value, 62) == n - 1 + Width(q, 62)
      decreases q
    {
      q := q / 62;
      n := n + 1;
    }
  }

  /**
   * Writes the n digits of value into buf[..n], most significant first,
   * computing them least significant first from position n - 1 down to 0.
   */
  method WriteDigits(value: u128, n: nat, buf: array<byte>)
    requires n == Width(value, 62) && n <= buf.Length
    modifies buf
    ensures forall i :: 0 <= i < n ==> buf[i] == DigitByte(Numeral(value, 62)[i])
    ensures buf[n..] == old(buf[n..])
  {
    ghost var ds := Numeral(value, 62);
    ghost var lo: seq<int> := [];
    var q: nat := value;
    var m: nat := n;
    while m > 0
      invariant m <= n
      invariant Digits(q, 62, m) + lo == ds
      invariant forall i {:trigger buf[i]} :: m <= i < n ==> buf[i] == DigitByte(ds[i])
      invariant buf[n..] == old(buf[n..])
    {
      DigitsSplitStep(q, 62, m, lo, ds);
      buf[m - 1] := DigitByte(q % 62);
      lo := [q % 62] + lo;
      DivNonNegative(q, 62);
      q := q / 62;
      m := m - 1;
    }
  }

  /**
   * Writes the encoded text of value into the front of buf and returns its
   * length, or reports BufferTooSmall and leaves buf as it was.
   */
  method EncodeBytes(value: u128, buf: array<byte>) returns (r: Result<nat, CodecError>)
    modifies buf
    ensures r.Ok? <==> |EncodedText(value)| <= buf.Length
    ensures r.Ok? ==>
      && r.value == |EncodedText(value)|
      && buf[..r.value] == AsciiBytes(EncodedText(value))
      && buf[r.value..] == old(buf[r.value..])
    ensures r.Err? ==> r.error == BufferTooSmall && buf[..] == old(buf[..])
  {
    var n := DigitCount(value);
    if buf.Length < n {
      return Err(BufferTooSmall);
    }
    WriteDigits(value, n, buf);
    forall i | 0 <= i < n
      ensures buf[i] == AsciiBytes(EncodedText(value))[i]
    {
      DigitByteSpells(Numeral(value, 62)[i]);
    }
    r := Ok(n);
  }

  // ---------------------------------------------------------------------
  // Decoding

  /** True when every character of text is in the alphabet (see DigitOfFinds). */
  predicate IsBase62Text(text: string)
  {
    forall i :: 0 <= i < |text| ==> DigitOf(text[i]).Some?
  }

  /** The digit values of a text over the alphabet. */
  function TextDigits(text: string): (ds: seq<int>)
    requires IsBase62Text(text)
    ensures |ds| == |text| && IsDigits(ds, 62)
    ensures forall i :: 0 <= i < |text| ==> DigitOf(text[i]) == Some(ds[i])
  {
    seq(|text|, i requires 0 <= i < |text| => DigitOf(text[i]).value)
  }

  /**
   * Reads text from position i on, with acc the value of the characters
   * before i: each character is looked up, then acc * 62 + digit is
   * computed with overflow checking.
   */
  function DecodeFrom(text: string, i: nat, acc: u128): (r: Result<u128, CodecError>)
    requires i <= |text|
    decreases |text| - i
  {
    if i == |text| then Ok(acc)
    else match DigitOf(text[i])
      case None => Err(InvalidCharacter(i))
      case Some(d) =>
        if acc * 62 + d < U128_LIMIT then DecodeFrom(text, i + 1, acc * 62 + d)
        else Err(ArithmeticOverflow)
  }

  /** Decodes base62 text to a u128. The empty text is rejected. */
  function Decode(text: string): (r: Result<u128, CodecError>)
  {
    if text == [] then Err(EmptyInput) else DecodeFrom(text, 0, 0)
  }

  /** A prefix of a digit sequence never denotes more than the whole. */
  lemma {:induction false} ValuePrefix(ds: seq<int>, k: nat)
    requires IsDigits(ds, 62) && k <= |ds|
    ensures 0 <= Value(ds[..k], 62) <= Value(ds, 62)
    decreases |ds| - k
  {
    if k < |ds| {
      ValuePrefix(ds, k + 1);
      assert ds[..k + 1][..k] == ds[..k];
      assert IsDigits(ds[..k], 62);
      ValueBound(ds[..k], 62);
    } else {
      assert ds[..k] == ds;
      ValueBound(ds, 62);
    }
  }

  /** DecodeFrom on a text over the alphabet: the value if it fits, overflow otherwise. */
  lemma {:induction false} DecodeFromValue(text: string, i: nat, acc: u128)
    requires IsBase62Text(text) && i <= |text|
    requires acc == Value(TextDigits(text)[..i], 62)
    ensures var v := Value(TextDigits(text), 62);
      DecodeFrom(text, i, acc) == if v < U128_LIMIT then Ok(v) else Err(ArithmeticOverflow)
    decreases |text| - i
  {
    var ds := TextDigits(text);
    assert IsDigits(ds, 62);
    if i == |text| {
      assert ds[..i] == ds;
    } else {
      var d := ds[i];
      assert DigitOf(text[i]) == Some(d);
      var next := acc * 62 + d;
      ValuePrefixStep(ds, i, 62);
      ValuePrefix(ds, i + 1);
      if next < U128_LIMIT {
        assert DecodeFrom(text, i, acc) == DecodeFrom(text, i + 1, next);
        DecodeFromValue(text, i + 1, next);
      } else {
        assert DecodeFrom(text, i, acc) == Err(ArithmeticOverflow);
        assert Value(ds, 62) >= U128_LIMIT;
      }
    }
  }

  /** DecodeFrom fails once it meets a character outside the alphabet. */
  lemma {:induction false} DecodeFromForeign(text: string, i: nat, j: nat, acc: u128)
    requires i <= j < |text| && DigitOf(text[j]).None?
    ensures DecodeFrom(text, i, acc).Err?
    decreases j - i
  {
    if i < j {
      match DigitOf(text[i])
      case None =>
      case Some(d) =>
        if acc * 62 + d < U128_LIMIT {
          DecodeFromForeign(text, i + 1, j, acc * 62 + d);
        }
    }
  }

  /**
   * Decoding succeeds exactly on non-empty texts over the alphabet whose
   * value is below 2^128, and then returns that value.
   */
  lemma DecodeCharacterised(text: string)
    ensures Decode(text).Ok? <==>
      text != [] && IsBase62Text(text) && Value(TextDigits(text), 62) < U128_LIMIT
    ensures Decode(text).Ok? ==> Decode(text).value == Value(TextDigits(text), 62)
    ensures text != [] && IsBase62Text(text) && Value(TextDigits(text), 62) >= U128_LIMIT ==>
      Decode(text) == Err(ArithmeticOverflow)
  {
    if text != [] {
      if IsBase62Text(text) {
        assert TextDigits(text)[..0] == [];
        DecodeFromValue(text, 0, 0);
      } else {
        var j :| 0 <= j < |text| && DigitOf(text[j]).None?;
        DecodeFromForeign(text, 0, j, 0);
      }
    }
  }

  /** Decoding the encoded text of a u128 gives the u128 back. */
  lemma DecodeEncoded(v: u128)
    ensures Decode(EncodedText(v)) == Ok(v)
  {
    var text := EncodedText(v);
    var ds := Numeral(v, 62);
    assert TextDigits(text) == ds;
    NumeralValue(v, 62);
    DecodeCharacterised(text);
  }

  /** Looking up the characters of a text over the alphabet and spelling them gives the text. */
  lemma SpellTextDigits(text: string)
    requires IsBase62Text(text)
    ensures Spell(TextDigits(text)) == text
  {
    var ds := TextDigits(text);
    forall i | 0 <= i < |text| ensures Spell(ds)[i] == text[i] {
      DigitOfFinds(text[i]);
    }
  }

  /** A text over the alphabet starts with the zero digit exactly when it starts with '0'. */
  lemma LeadingZeroDigit(text: string)
    requires IsBase62Text(text) && |text| >= 1
    ensures TextDigits(text)[0] == 0 <==> text[0] == '0'
  {
    DigitOfFinds(text[0]);
    AlphabetAt(0);
  }

  /**
   * A text over the alphabet without a superfluous leading '0' that decodes
   * is the encoded text of its value.
   */
  lemma EncodeDecoded(text: string)
    requires Decode(text).Ok?
    requires |text| == 1 || text[0] != '0'
    ensures EncodedText(Decode(text).value) == text
  {
    DecodeCharacterised(text);
    var ds := TextDigits(text);
    LeadingZeroDigit(text);
    assert IsCanonical(ds);
    NumeralOfCanonical(ds, 62);
    SpellTextDigits(text);
  }

  /**
   * A text of 23 or more characters whose first is not '0' never fits in a
   * u128; with leading '0's a longer text can, so length alone decides nothing.
   */
  lemma LongTextOverflows(text: string)
    requires IsBase62Text(text) && |text| > MAX_DIGITS && text[0] != '0'
    ensures Decode(text) == Err(ArithmeticOverflow)
  {
    var ds := TextDigits(text);
    LeadingZeroDigit(text);
    LeadingDigitBound(ds, 62);
    Pow62Bounds();
    if |text| - 1 > MAX_DIGITS {
      PowMonotone(62, MAX_DIGITS, |text| - 1);
    }
    assert Value(ds, 62) >= U128_LIMIT;
    DecodeCharacterised(text);
  }
}
