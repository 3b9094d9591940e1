/**
 * The two SQL functions of the extension (src/lib.rs): base62_encode turns
 * a UUID's 16 bytes into base62 text, base62_decode turns base62 text back
 * into a UUID. A UUID is its 16 bytes, read as a big-endian u128.
 */
module PgBase62 {
  import opened Radix
  import opened Words
  import opened Wrappers
  import opened Errors
  import opened Base62Codec

  /** The capacity of the buffer base62_encode hands to the codec. */
  const BUF_LEN: nat := 22

  /**
   * Rust's core::str::from_utf8 on the written prefix of the buffer, for
   * byte strings of ASCII characters, which are valid UTF-8 one byte per
   * character; any byte of 128 or more is treated as a failure.
   */
  function FromUtf8(bytes: seq<byte>): (r: Option<string>)
    ensures r.Some? ==> |r.value| == |bytes|
  {
    if forall i :: 0 <= i < |bytes| ==> bytes[i] < 128 then
      Some(seq(|bytes|, i requires 0 <= i < |bytes| => bytes[i] as char))
    else
      None
  }

  /** The bytes of an ASCII string are valid UTF-8 and read back as the string. */
  lemma FromUtf8Ascii(s: string)
    requires forall i :: 0 <= i < |s| ==> s[i] as int < 128
    ensures FromUtf8(AsciiBytes(s)) == Some(s)
  {
    var bs := AsciiBytes(s);
    assert seq(|bs|, i requires 0 <= i < |bs| => bs[i] as char) == s;
  }

  /**
   * base62_encode: the 16 bytes are copied into a fixed array and read as a
   * big-endian u128, the codec writes its digits into a 22-byte buffer,
   * and the written prefix becomes the result string.
   */
  method Base62Encode(input: seq<byte>) returns (r: Result<string, Base62Error>)
    ensures |input| != 16 ==> r == Err(InvalidInput)
    ensures |input| == 16 ==> r == Ok(EncodedText(FromBeBytes(input)))
  {
    if |input| != 16 {
      return Err(InvalidInput);
    }
    var bytes := new byte[16];
    for i := 0 to 16
      invariant bytes[..i] == input[..i]
    {
      bytes[i] := input[i];
    }
    assert bytes[..] == input;
    var value := FromBeBytes(bytes[..]);

    var buf := new byte[BUF_LEN];
    EncodedLength(value);
    var written := EncodeBytes(value, buf);
    if written.Ok? {
      var text := EncodedText(value);
      FromUtf8Ascii(text);
      var s := FromUtf8(buf[..written.value]);
      r := if s.Some? then Ok(s.value) else Err(EncodeError);
    } else {
      r := Err(EncodeError);
    }
  }

  /**
   * base62_decode: the codec's value is written back as 16 big-endian
   * bytes; every codec failure becomes DecodeError.
   */
  function Base62Decode(input: string): (r: Result<seq<byte>, Base62Error>)
  {
    match Decode(input)
    case Ok(v) => Ok(ToBeBytes(v))
    case Err(_) => Err(DecodeError)
  }

  // ---------------------------------------------------------------------
  // What the extension promises

  /** Encoding a UUID always succeeds and gives 1 to 22 characters of the alphabet. */
  lemma EncodedUuidShape(uuid: seq<byte>)
    requires |uuid| == 16
    ensures var text := EncodedText(FromBeBytes(uuid));
      && 1 <= |text| <= BUF_LEN
      && forall i :: 0 <= i < |text| ==> text[i] in Alphabet
  {
    EncodedLength(FromBeBytes(uuid));
  }

  /** A UUID whose first byte is not zero encodes to 21 or 22 characters. */
  lemma EncodedLengthTopByte(uuid: seq<byte>)
    requires |uuid| == 16 && uuid[0] != 0
    ensures 21 <= |EncodedText(FromBeBytes(uuid))| <= 22
  {
    var v := FromBeBytes(uuid);
    TopByte(uuid);
    Pow62Bounds();
    assert v >= Pow(62, 20);
    WidthAtMost(v, 62, 20);
    assert |EncodedText(v)| == Width(v, 62) > 20;
    EncodedLength(v);
  }

  /** The nil UUID is the value 0 and encodes to the single zero digit. */
  lemma NilUuid()
    ensures FromBeBytes(seq(16, _ => 0)) == 0
    ensures EncodedText(FromBeBytes(seq(16, _ => 0))) == "0"
  {
    ValueOfZeros(seq(16, _ => 0), 256);
    assert Numeral(0, 62) == [0];
    AlphabetAt(0);
  }

  /** The largest UUID, value 2^128 - 1, encodes to 22 characters. */
  lemma MaxUuidLength()
    ensures |EncodedText(U128_LIMIT - 1)| == MAX_DIGITS
  {
    var v := U128_LIMIT - 1;
    Pow62Bounds();
    assert v >= Pow(62, 21);
    WidthAtMost(v, 62, 21);
    assert |EncodedText(v)| == Width(v, 62) > 21;
    EncodedLength(v);
  }

  /** Decoding fails with DecodeError alone, and succeeds exactly when the codec does. */
  lemma DecodeErrorMapping(input: string)
    ensures Base62Decode(input).Err? ==> Base62Decode(input) == Err(DecodeError)
    ensures Base62Decode(input).Ok? <==> Decode(input).Ok?
    ensures Decode(input).Ok? ==> Base62Decode(input) == Ok(ToBeBytes(Decode(input).value))
  {
  }

  /**
   * base62_decode succeeds exactly on non-empty text over the alphabet whose
   * value is below 2^128, and yields the 16 big-endian bytes of that value.
   */
  lemma Base62DecodeCharacterised(input: string)
    ensures Base62Decode(input).Ok? <==>
      input != [] && IsBase62Text(input) && Value(TextDigits(input), 62) < U128_LIMIT
    ensures Base62Decode(input).Ok? ==>
      |Base62Decode(input).value| == 16 &&
      FromBeBytes(Base62Decode(input).value) == Value(TextDigits(input), 62)
  {
    DecodeCharacterised(input);
    if Decode(input).Ok? {
      ValueRoundTrip(Decode(input).value);
    }
  }

  /** Decoding the encoding of a UUID gives back exactly its 16 bytes. */
  lemma UuidRoundTrip(uuid: seq<byte>)
    requires |uuid| == 16
    ensures Base62Decode(EncodedText(FromBeBytes(uuid))) == Ok(uuid)
  {
    DecodeEncoded(FromBeBytes(uuid));
    BytesRoundTrip(uuid);
  }

  /**
   * Decoding text that has no superfluous leading '0' and encoding the
   * resulting UUID gives back the same text.
   */
  lemma TextRoundTrip(input: string)
    requires Base62Decode(input).Ok?
    requires |input| == 1 || input[0] != '0'
    ensures EncodedText(FromBeBytes(Base62Decode(input).value)) == input
  {
    ValueRoundTrip(Decode(input).value);
    EncodeDecoded(input);
  }
}
