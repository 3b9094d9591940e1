/**
 * Bytes, 128-bit unsigned integers, and the big-endian conversion between a
 * 16-byte array and a u128 (Rust's u128::from_be_bytes and
 * u128::to_be_bytes).
 */
module Words {
  import opened Radix

  type byte = x: int | 0 <= x < 256

  /** 2^128: one more than the largest u128. */
  const U128_LIMIT: nat := 0x1_0000_0000_0000_0000_0000_0000_0000_0000

  type u128 = x: int | 0 <= x < U128_LIMIT

  /** A u128 is sixteen base-256 digits. */
  lemma U128Limit()
    ensures U128_LIMIT == Pow(256, 16)
  {
    assert Pow(256, 4) == 0x1_0000_0000;
    assert Pow(256, 8) == 0x1_0000_0000_0000_0000;
    assert Pow(256, 12) == 0x1_0000_0000_0000_0000_0000_0000;
  }

  /** The number sixteen bytes denote, most significant byte first. */
  function FromBeBytes(bytes: seq<byte>): (v: u128)
    requires |bytes| == 16
  {
    ValueBound(bytes, 256);
    U128Limit();
    Value(bytes, 256)
  }

  /** The sixteen bytes of a u128, most significant byte first. */
  function ToBeBytes(v: u128): (bytes: seq<byte>)
    ensures |bytes| == 16
  {
    Digits(v, 256, 16)
  }

  /** Writing back the value read from sixteen bytes gives the same bytes. */
  lemma BytesRoundTrip(bytes: seq<byte>)
    requires |bytes| == 16
    ensures ToBeBytes(FromBeBytes(bytes)) == bytes
  {
    DigitsOfValue(bytes, 256);
  }

  /** Reading back the bytes written for a u128 gives the same value. */
  lemma ValueRoundTrip(v: u128)
    ensures FromBeBytes(ToBeBytes(v)) == v
  {
    ValueOfDigits(v, 256, 16);
    U128Limit();
    DivMod(0, v, U128_LIMIT);
  }

  /** The first byte is the most significant: it is zero exactly when the value is below 2^120. */
  lemma TopByte(bytes: seq<byte>)
    requires |bytes| == 16
    ensures bytes[0] != 0 <==> FromBeBytes(bytes) >= Pow(256, 15)
  {
    if bytes[0] != 0 {
      LeadingDigitBound(bytes, 256);
    } else {
      ValueZeroHead(bytes, 256);
      assert IsDigits(bytes[1..], 256);
      ValueBound(bytes[1..], 256);
    }
  }
}
