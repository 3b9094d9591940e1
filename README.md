# pg_base62 in Dafny

pg_base62 is a PostgreSQL extension with two SQL functions. `base62_encode`
turns a UUID into short base62 text. `base62_decode` turns that text back
into a UUID. This project models both functions and the base62 codec they
call, and proves the properties the extension's tests check.

The model has seven modules:

- `Radix` (radix.dfy) defines positional numerals in any base, most
  significant digit first:
  - `Value` reads a numeral with Horner's rule;
  - `Digits` writes the w low-order digits of a number;
  - `Width` and `Numeral` give the minimal numeral, which has no leading
    zero digit.
  
  Both halves of the pipeline are instances of this concept. The 16 bytes
  of a UUID are a base-256 numeral; its text is a base-62 numeral.
- `Words` (words.dfy) models `u128::from_be_bytes` and `u128::to_be_bytes`
  and proves that they are inverse to each other.
- `Base62Codec` (codec.dfy) states the external `base62` crate by the
  contract the extension relies on:
  - the alphabet is `0-9A-Za-z`;
  - `EncodeBytes` writes the minimal numeral into a caller buffer, with the
    digit loop `WriteDigits`, and reports a buffer that is too small;
  - `Decode` accumulates left to right with Horner's rule, and fails on an
    empty text, a foreign character, or a value of 2^128 or more.
- `Errors` (error.dfy) is the `Base62Error` enum of src/error.rs.
- `Wrappers` (wrappers.dfy) holds the `Option` and `Result` datatypes.
- `PgBase62` (lib.dfy) holds `Base62Encode`, `Base62Decode` and the
  properties the extension promises. `Base62Encode` is a method: it copies
  the bytes into a 16-byte array and has the codec fill a 22-byte buffer.
- `Tests` (tests.dfy) restates the test cases of src/lib.rs, including the
  three known UUID/text pairs, as lemmas.

A UUID is its 16 bytes. Text is a `string`.

## Model

| member | source | states |
|---|---|---|
| Words.ToBeBytes | src/lib.rs:31 | a value written big-endian is 16 bytes long |
| Words.BytesRoundTrip | src/lib.rs:10-13 | writing back the value read from 16 bytes gives the same 16 bytes |
| Words.ValueRoundTrip | src/lib.rs:31 | reading back the 16 bytes written for a u128 gives the same value |
| Words.TopByte | src/lib.rs:42-55 | the first byte is not zero exactly when the value is at least 2^120 |
| Words.U128Limit | src/lib.rs:13 | 2^128 is 256^16, the range of 16 bytes |
| Radix.ValueOfDigits | src/lib.rs:19 | reading back the w low-order digits of v gives v mod b^w |
| Radix.DigitsOfValue | src/lib.rs:30 | writing the value of a w-digit numeral back in w digits gives the same digits |
| Radix.ValueBound | src/lib.rs:30 | a numeral of n digits denotes a number below b^n |
| Radix.WidthBounds | src/lib.rs:19 | the minimal numeral's length w is the least with v < b^w |
| Radix.WidthAtMost | src/lib.rs:18-19 | the minimal numeral fits in k digits exactly when v < b^k |
| Radix.NumeralValue | src/lib.rs:19 | the minimal numeral of v denotes v |
| Radix.NumeralCanonical | src/lib.rs:19 | the minimal numeral has no superfluous leading zero; it starts with zero only for v = 0 |
| Radix.NumeralShortest | src/lib.rs:19 | every numeral of v is at least as long as the minimal one |
| Radix.NumeralOfCanonical | src/lib.rs:30 | a numeral without a superfluous leading zero is the minimal numeral of its value |
| Radix.LeadingDigitBound | src/lib.rs:30 | an n-digit numeral that starts with a non-zero digit denotes at least b^(n-1) |
| Base62Codec.AlphabetAt | src/lib.rs:57 | digit d is spelled by '0'+d, 'A'+(d-10) or 'a'+(d-36), for the three runs of the alphabet |
| Base62Codec.DigitOfFinds | src/lib.rs:57-60 | a character has a digit exactly when it is in the alphabet, and the alphabet spells that digit with it |
| Base62Codec.AlphabetIsAsciiAndDistinct | src/lib.rs:57 | every character of the alphabet is ASCII and stands for its own index |
| Base62Codec.DigitByteSpells | src/lib.rs:57 | the byte the codec writes for digit d is the ASCII code of the alphabet's d-th character |
| Base62Codec.Spell | src/lib.rs:57-60 | the text of a digit sequence has one alphabet character per digit, and each reads back as its digit |
| Base62Codec.EncodedLength | src/lib.rs:18-19 | the text of any u128 has 1 to 22 characters |
| Base62Codec.Pow62Bounds | src/lib.rs:18 | 62^20 < 2^120 < 62^21 < 2^128 <= 62^22, so 22 characters suffice |
| Base62Codec.DigitCount | src/lib.rs:19 | the loop counting base-62 digits returns the length of the encoded text |
| Base62Codec.WriteDigits | src/lib.rs:18-19 | the digit loop writes the alphabet code of every digit of the minimal numeral into the buffer's prefix, and leaves the rest alone |
| Base62Codec.EncodeBytes | src/lib.rs:18-19 | encoding succeeds exactly when the text fits the buffer; on success it returns the length and the prefix holds the text; otherwise the buffer is unchanged and the error is BufferTooSmall |
| Base62Codec.DecodeFromValue | src/lib.rs:30 | Horner accumulation over an alphabet text gives its value, or ArithmeticOverflow when the value is 2^128 or more |
| Base62Codec.DecodeFromForeign | src/lib.rs:30 | a character outside the alphabet makes the decode fail |
| Base62Codec.DecodeCharacterised | src/lib.rs:30 | decoding succeeds exactly on non-empty alphabet text whose value is below 2^128, and returns that value |
| Base62Codec.DecodeEncoded | src/lib.rs:19-30 | decoding the text of any u128 gives the u128 back |
| Base62Codec.SpellTextDigits | src/lib.rs:30 | spelling the digits of an alphabet text gives the text back |
| Base62Codec.LeadingZeroDigit | src/lib.rs:30 | an alphabet text starts with digit zero exactly when it starts with '0' |
| Base62Codec.EncodeDecoded | src/lib.rs:19-30 | decoding text without a superfluous leading '0' and encoding the value gives the same text |
| Base62Codec.LongTextOverflows | src/lib.rs:18-30 | alphabet text of more than 22 characters without a leading '0' decodes to ArithmeticOverflow |
| PgBase62.FromUtf8 | src/lib.rs:20-21 | a successful UTF-8 conversion gives one character per byte |
| PgBase62.FromUtf8Ascii | src/lib.rs:20-22 | the bytes of ASCII text convert back to the same text |
| PgBase62.Base62Encode | src/lib.rs:9-26 | input that is not 16 bytes gives InvalidInput; 16 bytes give the minimal base-62 numeral of their big-endian value |
| PgBase62.EncodedUuidShape | src/lib.rs:47-60 | encoding any UUID gives 1 to 22 characters, all in the alphabet |
| PgBase62.EncodedLengthTopByte | src/lib.rs:42-55 | a UUID whose first byte is not zero encodes to 21 or 22 characters |
| PgBase62.NilUuid | src/lib.rs:85-96 | the nil UUID is the value 0 and encodes to "0" |
| PgBase62.MaxUuidLength | src/lib.rs:18 | the largest UUID encodes to exactly 22 characters, the size of the buffer |
| PgBase62.DecodeErrorMapping | src/lib.rs:29-32 | every decode failure becomes DecodeError; decoding succeeds exactly when the codec does, with the codec's value as 16 big-endian bytes |
| PgBase62.Base62DecodeCharacterised | src/lib.rs:29-32 | base62_decode succeeds exactly on non-empty alphabet text whose value is below 2^128, and gives 16 bytes whose value is that of the text |
| PgBase62.UuidRoundTrip | src/lib.rs:63-83 | decoding the encoding of any UUID gives back exactly its 16 bytes |
| PgBase62.TextRoundTrip | src/lib.rs:19-32 | decoding text without a superfluous leading '0' and encoding the UUID gives back the same text |
| Tests.KnownUuidEncoding | src/lib.rs:42-61 | 0199a3dc-8bdf-7126-a3cf-cc8b933e852a encodes to 21 or 22 alphabet characters |
| Tests.KnownUuidRoundTrip | src/lib.rs:63-83 | 0199a3dc-8bee-73f5-b998-c96cfee3d2df decodes from its encoding to the same bytes |
| Tests.KnownPair | src/lib.rs:115-143 | a UUID whose value has the 21 digits of a text encodes to that text, and the text decodes to the UUID |
| Tests.KnownPair1 | src/lib.rs:99-143 | 0199a419-e48c-7107-933d-2ae94df8eadc encodes to "31CnfRQGzIq5PTVq2bs1E", which decodes back to it |
| Tests.KnownPair2 | src/lib.rs:99-143 | 0199a419-e482-7e85-838e-40ca7f5ac9d3 encodes to "31CnfRPIrur4cvcySLF47", which decodes back to it |
| Tests.KnownPair3 | src/lib.rs:99-143 | 0199a419-e46e-7199-90a4-fe4dc6efc5ad encodes to "31CnfRNLgjQ2SJ9rPi8DN", which decodes back to it |
| Tests.Bytes1 | src/lib.rs:102 | the 16 bytes of the first UUID are the big-endian digits of its value |
| Tests.Bytes2 | src/lib.rs:106 | the 16 bytes of the second UUID are the big-endian digits of its value |
| Tests.Bytes3 | src/lib.rs:110 | the 16 bytes of the third UUID are the big-endian digits of its value |
| Tests.Digits1 | src/lib.rs:103 | the 21 base-62 digits of the first UUID's value |
| Tests.Digits2 | src/lib.rs:107 | the 21 base-62 digits of the second UUID's value |
| Tests.Digits3 | src/lib.rs:111 | the 21 base-62 digits of the third UUID's value |
| Tests.Chars1 | src/lib.rs:103 | the first expected text is alphabet text with those 21 digits |
| Tests.Chars2 | src/lib.rs:107 | the second expected text is alphabet text with those 21 digits |
| Tests.Chars3 | src/lib.rs:111 | the third expected text is alphabet text with those 21 digits |

## Left out

- The PostgreSQL binding (`pg_module_magic!`, `#[pg_extern]`, `#[pg_schema]`, the `pg_test` module and its hooks) is host-framework glue with no behaviour of its own.
- The `thiserror` derive and the display messages of `Base62Error` are left out. The datatype keeps the three variants.
- The `base62` crate's source is not part of this model. Its behaviour is stated by contract:
  - the minimal numeral over `0-9A-Za-z`, most significant digit first;
  - Horner decoding that fails on a foreign character or on overflow past 2^128 − 1.
  
  The model does not claim to mirror the crate's code.
- Base62Codec.Decode: the model rejects the empty text with `EmptyInput`. The extension never exercises this case. `DecodeCharacterised` and `Base62DecodeCharacterised` state this choice outright. `EncodeDecoded` and `TextRoundTrip` also rely on it: their `requires` read the first character and are well-formed only because a successful decode implies non-empty text.
- Base62Codec.Decode: leading '0' characters are accepted, as Horner's rule gives them. The extension never exercises this case either. `DecodeCharacterised` and `Base62DecodeCharacterised` state it: alphabet text with leading '0's decodes to its value. `EncodeDecoded`, `TextRoundTrip` and `LongTextOverflows` exclude such text, because re-encoding drops the zeros.
- Base62Codec.Decode: decoding works on characters, not on UTF-8 bytes. The index in `InvalidCharacter` therefore counts characters. The extension discards the index in any case.
- PgBase62.FromUtf8: only ASCII is modelled, so any byte of 128 or more counts as a failure. This is weaker than full UTF-8 validation, but enough for the encoder, whose output is always ASCII.
- Parsing and formatting UUIDs with `uuid::Uuid` and `pgrx::Uuid` in the tests is left out. Each UUID appears in its 16-byte form.
- `base62_encode` is modelled by the method `Base62Encode`, which lemmas cannot call. The round-trip and known-pair lemmas therefore state the encoding as `EncodedText(FromBeBytes(u))`, which the `ensures` of `Base62Encode` equates with the method's result. `base62_decode` is the function `Base62Decode`, and those lemmas call it directly.
