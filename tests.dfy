/**
 * The known pairs of UUIDs and base62 texts that src/lib.rs checks, as
 * lemmas about the model. Each UUID is written as its 16 bytes; the big
 * number beside it is their big-endian value.
 */
module Tests {
  import opened Radix
  import opened Words
  import opened Wrappers
  import opened Base62Codec
  import opened PgBase62

  /**
   * A UUID whose value n has the 21 base-62 digits ds, which are also the
   * digits of text, encodes to text, and text decodes back to the UUID.
   */
  lemma KnownPair(uuid: seq<byte>, n: u128, ds: seq<int>, text: string)
    requires ToBeBytes(n) == uuid
    requires 704423425546998022968330264616370176 <= n < 43674252383913877424036476406214950912
    requires Digits(n, 62, 21) == ds
    requires IsBase62Text(text) && TextDigits(text) == ds
    ensures EncodedText(FromBeBytes(uuid)) == text
    ensures Base62Decode(text) == Ok(uuid)
  {
    ValueRoundTrip(n);
    assert FromBeBytes(uuid) == n;
    Pow62Bounds();
    WidthAtMost(n, 62, 20);
    WidthAtMost(n, 62, 21);
    assert Numeral(n, 62) == ds;
    SpellTextDigits(text);
    assert EncodedText(n) == text;
    DecodeEncoded(n);
    assert Decode(text) == Ok(n);
  }

  /**
   * 0199a3dc-8bdf-7126-a3cf-cc8b933e852a encodes to 21 or 22 characters, all
   * of the alphabet.
   */
  lemma KnownUuidEncoding()
    ensures var text := EncodedText(FromBeBytes([1, 153, 163, 220, 139, 223, 113, 38, 163, 207, 204, 139, 147, 62, 133, 42]));
      && 21 <= |text| <= 22
      && forall i :: 0 <= i < |text| ==> text[i] in Alphabet
  {
    EncodedLengthTopByte([1, 153, 163, 220, 139, 223, 113, 38, 163, 207, 204, 139, 147, 62, 133, 42]);
    EncodedUuidShape([1, 153, 163, 220, 139, 223, 113, 38, 163, 207, 204, 139, 147, 62, 133, 42]);
  }

  /** 0199a3dc-8bee-73f5-b998-c96cfee3d2df decodes from its encoding to the same 16 bytes. */
  lemma KnownUuidRoundTrip()
    ensures Base62Decode(EncodedText(FromBeBytes([1, 153, 163, 220, 139, 238, 115, 245, 185, 152, 201, 108, 254, 227, 210, 223]))) == Ok([1, 153, 163, 220, 139, 238, 115, 245, 185, 152, 201, 108, 254, 227, 210, 223])
  {
    UuidRoundTrip([1, 153, 163, 220, 139, 238, 115, 245, 185, 152, 201, 108, 254, 227, 210, 223]);
  }

  /** The 16 bytes of 0199a419-e48c-7107-933d-2ae94df8eadc, most significant first. */
  lemma Bytes1()
    ensures ToBeBytes(2126977781752171851789120204724300508) == [1, 153, 164, 25, 228, 140, 113, 7, 147, 61, 42, 233, 77, 248, 234, 220]
  {
    DigitsSnoc(1, 256, 0, []);
    DigitsSnoc(409, 256, 1, [1]);
    DigitsSnoc(104868, 256, 2, [1, 153]);
    DigitsSnoc(26846233, 256, 3, [1, 153, 164]);
    DigitsSnoc(6872635876, 256, 4, [1, 153, 164, 25]);
    DigitsSnoc(1759394784396, 256, 5, [1, 153, 164, 25, 228]);
    DigitsSnoc(450405064805489, 256, 6, [1, 153, 164, 25, 228, 140]);
    DigitsSnoc(115303696590205191, 256, 7, [1, 153, 164, 25, 228, 140, 113]);
    DigitsSnoc(29517746327092529043, 256, 8, [1, 153, 164, 25, 228, 140, 113, 7]);
    DigitsSnoc(7556543059735687435069, 256, 9, [1, 153, 164, 25, 228, 140, 113, 7, 147]);
    DigitsSnoc(1934475023292335983377706, 256, 10, [1, 153, 164, 25, 228, 140, 113, 7, 147, 61]);
    DigitsSnoc(495225605962838011744692969, 256, 11, [1, 153, 164, 25, 228, 140, 113, 7, 147, 61, 42]);
    DigitsSnoc(126777755126486531006641400141, 256, 12, [1, 153, 164, 25, 228, 140, 113, 7, 147, 61, 42, 233]);
    DigitsSnoc(32455105312380551937700198436344, 256, 13, [1, 153, 164, 25, 228, 140, 113, 7, 147, 61, 42, 233, 77]);
    DigitsSnoc(8308506959969421296051250799704298, 256, 14, [1, 153, 164, 25, 228, 140, 113, 7, 147, 61, 42, 233, 77, 248]);
    DigitsSnoc(2126977781752171851789120204724300508, 256, 15, [1, 153, 164, 25, 228, 140, 113, 7, 147, 61, 42, 233, 77, 248, 234]);
  }

  /** The 11 leading base-62 digits of 0199a419-e48c-7107-933d-2ae94df8eadc. */
  lemma LeadingDigits1()
    ensures Digits(2534230178467486212, 62, 11) == [3, 1, 12, 49, 41, 27, 26, 16, 61, 18, 52]
  {
    DigitsSnoc(3, 62, 0, []);
    DigitsSnoc(187, 62, 1, [3]);
    DigitsSnoc(11606, 62, 2, [3, 1]);
    DigitsSnoc(719621, 62, 3, [3, 1, 12]);
    DigitsSnoc(44616543, 62, 4, [3, 1, 12, 49]);
    DigitsSnoc(2766225693, 62, 5, [3, 1, 12, 49, 41]);
    DigitsSnoc(171505992992, 62, 6, [3, 1, 12, 49, 41, 27]);
    DigitsSnoc(10633371565520, 62, 7, [3, 1, 12, 49, 41, 27, 26]);
    DigitsSnoc(659269037062301, 62, 8, [3, 1, 12, 49, 41, 27, 26, 16]);
    DigitsSnoc(40874680297862680, 62, 9, [3, 1, 12, 49, 41, 27, 26, 16, 61]);
    DigitsSnoc(2534230178467486212, 62, 10, [3, 1, 12, 49, 41, 27, 26, 16, 61, 18]);
  }

  /** The 21 base-62 digits of 0199a419-e48c-7107-933d-2ae94df8eadc, most significant first. */
  lemma Digits1()
    ensures Digits(2126977781752171851789120204724300508, 62, 21) == [3, 1, 12, 49, 41, 27, 26, 16, 61, 18, 52, 5, 25, 29, 31, 52, 2, 37, 54, 1, 14]
  {
    LeadingDigits1();
    DigitsSnoc(157122271064984145149, 62, 11, [3, 1, 12, 49, 41, 27, 26, 16, 61, 18, 52]);
    DigitsSnoc(9741580806029016999263, 62, 12, [3, 1, 12, 49, 41, 27, 26, 16, 61, 18, 52, 5]);
    DigitsSnoc(603978009973799053954335, 62, 13, [3, 1, 12, 49, 41, 27, 26, 16, 61, 18, 52, 5, 25]);
    DigitsSnoc(37446636618375541345168801, 62, 14, [3, 1, 12, 49, 41, 27, 26, 16, 61, 18, 52, 5, 25, 29]);
    DigitsSnoc(2321691470339283563400465714, 62, 15, [3, 1, 12, 49, 41, 27, 26, 16, 61, 18, 52, 5, 25, 29, 31]);
    DigitsSnoc(143944871161035580930828874270, 62, 16, [3, 1, 12, 49, 41, 27, 26, 16, 61, 18, 52, 5, 25, 29, 31, 52]);
    DigitsSnoc(8924582011984206017711390204777, 62, 17, [3, 1, 12, 49, 41, 27, 26, 16, 61, 18, 52, 5, 25, 29, 31, 52, 2]);
    DigitsSnoc(553324084743020773098106192696228, 62, 18, [3, 1, 12, 49, 41, 27, 26, 16, 61, 18, 52, 5, 25, 29, 31, 52, 2, 37]);
    DigitsSnoc(34306093254067287932082583947166137, 62, 19, [3, 1, 12, 49, 41, 27, 26, 16, 61, 18, 52, 5, 25, 29, 31, 52, 2, 37, 54]);
    DigitsSnoc(2126977781752171851789120204724300508, 62, 20, [3, 1, 12, 49, 41, 27, 26, 16, 61, 18, 52, 5, 25, 29, 31, 52, 2, 37, 54, 1]);
  }

  /** The digits "31CnfRQGzIq5PTVq2bs1E" stands for. */
  lemma Chars1()
    ensures IsBase62Text("31CnfRQGzIq5PTVq2bs1E") && TextDigits("31CnfRQGzIq5PTVq2bs1E") == [3, 1, 12, 49, 41, 27, 26, 16, 61, 18, 52, 5, 25, 29, 31, 52, 2, 37, 54, 1, 14]
  {
  }

  /** 0199a419-e48c-7107-933d-2ae94df8eadc encodes to "31CnfRQGzIq5PTVq2bs1E", and "31CnfRQGzIq5PTVq2bs1E" decodes to it. */
  lemma KnownPair1()
    ensures EncodedText(FromBeBytes([1, 153, 164, 25, 228, 140, 113, 7, 147, 61, 42, 233, 77, 248, 234, 220])) == "31CnfRQGzIq5PTVq2bs1E"
    ensures Base62Decode("31CnfRQGzIq5PTVq2bs1E") == Ok([1, 153, 164, 25, 228, 140, 113, 7, 147, 61, 42, 233, 77, 248, 234, 220])
  {
    Bytes1();
    Digits1();
    Chars1();
    KnownPair([1, 153, 164, 25, 228, 140, 113, 7, 147, 61, 42, 233, 77, 248, 234, 220], 2126977781752171851789120204724300508, [3, 1, 12, 49, 41, 27, 26, 16, 61, 18, 52, 5, 25, 29, 31, 52, 2, 37, 54, 1, 14], "31CnfRQGzIq5PTVq2bs1E");
  }

  /** The 16 bytes of 0199a419-e482-7e85-838e-40ca7f5ac9d3, most significant first. */
  lemma Bytes2()
    ensures ToBeBytes(2126977781740146307516906531215559123) == [1, 153, 164, 25, 228, 130, 126, 133, 131, 142, 64, 202, 127, 90, 201, 211]
  {
    DigitsSnoc(1, 256, 0, []);
    DigitsSnoc(409, 256, 1, [1]);
    DigitsSnoc(104868, 256, 2, [1, 153]);
    DigitsSnoc(26846233, 256, 3, [1, 153, 164]);
    DigitsSnoc(6872635876, 256, 4, [1, 153, 164, 25]);
    DigitsSnoc(1759394784386, 256, 5, [1, 153, 164, 25, 228]);
    DigitsSnoc(450405064802942, 256, 6, [1, 153, 164, 25, 228, 130]);
    DigitsSnoc(115303696589553285, 256, 7, [1, 153, 164, 25, 228, 130, 126]);
    DigitsSnoc(29517746326925641091, 256, 8, [1, 153, 164, 25, 228, 130, 126, 133]);
    DigitsSnoc(7556543059692964119438, 256, 9, [1, 153, 164, 25, 228, 130, 126, 133, 131]);
    DigitsSnoc(1934475023281398814576192, 256, 10, [1, 153, 164, 25, 228, 130, 126, 133, 131, 142]);
    DigitsSnoc(495225605960038096531505354, 256, 11, [1, 153, 164, 25, 228, 130, 126, 133, 131, 142, 64]);
    DigitsSnoc(126777755125769752712065370751, 256, 12, [1, 153, 164, 25, 228, 130, 126, 133, 131, 142, 64, 202]);
    DigitsSnoc(32455105312197056694288734912346, 256, 13, [1, 153, 164, 25, 228, 130, 126, 133, 131, 142, 64, 202, 127]);
    DigitsSnoc(8308506959922446513737916137560777, 256, 14, [1, 153, 164, 25, 228, 130, 126, 133, 131, 142, 64, 202, 127, 90]);
    DigitsSnoc(2126977781740146307516906531215559123, 256, 15, [1, 153, 164, 25, 228, 130, 126, 133, 131, 142, 64, 202, 127, 90, 201]);
  }

  /** The 11 leading base-62 digits of 0199a419-e482-7e85-838e-40ca7f5ac9d3. */
  lemma LeadingDigits2()
    ensures Digits(2534230178453158137, 62, 11) == [3, 1, 12, 49, 41, 27, 25, 18, 53, 56, 53]
  {
    DigitsSnoc(3, 62, 0, []);
    DigitsSnoc(187, 62, 1, [3]);
    DigitsSnoc(11606, 62, 2, [3, 1]);
    DigitsSnoc(719621, 62, 3, [3, 1, 12]);
    DigitsSnoc(44616543, 62, 4, [3, 1, 12, 49]);
    DigitsSnoc(2766225693, 62, 5, [3, 1, 12, 49, 41]);
    DigitsSnoc(171505992991, 62, 6, [3, 1, 12, 49, 41, 27]);
    DigitsSnoc(10633371565460, 62, 7, [3, 1, 12, 49, 41, 27, 25]);
    DigitsSnoc(659269037058573, 62, 8, [3, 1, 12, 49, 41, 27, 25, 18]);
    DigitsSnoc(40874680297631582, 62, 9, [3, 1, 12, 49, 41, 27, 25, 18, 53]);
    DigitsSnoc(2534230178453158137, 62, 10, [3, 1, 12, 49, 41, 27, 25, 18, 53, 56]);
  }

  /** The 21 base-62 digits of 0199a419-e482-7e85-838e-40ca7f5ac9d3, most significant first. */
  lemma Digits2()
    ensures Digits(2126977781740146307516906531215559123, 62, 21) == [3, 1, 12, 49, 41, 27, 25, 18, 53, 56, 53, 4, 38, 57, 38, 60, 28, 21, 15, 4, 7]
  {
    LeadingDigits2();
    DigitsSnoc(157122271064095804498, 62, 11, [3, 1, 12, 49, 41, 27, 25, 18, 53, 56, 53]);
    DigitsSnoc(9741580805973939878914, 62, 12, [3, 1, 12, 49, 41, 27, 25, 18, 53, 56, 53, 4]);
    DigitsSnoc(603978009970384272492725, 62, 13, [3, 1, 12, 49, 41, 27, 25, 18, 53, 56, 53, 4, 38]);
    DigitsSnoc(37446636618163824894548988, 62, 14, [3, 1, 12, 49, 41, 27, 25, 18, 53, 56, 53, 4, 38, 57]);
    DigitsSnoc(2321691470326157143462037316, 62, 15, [3, 1, 12, 49, 41, 27, 25, 18, 53, 56, 53, 4, 38, 57, 38]);
    DigitsSnoc(143944871160221742894646313620, 62, 16, [3, 1, 12, 49, 41, 27, 25, 18, 53, 56, 53, 4, 38, 57, 38, 60]);
    DigitsSnoc(8924582011933748059468071444461, 62, 17, [3, 1, 12, 49, 41, 27, 25, 18, 53, 56, 53, 4, 38, 57, 38, 60, 28]);
    DigitsSnoc(553324084739892379687020429556597, 62, 18, [3, 1, 12, 49, 41, 27, 25, 18, 53, 56, 53, 4, 38, 57, 38, 60, 28, 21]);
    DigitsSnoc(34306093253873327540595266632509018, 62, 19, [3, 1, 12, 49, 41, 27, 25, 18, 53, 56, 53, 4, 38, 57, 38, 60, 28, 21, 15]);
    DigitsSnoc(2126977781740146307516906531215559123, 62, 20, [3, 1, 12, 49, 41, 27, 25, 18, 53, 56, 53, 4, 38, 57, 38, 60, 28, 21, 15, 4]);
  }

  /** The digits "31CnfRPIrur4cvcySLF47" stands for. */
  lemma Chars2()
    ensures IsBase62Text("31CnfRPIrur4cvcySLF47") && TextDigits("31CnfRPIrur4cvcySLF47") == [3, 1, 12, 49, 41, 27, 25, 18, 53, 56, 53, 4, 38, 57, 38, 60, 28, 21, 15, 4, 7]
  {
  }

  /** 0199a419-e482-7e85-838e-40ca7f5ac9d3 encodes to "31CnfRPIrur4cvcySLF47", and "31CnfRPIrur4cvcySLF47" decodes to it. */
  lemma KnownPair2()
    ensures EncodedText(FromBeBytes([1, 153, 164, 25, 228, 130, 126, 133, 131, 142, 64, 202, 127, 90, 201, 211])) == "31CnfRPIrur4cvcySLF47"
    ensures Base62Decode("31CnfRPIrur4cvcySLF47") == Ok([1, 153, 164, 25, 228, 130, 126, 133, 131, 142, 64, 202, 127, 90, 201, 211])
  {
    Bytes2();
    Digits2();
    Chars2();
    KnownPair([1, 153, 164, 25, 228, 130, 126, 133, 131, 142, 64, 202, 127, 90, 201, 211], 2126977781740146307516906531215559123, [3, 1, 12, 49, 41, 27, 25, 18, 53, 56, 53, 4, 38, 57, 38, 60, 28, 21, 15, 4, 7], "31CnfRPIrur4cvcySLF47");
  }

  /** The 16 bytes of 0199a419-e46e-7199-90a4-fe4dc6efc5ad, most significant first. */
  lemma Bytes3()
    ensures ToBeBytes(2126977781715906770238367660044699053) == [1, 153, 164, 25, 228, 110, 113, 153, 144, 164, 254, 77, 198, 239, 197, 173]
  {
    DigitsSnoc(1, 256, 0, []);
    DigitsSnoc(409, 256, 1, [1]);
    DigitsSnoc(104868, 256, 2, [1, 153]);
    DigitsSnoc(26846233, 256, 3, [1, 153, 164]);
    DigitsSnoc(6872635876, 256, 4, [1, 153, 164, 25]);
    DigitsSnoc(1759394784366, 256, 5, [1, 153, 164, 25, 228]);
    DigitsSnoc(450405064797809, 256, 6, [1, 153, 164, 25, 228, 110]);
    DigitsSnoc(115303696588239257, 256, 7, [1, 153, 164, 25, 228, 110, 113]);
    DigitsSnoc(29517746326589249936, 256, 8, [1, 153, 164, 25, 228, 110, 113, 153]);
    DigitsSnoc(7556543059606847983780, 256, 9, [1, 153, 164, 25, 228, 110, 113, 153, 144]);
    DigitsSnoc(1934475023259353083847934, 256, 10, [1, 153, 164, 25, 228, 110, 113, 153, 144, 164]);
    DigitsSnoc(495225605954394389465071181, 256, 11, [1, 153, 164, 25, 228, 110, 113, 153, 144, 164, 254]);
    DigitsSnoc(126777755124324963703058222534, 256, 12, [1, 153, 164, 25, 228, 110, 113, 153, 144, 164, 254, 77]);
    DigitsSnoc(32455105311827190707982904968943, 256, 13, [1, 153, 164, 25, 228, 110, 113, 153, 144, 164, 254, 77, 198]);
    DigitsSnoc(8308506959827760821243623672049605, 256, 14, [1, 153, 164, 25, 228, 110, 113, 153, 144, 164, 254, 77, 198, 239]);
    DigitsSnoc(2126977781715906770238367660044699053, 256, 15, [1, 153, 164, 25, 228, 110, 113, 153, 144, 164, 254, 77, 198, 239, 197]);
  }

  /** The 11 leading base-62 digits of 0199a419-e46e-7199-90a4-fe4dc6efc5ad. */
  lemma LeadingDigits3()
    ensures Digits(2534230178424277456, 62, 11) == [3, 1, 12, 49, 41, 27, 23, 21, 42, 45, 26]
  {
    DigitsSnoc(3, 62, 0, []);
    DigitsSnoc(187, 62, 1, [3]);
    DigitsSnoc(11606, 62, 2, [3, 1]);
    DigitsSnoc(719621, 62, 3, [3, 1, 12]);
    DigitsSnoc(44616543, 62, 4, [3, 1, 12, 49]);
    DigitsSnoc(2766225693, 62, 5, [3, 1, 12, 49, 41]);
    DigitsSnoc(171505992989, 62, 6, [3, 1, 12, 49, 41, 27]);
    DigitsSnoc(10633371565339, 62, 7, [3, 1, 12, 49, 41, 27, 23]);
    DigitsSnoc(659269037051060, 62, 8, [3, 1, 12, 49, 41, 27, 23, 21]);
    DigitsSnoc(40874680297165765, 62, 9, [3, 1, 12, 49, 41, 27, 23, 21, 42]);
    DigitsSnoc(2534230178424277456, 62, 10, [3, 1, 12, 49, 41, 27, 23, 21, 42, 45]);
  }

  /** The 21 base-62 digits of 0199a419-e46e-7199-90a4-fe4dc6efc5ad, most significant first. */
  lemma Digits3()
    ensures Digits(2126977781715906770238367660044699053, 62, 21) == [3, 1, 12, 49, 41, 27, 23, 21, 42, 45, 26, 2, 28, 19, 9, 53, 25, 44, 8, 13, 23]
  {
    LeadingDigits3();
    DigitsSnoc(157122271062305202274, 62, 11, [3, 1, 12, 49, 41, 27, 23, 21, 42, 45, 26]);
    DigitsSnoc(9741580805862922541016, 62, 12, [3, 1, 12, 49, 41, 27, 23, 21, 42, 45, 26, 2]);
    DigitsSnoc(603978009963501197543011, 62, 13, [3, 1, 12, 49, 41, 27, 23, 21, 42, 45, 26, 2, 28]);
    DigitsSnoc(37446636617737074247666691, 62, 14, [3, 1, 12, 49, 41, 27, 23, 21, 42, 45, 26, 2, 28, 19]);
    DigitsSnoc(2321691470299698603355334895, 62, 15, [3, 1, 12, 49, 41, 27, 23, 21, 42, 45, 26, 2, 28, 19, 9]);
    DigitsSnoc(143944871158581313408030763515, 62, 16, [3, 1, 12, 49, 41, 27, 23, 21, 42, 45, 26, 2, 28, 19, 9, 53]);
    DigitsSnoc(8924582011832041431297907337974, 62, 17, [3, 1, 12, 49, 41, 27, 23, 21, 42, 45, 26, 2, 28, 19, 9, 53, 25]);
    DigitsSnoc(553324084733586568740470254954396, 62, 18, [3, 1, 12, 49, 41, 27, 23, 21, 42, 45, 26, 2, 28, 19, 9, 53, 25, 44]);
    DigitsSnoc(34306093253482367261909155807172565, 62, 19, [3, 1, 12, 49, 41, 27, 23, 21, 42, 45, 26, 2, 28, 19, 9, 53, 25, 44, 8]);
    DigitsSnoc(2126977781715906770238367660044699053, 62, 20, [3, 1, 12, 49, 41, 27, 23, 21, 42, 45, 26, 2, 28, 19, 9, 53, 25, 44, 8, 13]);
  }

  /** The digits "31CnfRNLgjQ2SJ9rPi8DN" stands for. */
  lemma Chars3()
    ensures IsBase62Text("31CnfRNLgjQ2SJ9rPi8DN") && TextDigits("31CnfRNLgjQ2SJ9rPi8DN") == [3, 1, 12, 49, 41, 27, 23, 21, 42, 45, 26, 2, 28, 19, 9, 53, 25, 44, 8, 13, 23]
  {
  }

  /** 0199a419-e46e-7199-90a4-fe4dc6efc5ad encodes to "31CnfRNLgjQ2SJ9rPi8DN", and "31CnfRNLgjQ2SJ9rPi8DN" decodes to it. */
  lemma KnownPair3()
    ensures EncodedText(FromBeBytes([1, 153, 164, 25, 228, 110, 113, 153, 144, 164, 254, 77, 198, 239, 197, 173])) == "31CnfRNLgjQ2SJ9rPi8DN"
    ensures Base62Decode("31CnfRNLgjQ2SJ9rPi8DN") == Ok([1, 153, 164, 25, 228, 110, 113, 153, 144, 164, 254, 77, 198, 239, 197, 173])
  {
    Bytes3();
    Digits3();
    Chars3();
    KnownPair([1, 153, 164, 25, 228, 110, 113, 153, 144, 164, 254, 77, 198, 239, 197, 173], 2126977781715906770238367660044699053, [3, 1, 12, 49, 41, 27, 23, 21, 42, 45, 26, 2, 28, 19, 9, 53, 25, 44, 8, 13, 23], "31CnfRNLgjQ2SJ9rPi8DN");
  }
}
