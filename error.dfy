/** The three error kinds a caller of the extension can see (src/error.rs). */
module Errors {

  datatype Base62Error =
    | InvalidInput   // the UUID value is not 16 bytes long
    | EncodeError    // the number could not be written as base62 text
    | DecodeError    // the text is not the base62 numeral of a 128-bit number
}
