/** The decoded property-list values the login-item code inspects. The decoder itself
    (the `plist` crate) is not part of this model: its output arrives as a `Value` tree or a
    `DecodeError`. */
module PlistValue {

  newtype byte = x: int | 0 <= x < 256

  /** A plist dictionary keeps its entries in insertion order. */
  type Dict = seq<(string, Value)>

  /** The value kinds the code distinguishes; every other kind (integers, reals, dates,
      booleans, UIDs) is `Other`. */
  datatype Value =
    | Array(items: seq<Value>)
    | Dictionary(entries: Dict)
    | Data(bytes: seq<byte>)
    | String(text: string)
    | Other

  /** A failure to read or decode a plist file, with its detail left opaque. */
  datatype DecodeError = DecodeError(detail: string)
}
