/**
 The D-Bus values and connection settings the models work on.
 */
module Variants {
  import opened Utf8
  import opened Wrappers

  /** `Bytes([])` is every empty array that is not one of dictionaries: nothing the code does
      can tell empty arrays apart. `Opaque` is every value the code never looks into. */
  datatype Variant =
    | Text(text: string)
    | Bytes(bytes: seq<Byte>)
    | U32(bits: nat)
    | I32(number: int)
    | TextMap(entries: map<string, string>)
    | Dicts(dicts: seq<map<string, Variant>>)
    | Opaque(id: nat)

  /** The value as an array of dictionaries. */
  function DictsOf(value: Variant): Option<seq<map<string, Variant>>> {
    match value
    case Dicts(dicts) => Some(dicts)
    case Bytes(bytes) => if bytes == [] then Some([]) else None
    case _ => None
  }

  type Section = map<string, Variant>

  type Settings = map<string, Section>
}
