/** Option, used wherever the source uses std::optional. */
module Wrappers {
  datatype Option<+T> = None | Some(value: T)
}

/**
 * Byte strings, fixed-width integers, byte search, and the interface
 * of the UTF-8 decoder (cmd::utils::uni), which is not part of this model.
 */
module Utils {
  import opened Wrappers

  newtype byte = x: int | 0 <= x < 0x100
  newtype uint32 = x: int | 0 <= x < 0x1_0000_0000
  newtype int32 = x: int | -0x8000_0000 <= x < 0x8000_0000

  /** A std::string_view: the source works on bytes and byte offsets. */
  type Bytes = seq<byte>

  /** A char32_t. */
  type Char32 = uint32

  const DASH: byte := 45    // '-'
  const EQUALS: byte := 61  // '='

  /** string_view::starts_with */
  predicate StartsWith(s: Bytes, prefix: Bytes) {
    |prefix| <= |s| && s[..|prefix|] == prefix
  }

  /** The implicit conversion of a 32-bit int to uint32_t (two's complement). */
  function ToUint32(x: int32): (r: uint32)
    ensures x >= 0 ==> r as int == x as int
    ensures x < 0 ==> r as int == x as int + 0x1_0000_0000
  {
    (x as int % 0x1_0000_0000) as uint32
  }

  /** Being a prefix is transitive. */
  lemma PrefixTrans<T>(a: seq<T>, b: seq<T>, c: seq<T>)
    requires a <= b && b <= c
    ensures a <= c
  {
    assert a == b[..|a|] == c[..|b|][..|a|] == c[..|a|];
  }

  /** string_view::find for one byte: the index of its first occurrence, if any. */
  function IndexOf(s: Bytes, b: byte): (r: Option<nat>)
    ensures r.Some? ==> r.value < |s| && s[r.value] == b
    ensures r.Some? ==> forall j :: 0 <= j < r.value ==> s[j] != b
    ensures r.None? ==> forall j :: 0 <= j < |s| ==> s[j] != b
  {
    if s == [] then None
    else if s[0] == b then Some(0)
    else match IndexOf(s[1..], b)
      case None => None
      case Some(k) => Some(k + 1)
  }

  /**
   * The two decoding primitives the parser calls: utf8_char_length gives the
   * byte length of the leading codepoint, codepoint gives its value. Either
   * may fail on malformed input.
   */
  datatype Decoder = Decoder(charLength: Bytes -> Option<nat>, codepoint: Bytes -> Option<Char32>)

  /**
   * The contract every decoder must keep: a decoded length is
   * positive and never exceeds the input (so decoding the empty string fails).
   */
  type Utf8 = d: Decoder | forall s :: d.charLength(s).Some? ==> 0 < d.charLength(s).value <= |s|
    witness Decoder((s: Bytes) => None, (s: Bytes) => None)
}
