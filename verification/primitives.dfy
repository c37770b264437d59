/** The scalar types of the system: identifiers, instants and .NET strings. */
module Primitives {
  import opened Wrappers

  /** A GUID, as an opaque number; `Guid.Empty` is zero. */
  type Guid = nat

  const EmptyGuid: Guid := 0

  /** A `DateTime`, as its tick count; `default(DateTime)` is tick zero. */
  type Ticks = int

  const DefaultTicks: Ticks := 0

  /** A .NET string reference, which may be null. */
  type NString = Option<string>

  /** `char.IsWhiteSpace`: the Unicode space separators, line and paragraph
      separators, and the control characters U+0009 to U+000D and U+0085. */
  predicate IsWhiteSpace(c: char) {
    || ('\t' <= c <= '\r')
    || c == ' '
    || c == '\U{0085}'
    || c == '\U{00A0}'
    || c == '\U{1680}'
    || ('\U{2000}' <= c <= '\U{200A}')
    || c == '\U{2028}'
    || c == '\U{2029}'
    || c == '\U{202F}'
    || c == '\U{205F}'
    || c == '\U{3000}'
  }

  /** `string.IsNullOrWhiteSpace`. */
  predicate IsNullOrWhiteSpace(s: NString) {
    match s
    case None => true
    case Some(str) => forall i :: 0 <= i < |str| ==> IsWhiteSpace(str[i])
  }

  /** `string.IsNullOrEmpty`. */
  predicate IsNullOrEmpty(s: NString) {
    s == None || s == Some("")
  }

  /** `string.StartsWith` with an ordinal comparison. */
  predicate StartsWith(s: string, prefix: string) {
    |prefix| <= |s| && s[..|prefix|] == prefix
  }
}
