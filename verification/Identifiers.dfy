/** The text checks that several validators share. */
module Identifiers {
  const MAX_IDENTIFIER := 512

  /** The characters that Python's str.strip removes. */
  predicate IsSpace(c: char) {
    var code := c as int;
    || 9 <= code <= 13 || 28 <= code <= 32 || code == 0x85 || code == 0xa0 || code == 0x1680
    || 0x2000 <= code <= 0x200a || code == 0x2028 || code == 0x2029 || code == 0x202f
    || code == 0x205f || code == 0x3000
  }

  predicate IsBlank(s: string) { forall c | c in s :: IsSpace(c) }

  predicate ValidIdentifier(s: string) { 0 < |s| <= MAX_IDENTIFIER }
}
