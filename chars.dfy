/** The scanner's character classes. Only ASCII ranges are tested, so a byte
    outside them falls in no class whether char is signed or not. */
module Chars {

  predicate IsAlpha(c: char)
  {
    ('a' <= c <= 'z') || ('A' <= c <= 'Z') || c == '_'
  }

  predicate IsDigit(c: char)
  {
    '0' <= c <= '9'
  }

  predicate IsAlphanum(c: char)
  {
    IsAlpha(c) || IsDigit(c)
  }

  /** newline() in the scanner: the character under the cursor ends a line. */
  predicate IsNewline(c: char)
  {
    c == '\r' || c == '\n'
  }

  /** The characters skip_whitespace consumes on their own. */
  predicate IsBlank(c: char)
  {
    c == ' ' || c == '\t' || IsNewline(c)
  }

  /** The characters get_token's switch names, the terminator among them. */
  const Recognized := "\"(){}[]+-*/=<>!&|%.?:\0"

  /** Letters, underscore and digits are disjoint from the blanks, from
      every character get_token's switch names, and from `,` and `;`, which
      it does not, so an identifier or number run always stops at them. */
  lemma ClassesAreDisjoint(c: char)
    ensures IsAlpha(c) ==> !IsDigit(c)
    ensures IsAlphanum(c) ==> !IsBlank(c) && c !in Recognized && c !in ",;"
  {
  }
}
