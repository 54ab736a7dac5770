/** The character classes of the C locale that the text formats use. */
module Chars {

  predicate IsNewline(ch: char) {
    ch == '\n' || ch == '\r'
  }

  predicate IsSpace(ch: char) {
    ch == ' ' || ch == '\U{000C}' || IsNewline(ch) || ch == '\t' || ch == '\U{000B}'
  }

  predicate IsDigit(ch: char) {
    '0' <= ch <= '9'
  }
}
