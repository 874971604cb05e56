/** Go strings are byte sequences.  A byte is a character below 256, so that literals stay readable. */
module GoStrings {
  type Byte = c: char | c as int < 256

  type Text = seq<Byte>

  /** The class `\s` of Go's regular expressions: tab, newline, form feed, carriage return, space. */
  predicate IsSpace(c: Byte) {
    c == '\t' || c == '\n' || c == '\U{000C}' || c == '\r' || c == ' '
  }

  predicate HasSuffix(s: Text, suffix: Text) {
    |suffix| <= |s| && s[|s| - |suffix|..] == suffix
  }

  predicate NoSlash(s: Text) {
    '/' !in s
  }
}
