/** Shared vocabulary. */
module Common {

  /** A value that may be missing. */
  datatype Option<+T> = None | Some(value: T)

  predicate IsSpace(c: char) {
    c == ' ' || c == '\t' || c == '\n' || c == '\r' || c == '\U{B}' || c == '\U{C}' || c == '\U{A0}' || c == '\U{FEFF}'
    || EndsLine(c)
  }

  predicate EndsLine(c: char) {
    c == '\n' || c == '\r' || c == '\U{2028}' || c == '\U{2029}'
  }

  /** A text without line breaks. */
  ghost predicate OneLine(s: string) {
    '\r' !in s && '\n' !in s
  }

  /** `a.localeCompare(b)`: which order the locale has is not part of this model. */
  type Locale = (string, string) -> int

  ghost predicate IsOrder(l: Locale) {
    && (forall a, b :: l(a, b) < 0 ==> l(b, a) > 0)
    && (forall a, b :: l(a, b) == 0 ==> l(b, a) == 0)
    && (forall a, b :: l(a, b) > 0 ==> l(b, a) < 0)
    && (forall a, b, c :: l(a, b) <= 0 && l(b, c) <= 0 ==> l(a, c) <= 0)
  }
}
