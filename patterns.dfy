/**
 * The two fixed patterns of the generator, written as character predicates.
 * Go's RE2 classes `\d`, `[[:upper:]]` and `\w` are ASCII-only, and `^...$`
 * without the multi-line flag anchors at the ends of the whole text, so each
 * pattern matches exactly the strings described below.
 */
module Patterns {

  /** `\d` */
  predicate IsDigit(c: char) { '0' <= c <= '9' }

  /** `[[:upper:]]` */
  predicate IsUpper(c: char) { 'A' <= c <= 'Z' }

  predicate IsLower(c: char) { 'a' <= c <= 'z' }

  /** `\w`: `[0-9A-Za-z_]` */
  predicate IsWordChar(c: char) { IsDigit(c) || IsUpper(c) || IsLower(c) || c == '_' }

  /** `^IST\d\d\d\d$`: the letters IST followed by exactly four digits. */
  predicate IsCode(s: string) {
    |s| == 7 && s[..3] == "IST" && forall i :: 3 <= i < 7 ==> IsDigit(s[i])
  }

  /** `^[[:upper:]]\w*$`: an upper-case letter followed by any number of word characters. */
  predicate IsName(s: string) {
    |s| > 0 && IsUpper(s[0]) && forall i :: 1 <= i < |s| ==> IsWordChar(s[i])
  }

  /** Codes with too few or too many digits, or a lower-case prefix, are refused. */
  lemma CodeExamples()
    ensures IsCode("IST0001") && IsCode("IST9999")
    ensures !IsCode("IST001") && !IsCode("IST00001") && !IsCode("ist0001") && !IsCode("IST000a")
    ensures !IsCode("") && !IsCode("XIST0001")
  {
    assert "IST0001"[..3] == "IST";
    assert "IST9999"[..3] == "IST";
    assert "ist0001"[..3] != "IST" by { assert "ist0001"[0] != "IST"[0]; }
    assert !IsDigit("IST000a"[6]);
  }

  /** Names must start upper-case and then use only letters, digits and underscores. */
  lemma NameExamples()
    ensures IsName("Foo") && IsName("A") && IsName("Bad_Thing2")
    ensures !IsName("") && !IsName("foo") && !IsName("_Foo") && !IsName("1Foo")
    ensures !IsName("Foo-Bar") && !IsName("Foo Bar")
  {
    assert !IsWordChar("Foo-Bar"[3]);
    assert !IsWordChar("Foo Bar"[3]);
  }
}
