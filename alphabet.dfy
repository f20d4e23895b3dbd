/** The fixed printable alphabet that `.` and negated classes sample from
    (reggen.go:11-13). */
module Alphabet {

  /** Digits, lower- and upper-case ASCII letters, ASCII punctuation, space, tab,
      newline and carriage return, in this order (98 characters). The literal is
      written in pieces only so that each piece can be inspected separately. */
  const PrintableChars: string :=
    "0123456789" + "abcdefghijklmnopqrstuvwxyz" + "ABCDEFGHIJKLMNOPQRSTUVWXYZ"
    + "!\"#$%&'()*+,-./" + ":;<=>?@" + "[\\]^_`" + "{|}~" + " \t" + "\n\r"

  /** The alphabet without its last two characters, newline and carriage return. */
  const PrintableCharsNoNL: string := PrintableChars[..|PrintableChars| - 2]

  /** A tab or a visible ASCII character (space included). */
  predicate Tame(c: char) {
    c == '\t' || ' ' <= c <= '~'
  }

  predicate AllTame(s: string) {
    forall i :: 0 <= i < |s| ==> Tame(s[i])
  }

  /** The two alphabets have 98 and 96 characters, the full one ends in "\n\r", and
      the shorter one holds neither a newline nor a carriage return. */
  lemma AlphabetFacts()
    ensures |PrintableChars| == 98 && |PrintableCharsNoNL| == 96
    ensures PrintableChars == PrintableCharsNoNL + "\n\r"
    ensures AllTame(PrintableCharsNoNL)
    ensures forall i :: 0 <= i < |PrintableCharsNoNL| ==>
      PrintableCharsNoNL[i] != '\n' && PrintableCharsNoNL[i] != '\r'
  {
    assert PrintableCharsNoNL ==
      "0123456789" + "abcdefghijklmnopqrstuvwxyz" + "ABCDEFGHIJKLMNOPQRSTUVWXYZ"
      + "!\"#$%&'()*+,-./" + ":;<=>?@" + "[\\]^_`" + "{|}~" + " \t";
    assert AllTame("0123456789");
    assert AllTame("abcdefghijklm");
    assert AllTame("nopqrstuvwxyz");
    assert AllTame("abcdefghijklmnopqrstuvwxyz");
    assert AllTame("ABCDEFGHIJKLM");
    assert AllTame("NOPQRSTUVWXYZ");
    assert AllTame("ABCDEFGHIJKLMNOPQRSTUVWXYZ");
    assert AllTame("!\"#$%&'()*+,-./");
    assert AllTame(":;<=>?@");
    assert AllTame("[\\]^_`");
    assert AllTame("{|}~");
    assert AllTame(" \t");
  }
}
