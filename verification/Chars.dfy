/** Classes of characters, as the program's text functions see them. */
module Chars {

  /** White space in the sense of `str.isspace` and `str.strip`. */
  predicate IsSpace(c: char) {
    c == ' ' || '\t' <= c <= '\r' || '\U{1c}' <= c <= '\U{1f}' || c == '\U{85}' || c == '\U{a0}' || c == '\U{1680}'
    || '\U{2000}' <= c <= '\U{200a}' || c == '\U{2028}' || c == '\U{2029}' || c == '\U{202f}' || c == '\U{205f}'
    || c == '\U{3000}'
  }

  predicate HasSpace(text: string) { exists i :: 0 <= i < |text| && IsSpace(text[i]) }

  /** A shell value may not carry control characters: such a value is refused before it is quoted. */
  predicate IsControl(c: char) { c < ' ' || c == '\U{7f}' }

  predicate NoControl(text: string) { forall i :: 0 <= i < |text| ==> !IsControl(text[i]) }

  function Slashes(n: nat): string {
    if n == 0 then "" else "\\" + Slashes(n - 1)
  }

  lemma {:induction false} SlashesAre(n: nat)
    ensures |Slashes(n)| == n && forall i :: 0 <= i < n ==> Slashes(n)[i] == '\\'
  {
    if n > 0 { SlashesAre(n - 1); }
  }

  lemma {:induction false} SlashesAdd(m: nat, n: nat)
    ensures Slashes(m) + Slashes(n) == Slashes(m + n)
  {
    if m > 0 {
      SlashesAdd(m - 1, n);
      assert "\\" + Slashes(m - 1) + Slashes(n) == "\\" + (Slashes(m - 1) + Slashes(n));
    }
  }

  /** The words with one blank between them. */
  function Join(words: seq<string>): string {
    if words == [] then "" else if |words| == 1 then words[0] else words[0] + (" " + Join(words[1..]))
  }

  /** Every `c` in `text` replaced. */
  function Replace(text: string, c: char, with: string): string {
    if text == "" then "" else (if text[0] == c then with else [text[0]]) + Replace(text[1..], c, with)
  }

  lemma {:induction false} ReplaceAppend(a: string, b: string, c: char, with: string)
    ensures Replace(a + b, c, with) == Replace(a, c, with) + Replace(b, c, with)
  {
    if a == "" {
      assert a + b == b;
    } else {
      assert (a + b)[1..] == a[1..] + b;
      ReplaceAppend(a[1..], b, c, with);
    }
  }
}
