/** How a child program's C runtime splits a command line ("Parsing C command-line arguments" of the Microsoft C
    language reference), and the escaping that survives it. */
module Crt {
  import opened Chars

  predicate IsBlank(c: char) { c == ' ' || c == '\t' }

  /** How many backslashes `s` begins with. */
  function Leading(s: string): (n: nat)
    ensures n <= |s|
  {
    if s != "" && s[0] == '\\' then 1 + Leading(s[1..]) else 0
  }

  /** The arguments in `s`, read inside quotes or not, with `word` read so far of the argument that is open. Blanks
      separate arguments outside quotes. A quote opens or closes; inside quotes a doubled one is data. Before a quote,
      two backslashes are one, and an odd one makes the quote data; elsewhere a backslash is itself. */
  function Read(s: string, quoted: bool, word: string, open: bool): seq<string>
    decreases |s|
  {
    if s == "" then (if open then [word] else [])
    else if s[0] == '\\' then
      var n := Leading(s);
      var rest := s[n..];
      if rest != "" && rest[0] == '"' then
        if n % 2 == 0 then Read(rest, quoted, word + Slashes(n / 2), true)
        else Read(rest[1..], quoted, word + Slashes(n / 2) + "\"", true)
      else Read(rest, quoted, word + Slashes(n), true)
    else if s[0] == '"' then
      if quoted && |s| > 1 && s[1] == '"' then Read(s[2..], true, word + "\"", true)
      else Read(s[1..], !quoted, word, true)
    else if !quoted && IsBlank(s[0]) then
      (if open then [word] else []) + Read(s[1..], false, "", false)
    else Read(s[1..], quoted, word + [s[0]], true)
  }

  /** The arguments of a whole line. */
  function Arguments(line: string): seq<string> { Read(line, false, "", false) }

  /** `value` written inside quotes: a backslash stays itself unless it stands before a quote or at the end, where it
      is doubled, and a quote is escaped. `pending` backslashes were read and not yet written. At the end they are
      written `closing` times. */
  function Escaped(value: string, pending: nat, closing: nat): string
    decreases |value|
  {
    if value == "" then Slashes(pending * closing)
    else if value[0] == '\\' then Escaped(value[1..], pending + 1, closing)
    else if value[0] == '"' then Slashes(pending * 2 + 1) + ("\"" + Escaped(value[1..], 0, closing))
    else Slashes(pending) + ([value[0]] + Escaped(value[1..], 0, closing))
  }

  lemma {:induction false} LeadingOf(n: nat, rest: string)
    requires rest == "" || rest[0] != '\\'
    ensures Leading(Slashes(n) + rest) == n && (Slashes(n) + rest)[n..] == rest
  {
    SlashesAre(n);
    if n > 0 {
      LeadingOf(n - 1, rest);
      assert (Slashes(n) + rest)[1..] == Slashes(n - 1) + rest;
    } else {
      assert Slashes(0) + rest == rest;
    }
  }

  /** Backslashes before anything but a quote are data. */
  lemma {:induction false} ReadPlainSlashes(n: nat, rest: string, quoted: bool, word: string)
    requires rest == "" || (rest[0] != '\\' && rest[0] != '"')
    ensures Read(Slashes(n) + rest, quoted, word, true) == Read(rest, quoted, word + Slashes(n), true)
  {
    LeadingOf(n, rest);
    SlashesAre(n);
    if n == 0 {
      assert Slashes(0) + rest == rest && word + Slashes(0) == word;
    } else {
      assert (Slashes(n) + rest)[0] == '\\';
    }
  }

  /** An even number of backslashes before a quote is half as many. */
  lemma {:induction false} ReadEvenSlashes(n: nat, rest: string, quoted: bool, word: string)
    ensures Read(Slashes(n * 2) + ("\"" + rest), quoted, word, true) == Read("\"" + rest, quoted, word + Slashes(n), true)
  {
    LeadingOf(n * 2, "\"" + rest);
    SlashesAre(n * 2);
    if n == 0 {
      assert Slashes(0) + ("\"" + rest) == "\"" + rest && word + Slashes(0) == word;
    } else {
      assert (Slashes(n * 2) + ("\"" + rest))[0] == '\\';
      assert n * 2 % 2 == 0 && n * 2 / 2 == n;
    }
  }

  /** An odd one makes the quote data. */
  lemma {:induction false} ReadOddSlashes(n: nat, rest: string, quoted: bool, word: string)
    ensures Read(Slashes(n * 2 + 1) + ("\"" + rest), quoted, word, true)
            == Read(rest, quoted, word + Slashes(n) + "\"", true)
  {
    var m := n * 2 + 1;
    LeadingOf(m, "\"" + rest);
    SlashesAre(m);
    assert (Slashes(m) + ("\"" + rest))[0] == '\\';
    assert m % 2 == 1 && m / 2 == n;
    assert ("\"" + rest)[1..] == rest;
  }

  /** One character that is neither a quote nor a backslash nor a separator is data. */
  lemma {:induction false} ReadData(c: char, rest: string, quoted: bool, word: string, open: bool)
    requires c != '\\' && c != '"' && (quoted || !IsBlank(c))
    ensures Read([c] + rest, quoted, word, open) == Read(rest, quoted, word + [c], true)
  {
    assert ([c] + rest)[1..] == rest;
  }

  /** Inside quotes the escaped text reads as the value, up to the quote that closes it. */
  lemma {:induction false} ReadEscaped(value: string, pending: nat, rest: string, word: string)
    requires rest == "" || rest[0] != '"'
    ensures Read(Escaped(value, pending, 2) + ("\"" + rest), true, word, true)
            == Read(rest, false, word + Slashes(pending) + value, true)
    decreases |value|
  {
    hide Read, Slashes;
    var tail := "\"" + rest;
    if value == "" {
      ReadEvenSlashes(pending, rest, true, word);
      ReadClosing(rest, word + Slashes(pending));
      assert word + Slashes(pending) + "" == word + Slashes(pending);
    } else {
      var more := value[1..];
      assert value == [value[0]] + more;
      if value[0] == '\\' {
        ReadEscaped(more, pending + 1, rest, word);
        SlashesAdd(pending, 1);
        OneSlash();
        assert word + Slashes(pending + 1) + more == word + Slashes(pending) + value;
      } else if value[0] == '"' {
        var after := Escaped(more, 0, 2) + tail;
        assert Escaped(value, pending, 2) + tail == Slashes(pending * 2 + 1) + ("\"" + after);
        ReadOddSlashes(pending, after, true, word);
        ReadEscaped(more, 0, rest, word + Slashes(pending) + "\"");
        NoSlash();
        assert word + Slashes(pending) + "\"" + Slashes(0) + more == word + Slashes(pending) + value;
      } else {
        var after := Escaped(more, 0, 2) + tail;
        assert Escaped(value, pending, 2) + tail == Slashes(pending) + ([value[0]] + after);
        ReadPlainSlashes(pending, [value[0]] + after, true, word);
        ReadData(value[0], after, true, word + Slashes(pending), true);
        ReadEscaped(more, 0, rest, word + Slashes(pending) + [value[0]]);
        NoSlash();
        assert word + Slashes(pending) + [value[0]] + Slashes(0) + more == word + Slashes(pending) + value;
      }
    }
  }

  lemma {:induction false} ReadClosing(rest: string, word: string)
    requires rest == "" || rest[0] != '"'
    ensures Read("\"" + rest, true, word, true) == Read(rest, false, word, true)
  {
    assert ("\"" + rest)[1..] == rest;
  }

  lemma {:induction false} ReadOpening(rest: string, word: string, open: bool)
    ensures Read("\"" + rest, false, word, open) == Read(rest, true, word, true)
  {
    assert ("\"" + rest)[1..] == rest;
  }

  lemma {:induction false} NoSlash()
    ensures Slashes(0) == ""
  {
  }

  lemma {:induction false} OneSlash()
    ensures Slashes(1) == "\\"
  {
  }

  /** Outside quotes a text without quotes and blanks reads as itself. */
  lemma {:induction false} ReadBare(value: string, pending: nat, rest: string, word: string)
    requires forall i :: 0 <= i < |value| ==> value[i] != '"' && !IsBlank(value[i])
    requires rest == "" || IsBlank(rest[0])
    ensures Read(Slashes(pending) + (value + rest), false, word, true)
            == Read(rest, false, word + Slashes(pending) + value, true)
    decreases |value|
  {
    hide Read, Slashes;
    if value == "" {
      assert value + rest == rest;
      ReadPlainSlashes(pending, rest, false, word);
      assert word + Slashes(pending) + "" == word + Slashes(pending);
    } else {
      var more := value[1..];
      assert value == [value[0]] + more;
      if value[0] == '\\' {
        SlashesAdd(pending, 1);
        OneSlash();
        assert Slashes(pending) + (value + rest) == Slashes(pending) + "\\" + (more + rest);
        ReadBare(more, pending + 1, rest, word);
        assert word + Slashes(pending + 1) + more == word + Slashes(pending) + value;
      } else {
        var after := more + rest;
        assert value + rest == [value[0]] + after;
        ReadPlainSlashes(pending, [value[0]] + after, false, word);
        ReadData(value[0], after, false, word + Slashes(pending), true);
        NoSlash();
        assert Slashes(0) + after == after;
        ReadBare(more, 0, rest, word + Slashes(pending) + [value[0]]);
        assert word + Slashes(pending) + [value[0]] + Slashes(0) + more == word + Slashes(pending) + value;
      }
    }
  }

  /** A line that reads as one more argument and then goes on. */
  ghost predicate ReadsAs(text: string, value: string) {
    forall rest :: (rest == "" || IsBlank(rest[0])) ==> Read(text + rest, false, "", false) == Read(rest, false, value, true)
  }

  /** `value` between quotes reads as one argument. */
  lemma {:induction false} QuotedReadsAs(value: string)
    ensures ReadsAs("\"" + (Escaped(value, 0, 2) + "\""), value)
  {
    hide Read, Slashes;
    forall rest | rest == "" || IsBlank(rest[0])
      ensures Read("\"" + (Escaped(value, 0, 2) + "\"") + rest, false, "", false) == Read(rest, false, value, true)
    {
      var body := Escaped(value, 0, 2) + ("\"" + rest);
      assert "\"" + (Escaped(value, 0, 2) + "\"") + rest == "\"" + body;
      ReadOpening(body, "", false);
      ReadEscaped(value, 0, rest, "");
      NoSlash();
      assert "" + Slashes(0) + value == value;
    }
  }

  lemma {:induction false} BareReadsAs(value: string)
    requires value != "" && forall i :: 0 <= i < |value| ==> value[i] != '"' && !IsBlank(value[i])
    ensures ReadsAs(value, value)
  {
    hide Slashes;
    forall rest | rest == "" || IsBlank(rest[0])
      ensures Read(value + rest, false, "", false) == Read(rest, false, value, true)
    {
      NoSlash();
      ReadBare(value, 0, rest, "");
      assert Slashes(0) + (value + rest) == value + rest && "" + Slashes(0) + value == value;
      OpenIsFirst(value + rest);
    }
  }

  /** Whether an argument is already open matters only at the end and at a blank. */
  lemma {:induction false} OpenIsFirst(s: string)
    requires s != "" && !IsBlank(s[0])
    ensures Read(s, false, "", false) == Read(s, false, "", true)
  {
  }

  /** Words that each read as one argument, joined by blanks, read as those arguments. */
  lemma {:induction false} JoinReads(words: seq<string>, values: seq<string>)
    requires |words| == |values| && forall i :: 0 <= i < |words| ==> ReadsAs(words[i], values[i])
    ensures Arguments(Join(words)) == values
  {
    if words == [] {
    } else if |words| == 1 {
      assert words[0] + "" == words[0];
      assert Read("", false, values[0], true) == [values[0]];
      assert values == [values[0]];
    } else {
      var rest := " " + Join(words[1..]);
      JoinReads(words[1..], values[1..]);
      assert Read(rest, false, values[0], true) == [values[0]] + Read(Join(words[1..]), false, "", false) by {
        assert rest[1..] == Join(words[1..]);
      }
      assert values == [values[0]] + values[1..];
    }
  }
}
