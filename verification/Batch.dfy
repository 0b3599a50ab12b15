/** The token for an argument of a batch file, whose `%*` and `%1` cmd splices into a line that it parses again. */
module Batch {
  import opened Chars
  import opened Cmd
  import opened Crt

  /** A percent sign, and a variable of which nothing is taken. */
  const PERCENT := "%%cd:~,%"

  /** The written form: a quote doubled, with the backslashes before it, and so are trailing backslashes. */
  function Body(text: string, pending: nat): string
    decreases |text|
  {
    if text == "" then Slashes(pending * 2)
    else if text[0] == '\\' then Body(text[1..], pending + 1)
    else if text[0] == '"' then Slashes(pending * 2) + ("\"\"" + Body(text[1..], 0))
    else Slashes(pending) + ((if text[0] == '%' then PERCENT else [text[0]]) + Body(text[1..], 0))
  }

  function Token(text: string): string { "\"" + (Body(text, 0) + "\"") }

  /** Write the token, in the program's own steps. */
  method BatchToken(text: string) returns (r: string)
    ensures r == Token(text)
  {
    hide Body;
    var pieces := "";
    var backslashes := 0;
    assert text[0..] == text;
    for i := 0 to |text|
      invariant pieces + Body(text[i..], backslashes) == Body(text, 0)
    {
      BodyStep(text[i..], backslashes);
      assert text[i..][1..] == text[i + 1..];
      ghost var more := Body(text[i + 1..], 0);
      if text[i] == '\\' {
        backslashes := backslashes + 1;
        continue;
      }
      if text[i] == '"' {
        AssocFour(pieces, Slashes(backslashes * 2), "\"\"", more);
        pieces := pieces + (Slashes(backslashes * 2) + "\"\"");
      } else if text[i] == '%' {
        AssocFour(pieces, Slashes(backslashes), PERCENT, more);
        pieces := pieces + (Slashes(backslashes) + PERCENT);
      } else {
        AssocFour(pieces, Slashes(backslashes), [text[i]], more);
        pieces := pieces + (Slashes(backslashes) + [text[i]]);
      }
      backslashes := 0;
    }
    BodyStep("", backslashes);
    assert text[|text|..] == "";
    pieces := pieces + Slashes(backslashes * 2);
    return "\"" + (pieces + "\"");
  }

  lemma {:induction false} BodyStep(text: string, pending: nat)
    ensures text == "" ==> Body(text, pending) == Slashes(pending * 2)
    ensures text != "" && text[0] == '\\' ==> Body(text, pending) == Body(text[1..], pending + 1)
    ensures text != "" && text[0] == '"' ==>
              Body(text, pending) == Slashes(pending * 2) + ("\"\"" + Body(text[1..], 0))
    ensures text != "" && text[0] != '\\' && text[0] != '"' ==>
              Body(text, pending) == Slashes(pending) + ((if text[0] == '%' then PERCENT else [text[0]]) + Body(text[1..], 0))
  {
  }

  // --------------------------------------------------------------------------- the parsers it crosses

  /** The variables of a cmd, and what `%name:old=new%` makes of a value, which does not matter here. */
  datatype Variables = Variables(values: map<string, string>, replaced: (string, string) -> string)

  /** How far a variable's name goes: to a percent sign or a colon. */
  function NameLength(s: string): (n: nat)
    ensures n <= |s| && (n < |s| ==> s[n] == '%' || s[n] == ':')
  {
    if s == "" || s[0] == '%' || s[0] == ':' then 0 else 1 + NameLength(s[1..])
  }

  function Digits(s: string, so: nat): nat {
    if s == "" || !('0' <= s[0] <= '9') then so else Digits(s[1..], so * 10 + (s[0] as int - '0' as int))
  }

  /** A number as cmd reads it; nothing is zero. */
  function Number(s: string): int {
    if s != "" && s[0] == '-' then -(Digits(s[1..], 0) as int) else Digits(s, 0)
  }

  /** `%name:~from,count%`: counted from the end if negative, and cut to the value. */
  function Substring(value: string, spec: string): string {
    var comma := IndexOf(spec, ',');
    var from := Number(spec[..comma]);
    var begin := if from < 0 then (if |value| + from < 0 then 0 else |value| + from) else if from > |value| then |value| else from;
    var count := if comma == |spec| then |value| else Number(spec[comma + 1..]);
    var end := if count < 0 then |value| + count else begin + count;
    value[begin..if end < begin then begin else if end > |value| then |value| else end]
  }

  /** cmd's percent phase on a command line. A name between percent signs, perhaps with a modifier behind a colon, is
      replaced if there is such a variable; any other percent sign stays. */
  function Expand(vars: Variables, line: string): string
    decreases |line|
  {
    if line == "" then ""
    else if line[0] != '%' then [line[0]] + Expand(vars, line[1..])
    else
      var n := NameLength(line[1..]);
      var name := line[1..][..n];
      var after := line[1..][n..];
      if name == "" || name !in vars.values || after == "" then "%" + Expand(vars, line[1..])
      else if after[0] == '%' then vars.values[name] + Expand(vars, after[1..])
      else
        var m := IndexOf(after[1..], '%');
        if m == |after| - 1 then "%" + Expand(vars, line[1..])
        else
          var modifier := after[1..][..m];
          (if modifier != "" && modifier[0] == '~' then Substring(vars.values[name], modifier[1..])
           else vars.replaced(vars.values[name], modifier))
          + Expand(vars, after[1..][m + 1..])
  }

  /** What the percent phase leaves of the body. */
  function Doubled(text: string, pending: nat): string
    decreases |text|
  {
    if text == "" then Slashes(pending * 2)
    else if text[0] == '\\' then Doubled(text[1..], pending + 1)
    else if text[0] == '"' then Slashes(pending * 2) + ("\"\"" + Doubled(text[1..], 0))
    else Slashes(pending) + ([text[0]] + Doubled(text[1..], 0))
  }

  lemma {:induction false} ExpandData(vars: Variables, c: char, rest: string)
    requires c != '%'
    ensures Expand(vars, [c] + rest) == [c] + Expand(vars, rest)
  {
    assert ([c] + rest)[1..] == rest;
  }

  /** The written percent sign: the first sign stands before no name, and stays; of the directory that follows nothing is
      taken, whatever it is. */
  lemma {:induction false} ExpandPercent(vars: Variables, rest: string)
    requires "cd" in vars.values
    ensures Expand(vars, PERCENT + rest) == "%" + Expand(vars, rest)
  {
    hide Expand;
    var directory := "%" + ("cd" + (":" + ("~," + ("%" + rest))));
    assert PERCENT + rest == "%" + directory;
    PercentStays(vars, directory);
    NothingTaken(vars, rest);
  }

  lemma {:induction false} PercentStays(vars: Variables, line: string)
    requires line != "" && line[0] == '%'
    ensures Expand(vars, "%" + line) == "%" + Expand(vars, line)
  {
    assert ("%" + line)[1..] == line;
    assert line[..0] == "";
  }

  lemma {:induction false} NothingTaken(vars: Variables, rest: string)
    requires "cd" in vars.values
    ensures Expand(vars, "%" + ("cd" + (":" + ("~," + ("%" + rest))))) == Expand(vars, rest)
  {
    hide NameLength, IndexOf, Substring;
    var after := ":" + ("~," + ("%" + rest));
    var line := "%" + ("cd" + after);
    assert line[1..] == "cd" + after;
    NameEnds("cd", after);
    assert line[1..][..2] == "cd" && line[1..][2..] == after;
    assert after[1..] == "~," + ("%" + rest);
    IndexIn("~,", "%" + rest, '%');
    assert after[1..][..2] == "~," && after[1..][3..] == rest;
    assert "~,"[1..] == ",";
    EmptyPart(vars.values["cd"]);
    assert "" + Expand(vars, rest) == Expand(vars, rest);
  }

  lemma {:induction false} NameEnds(name: string, after: string)
    requires '%' !in name && ':' !in name && after != "" && (after[0] == '%' || after[0] == ':')
    ensures NameLength(name + after) == |name|
  {
    if name == "" {
      assert name + after == after;
    } else {
      assert (name + after)[1..] == name[1..] + after;
      NameEnds(name[1..], after);
    }
  }

  lemma {:induction false} EmptyPart(value: string)
    ensures Substring(value, ",") == ""
  {
    assert ","[..0] == "" && ","[1..] == "";
    assert Number("") == 0;
  }

  lemma {:induction false} ExpandPlain(vars: Variables, text: string, rest: string)
    requires '%' !in text
    ensures Expand(vars, text + rest) == text + Expand(vars, rest)
  {
    hide Expand;
    if text == "" {
      assert "" + rest == rest && "" + Expand(vars, rest) == Expand(vars, rest);
    } else {
      assert text + rest == [text[0]] + (text[1..] + rest);
      ExpandData(vars, text[0], text[1..] + rest);
      ExpandPlain(vars, text[1..], rest);
      assert [text[0]] + (text[1..] + Expand(vars, rest)) == text + Expand(vars, rest);
    }
  }

  lemma {:induction false} ExpandBody(vars: Variables, text: string, pending: nat, rest: string)
    requires "cd" in vars.values
    ensures Expand(vars, Body(text, pending) + rest) == Doubled(text, pending) + Expand(vars, rest)
    decreases |text|
  {
    hide Expand, Slashes;
    SlashesAre(pending);
    SlashesAre(pending * 2);
    BodyStep(text, pending);
    if text == "" {
      ExpandPlain(vars, Slashes(pending * 2), rest);
    } else if text[0] == '\\' {
      ExpandBody(vars, text[1..], pending + 1, rest);
    } else {
      ExpandBody(vars, text[1..], 0, rest);
      ExpandHead(vars, text[0], pending, Body(text[1..], 0), Doubled(text[1..], 0), rest);
    }
  }

  /** One character that is no backslash, with the backslashes before it. */
  lemma {:induction false} ExpandHead(vars: Variables, c: char, pending: nat, more: string, left: string, rest: string)
    requires "cd" in vars.values && c != '\\'
    requires Expand(vars, more + rest) == left + Expand(vars, rest)
    ensures c == '"' ==> Expand(vars, Slashes(pending * 2) + ("\"\"" + more) + rest)
                         == Slashes(pending * 2) + ("\"\"" + left) + Expand(vars, rest)
    ensures c != '"' ==> Expand(vars, Slashes(pending) + ((if c == '%' then PERCENT else [c]) + more) + rest)
                         == Slashes(pending) + ([c] + left) + Expand(vars, rest)
  {
    hide Expand, Slashes;
    SlashesAre(pending);
    SlashesAre(pending * 2);
    var after := more + rest;
    var tail := Expand(vars, rest);
    if c == '"' {
      var run := Slashes(pending * 2);
      assert run + ("\"\"" + more) + rest == run + ("\"\"" + after);
      ExpandPlain(vars, run, "\"\"" + after);
      ExpandPlain(vars, "\"\"", after);
      assert run + ("\"\"" + (left + tail)) == run + ("\"\"" + left) + tail;
    } else {
      var run := Slashes(pending);
      var written := if c == '%' then PERCENT else [c];
      assert run + (written + more) + rest == run + (written + after);
      ExpandPlain(vars, run, written + after);
      if c == '%' { ExpandPercent(vars, after); } else { ExpandData(vars, c, after); }
      assert run + ([c] + (left + tail)) == run + ([c] + left) + tail;
    }
  }

  // ------------------------------------------------------------------- cmd sees every operator quoted

  lemma {:induction false} ParseQuotedData(text: string, rest: string)
    requires forall i :: 0 <= i < |text| ==> text[i] != '"' && text[i] != '\n' && text[i] != '\r'
    ensures Parse(text + rest, true) == Then(text, Parse(rest, true))
  {
    if text == "" {
      assert "" + rest == rest && "" + Parse(rest, true).text == Parse(rest, true).text;
    } else {
      var line := text + rest;
      assert line[0] == text[0] && line[1..] == text[1..] + rest;
      ParseQuotedData(text[1..], rest);
      ThenThen([text[0]], text[1..], Parse(rest, true));
      assert [text[0]] + text[1..] == text;
    }
  }

  lemma {:induction false} ParseQuote(rest: string, quoted: bool)
    ensures Parse("\"" + rest, quoted) == Then("\"", Parse(rest, !quoted))
  {
    assert ("\"" + rest)[1..] == rest;
  }

  lemma {:induction false} ParseDoubled(text: string, pending: nat, rest: string)
    requires NoControl(text)
    ensures Parse(Doubled(text, pending) + rest, true) == Then(Doubled(text, pending), Parse(rest, true))
    decreases |text|
  {
    hide Parse, Slashes, IsControl;
    SlashesAre(pending);
    SlashesAre(pending * 2);
    if text == "" {
      ParseQuotedData(Slashes(pending * 2), rest);
    } else {
      assert NoControl(text[1..]);
      NotLineEnd(text[0]);
      if text[0] == '\\' {
        ParseDoubled(text[1..], pending + 1, rest);
      } else {
        var left := Doubled(text[1..], 0);
        var tail := Parse(rest, true);
        ParseDoubled(text[1..], 0, rest);
        if text[0] == '"' {
          var n := Slashes(pending * 2);
          assert Doubled(text, pending) + rest == n + ("\"" + ("\"" + (left + rest)));
          ParseQuotedData(n, "\"" + ("\"" + (left + rest)));
          ParseQuote("\"" + (left + rest), true);
          ParseQuote(left + rest, false);
          ThenThen("\"", left, tail);
          ThenThen("\"", "\"" + left, tail);
          ThenThen(n, "\"" + ("\"" + left), tail);
          assert "\"" + ("\"" + left) == "\"\"" + left;
        } else {
          assert Doubled(text, pending) + rest == Slashes(pending) + ([text[0]] + (left + rest));
          ParseQuotedData(Slashes(pending), [text[0]] + (left + rest));
          ParseQuotedData([text[0]], left + rest);
          ThenThen([text[0]], left, tail);
          ThenThen(Slashes(pending), [text[0]] + left, tail);
        }
      }
    }
  }

  // ------------------------------------------------------------------- the C runtime reads it back

  lemma {:induction false} ReadDoubledQuote(rest: string, word: string)
    ensures Read("\"" + ("\"" + rest), true, word, true) == Read(rest, true, word + "\"", true)
  {
    var s := "\"" + ("\"" + rest);
    assert s[1] == '"' && s[2..] == rest;
  }

  lemma {:induction false} ReadDoubled(text: string, pending: nat, rest: string, word: string)
    requires rest == "" || rest[0] != '"'
    ensures Read(Doubled(text, pending) + ("\"" + rest), true, word, true)
            == Read(rest, false, word + Slashes(pending) + text, true)
    decreases |text|
  {
    hide Read, Slashes;
    var tail := "\"" + rest;
    if text == "" {
      ReadEvenSlashes(pending, rest, true, word);
      ReadClosing(rest, word + Slashes(pending));
      assert word + Slashes(pending) + "" == word + Slashes(pending);
    } else {
      var more := text[1..];
      assert text == [text[0]] + more;
      if text[0] == '\\' {
        ReadDoubled(more, pending + 1, rest, word);
        SlashesAdd(pending, 1);
        OneSlash();
        assert word + Slashes(pending + 1) + more == word + Slashes(pending) + text;
      } else {
        var after := Doubled(more, 0) + tail;
        NoSlash();
        if text[0] == '"' {
          assert Doubled(text, pending) + tail == Slashes(pending * 2) + ("\"" + ("\"" + after));
          ReadEvenSlashes(pending, "\"" + after, true, word);
          ReadDoubledQuote(after, word + Slashes(pending));
          ReadDoubled(more, 0, rest, word + Slashes(pending) + "\"");
          assert word + Slashes(pending) + "\"" + Slashes(0) + more == word + Slashes(pending) + text;
        } else {
          assert Doubled(text, pending) + tail == Slashes(pending) + ([text[0]] + after);
          ReadPlainSlashes(pending, [text[0]] + after, true, word);
          ReadData(text[0], after, true, word + Slashes(pending), true);
          ReadDoubled(more, 0, rest, word + Slashes(pending) + [text[0]]);
          assert word + Slashes(pending) + [text[0]] + Slashes(0) + more == word + Slashes(pending) + text;
        }
      }
    }
  }

  /** The token's whole journey. The percent phase takes nothing from any variable; cmd reads what it leaves as data both
      times, the second time as the batch file's own line, because every operator stands inside quotes; and the C
      runtime of the program that the batch file starts reads it as the one value. */
  lemma {:induction false} TokenSurvives(vars: Variables, text: string)
    requires NoControl(text) && "cd" in vars.values
    ensures var expanded := Expand(vars, Token(text));
            Parse(expanded, false) == Scan(expanded, true) && Crt.Arguments(expanded) == [text]
  {
    hide Expand, Parse, Read, Slashes;
    var inner := Doubled(text, 0);
    TokenExpands(vars, text);
    ParseQuote(inner + "\"", false);
    ParseDoubled(text, 0, "\"");
    ParseQuote("", true);
    ParseNothing();
    assert "\"" + "" == "\"";
    ReadOpening(inner + "\"", "", false);
    ReadDoubled(text, 0, "", "");
    NoSlash();
    ReadNothing(text);
    assert "" + Slashes(0) + text == text;
  }

  lemma {:induction false} TokenExpands(vars: Variables, text: string)
    requires "cd" in vars.values
    ensures Expand(vars, Token(text)) == "\"" + (Doubled(text, 0) + "\"")
  {
    hide Expand;
    ExpandData(vars, '"', Body(text, 0) + "\"");
    ExpandBody(vars, text, 0, "\"");
    ExpandPlain(vars, "\"", "");
    assert "\"" + "" == "\"";
    ExpandNothing(vars);
  }

  lemma {:induction false} ExpandNothing(vars: Variables)
    ensures Expand(vars, "") == ""
  {
  }

  lemma {:induction false} ReadNothing(word: string)
    ensures Read("", false, word, true) == [word]
  {
  }
}
