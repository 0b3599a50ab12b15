/** Command lines that a login shell reads before the command's own shell does. One spelling must mean the same words to
    sh (sections 2.2.1 and 2.2.2 of the Shell Command Language in POSIX.1-2017) and to fish. */
module LoginShell {
  import opened Chars
  import opened Options

  datatype Dialect = Sh | Fish

  datatype Mode = Bare | Single | Double

  predicate IsAlnum(c: char) { 'a' <= c <= 'z' || 'A' <= c <= 'Z' || '0' <= c <= '9' }

  /** Characters that mean themselves outside quotes; fish expands a percent sign. */
  predicate IsBareData(d: Dialect, c: char) { IsAlnum(c) || c in "@+=:,./_-" || (d == Sh && c == '%') }

  /** A character that a backslash outside quotes makes data. fish gives letters and digits after one a meaning. */
  predicate IsEscapable(d: Dialect, c: char) { c != '\n' && (d == Sh || !IsAlnum(c)) }

  function Cons(word: string, more: Option<seq<string>>): Option<seq<string>> {
    if more.None? then None else Some([word] + more.value)
  }

  /** The words the shell reads, or `None` where it meets anything that it would act on, or that does not end. `word` is
      what was read so far of the word that is open. */
  function Lex(d: Dialect, s: string, mode: Mode, word: string, open: bool): Option<seq<string>>
    decreases |s|
  {
    if s == "" then (if mode != Bare then None else if open then Some([word]) else Some([]))
    else
      var c, rest := s[0], s[1..];
      match mode
      case Bare =>
        if c == ' ' then
          if open then Cons(word, Lex(d, rest, Bare, "", false)) else Lex(d, rest, Bare, "", false)
        else if c == '\'' then Lex(d, rest, Single, word, true)
        else if c == '"' then Lex(d, rest, Double, word, true)
        else if c == '\\' then
          if rest != "" && IsEscapable(d, rest[0]) then Lex(d, rest[1..], Bare, word + [rest[0]], true) else None
        else if IsBareData(d, c) then Lex(d, rest, Bare, word + [c], true)
        else None
      case Single =>
        if c == '\'' then Lex(d, rest, Bare, word, true)
        else if d == Fish && c == '\\' && rest != "" && (rest[0] == '\\' || rest[0] == '\'') then
          Lex(d, rest[1..], Single, word + [rest[0]], true)
        else Lex(d, rest, Single, word + [c], true)
      case Double =>
        if c == '"' then Lex(d, rest, Bare, word, true)
        else if c == '$' || c == '`' then None
        else if c == '\\' && rest != "" && rest[0] in "$`\"\\" then Lex(d, rest[1..], Double, word + [rest[0]], true)
        else Lex(d, rest, Double, word + [c], true)
  }

  function Words(d: Dialect, line: string): Option<seq<string>> { Lex(d, line, Bare, "", false) }

  // ------------------------------------------------------------------------------ the common spelling

  const LOGIN_SAFE := "@+=:,./_-"

  predicate IsLoginSafe(c: char) { IsAlnum(c) || c in LOGIN_SAFE }

  predicate AllLoginSafe(value: string) { forall i :: 0 <= i < |value| ==> IsLoginSafe(value[i]) }

  /** Runs of ordinary characters in single quotes; a backslash and a single quote outside, behind a backslash. `run` is
      the run being collected. */
  function Parts(value: string, run: string): string
    decreases |value|
  {
    if value == "" then (if run == "" then "" else "'" + (run + "'"))
    else if value[0] == '\\' || value[0] == '\'' then
      (if run == "" then "" else "'" + (run + "'")) + ("\\" + ([value[0]] + Parts(value[1..], "")))
    else Parts(value[1..], run + [value[0]])
  }

  function LoginWord(value: string): string {
    if value == "" then "''"
    else if value[0] != '=' && AllLoginSafe(value) then value
    else Parts(value, "")
  }

  function LoginWords(argv: seq<string>): seq<string> {
    seq(|argv|, i requires 0 <= i < |argv| => LoginWord(argv[i]))
  }

  function LoginLine(argv: seq<string>): string { Join(LoginWords(argv)) }

  /** Join the arguments into one line, in the program's own loops. */
  method LoginJoin(argv: seq<string>) returns (line: string)
    ensures line == LoginLine(argv)
  {
    var words: seq<string> := [];
    for n := 0 to |argv|
      invariant words == LoginWords(argv[..n])
    {
      hide AllLoginSafe, Parts;
      var value := argv[n];
      var word;
      if value == "" {
        word := "''";
      } else if value[0] != '=' && AllLoginSafe(value) {
        word := value;
      } else {
        var parts, run := "", "";
        assert value[0..] == value;
        assert parts + Parts(value, "") == Parts(value, "");
        for i := 0 to |value|
          invariant parts + Parts(value[i..], run) == Parts(value, "")
        {
          PartsStep(value[i..], run);
          assert value[i..][1..] == value[i + 1..];
          var c := value[i];
          if c == '\\' || c == '\'' {
            ghost var closed := if run == "" then "" else "'" + (run + "'");
            RegroupParts(parts, closed, c, Parts(value[i + 1..], ""));
            if run != "" {
              parts := parts + ("'" + (run + "'"));
              run := "";
            } else {
              assert parts + "" == parts;
            }
            parts := parts + ("\\" + [c]);
          } else {
            run := run + [c];
          }
        }
        assert value[|value|..] == "";
        PartsStep("", run);
        if run != "" { parts := parts + ("'" + (run + "'")); } else { assert parts + "" == parts; }
        word := parts;
      }
      assert word == LoginWord(value);
      words := words + [word];
      assert words == LoginWords(argv[..n + 1]);
    }
    assert argv[..|argv|] == argv;
    return Join(words);
  }

  lemma {:induction false} RegroupParts(parts: string, closed: string, c: char, more: string)
    ensures parts + (closed + ("\\" + ([c] + more))) == parts + closed + ("\\" + [c]) + more
  {
  }

  lemma {:induction false} PartsStep(value: string, run: string)
    ensures value == "" ==> Parts(value, run) == if run == "" then "" else "'" + (run + "'")
    ensures value != "" && (value[0] == '\\' || value[0] == '\'') ==>
              Parts(value, run) == (if run == "" then "" else "'" + (run + "'"))
                                   + ("\\" + ([value[0]] + Parts(value[1..], "")))
    ensures value != "" && value[0] != '\\' && value[0] != '\'' ==> Parts(value, run) == Parts(value[1..], run + [value[0]])
  {
  }

  // ------------------------------------------------------------------------------------ reading back

  /** `text` is read as the one word `value`, wherever a word may stand. */
  ghost predicate ReadsAs(d: Dialect, text: string, value: string) {
    forall rest :: (rest == "" || rest[0] == ' ') ==> Lex(d, text + rest, Bare, "", false) == Lex(d, rest, Bare, value, true)
  }

  predicate NoQuoteNoSlash(run: string) { forall i :: 0 <= i < |run| ==> run[i] != '\'' && run[i] != '\\' }

  lemma {:induction false} LexRun(d: Dialect, run: string, rest: string, word: string)
    requires NoQuoteNoSlash(run)
    ensures Lex(d, run + ("'" + rest), Single, word, true) == Lex(d, rest, Bare, word + run, true)
    decreases |run|
  {
    if run == "" {
      assert run + ("'" + rest) == "'" + rest && ("'" + rest)[1..] == rest && word + run == word;
    } else {
      var s := run + ("'" + rest);
      assert s[1..] == run[1..] + ("'" + rest) && s[0] == run[0];
      assert NoQuoteNoSlash(run[1..]);
      LexRun(d, run[1..], rest, word + [run[0]]);
      assert word + [run[0]] + run[1..] == word + run;
    }
  }

  lemma {:induction false} LexQuotedRun(d: Dialect, run: string, rest: string, word: string, open: bool)
    requires NoQuoteNoSlash(run)
    ensures Lex(d, "'" + (run + "'") + rest, Bare, word, open) == Lex(d, rest, Bare, word + run, true)
  {
    var s := "'" + (run + "'") + rest;
    assert s[1..] == run + ("'" + rest);
    LexRun(d, run, rest, word);
  }

  lemma {:induction false} LexEscape(d: Dialect, c: char, rest: string, word: string, open: bool)
    requires c == '\\' || c == '\''
    ensures Lex(d, "\\" + ([c] + rest), Bare, word, open) == Lex(d, rest, Bare, word + [c], true)
  {
    var s := "\\" + ([c] + rest);
    assert s[1..] == [c] + rest && s[1..][1..] == rest;
  }

  /** Both shells read the parts as the value. */
  lemma {:induction false} LexParts(d: Dialect, value: string, run: string, rest: string, word: string, open: bool)
    requires NoQuoteNoSlash(run) && (run != "" || value != "" || open)
    ensures Lex(d, Parts(value, run) + rest, Bare, word, open) == Lex(d, rest, Bare, word + run + value, true)
    decreases |value|
  {
    hide Lex, Parts, NoQuoteNoSlash;
    PartsStep(value, run);
    if value == "" {
      assert word + run + value == word + run;
      if run == "" {
        assert "" + rest == rest && word + "" == word;
      } else {
        LexQuotedRun(d, run, rest, word, open);
      }
    } else {
      var c, more := value[0], value[1..];
      assert value == [c] + more;
      if c == '\\' || c == '\'' {
        var after := "\\" + ([c] + (Parts(more, "") + rest));
        EmptyRun();
        if run == "" {
          assert Parts(value, run) + rest == after;
          assert word + run == word;
          LexEscape(d, c, Parts(more, "") + rest, word, open);
        } else {
          assert Parts(value, run) + rest == "'" + (run + "'") + after;
          LexQuotedRun(d, run, after, word, open);
          LexEscape(d, c, Parts(more, "") + rest, word + run, true);
        }
        LexParts(d, more, "", rest, word + run + [c], true);
        assert word + run + [c] + "" + more == word + run + value;
      } else {
        LongerRun(run, c);
        LexParts(d, more, run + [c], rest, word, open);
        assert word + (run + [c]) + more == word + run + value;
      }
    }
  }

  lemma {:induction false} EmptyRun()
    ensures NoQuoteNoSlash("")
  {
  }

  lemma {:induction false} LongerRun(run: string, c: char)
    requires NoQuoteNoSlash(run) && c != '\'' && c != '\\'
    ensures NoQuoteNoSlash(run + [c])
  {
  }

  lemma {:induction false} LexBare(d: Dialect, value: string, rest: string, word: string, open: bool)
    requires value != "" && forall i :: 0 <= i < |value| ==> IsBareData(d, value[i])
    ensures Lex(d, value + rest, Bare, word, open) == Lex(d, rest, Bare, word + value, true)
    decreases |value|
  {
    hide IsBareData;
    var s := value + rest;
    BareIsOrdinary(d, value[0]);
    assert s[0] == value[0] && s[1..] == value[1..] + rest;
    if |value| == 1 {
      assert s[1..] == rest && value == [value[0]];
    } else {
      LexBare(d, value[1..], rest, word + [value[0]], true);
      assert word + [value[0]] + value[1..] == word + value;
    }
  }

  lemma {:induction false} BareIsOrdinary(d: Dialect, c: char)
    requires IsBareData(d, c)
    ensures c != ' ' && c != '\'' && c != '"' && c != '\\'
  {
  }

  lemma {:induction false} SafeIsBare(d: Dialect, c: char)
    requires IsLoginSafe(c)
    ensures IsBareData(d, c)
  {
  }

  lemma {:induction false} LoginWordReadsAs(d: Dialect, value: string)
    ensures ReadsAs(d, LoginWord(value), value)
  {
    hide Lex, Parts, IsLoginSafe, IsBareData;
    forall rest | rest == "" || rest[0] == ' '
      ensures Lex(d, LoginWord(value) + rest, Bare, "", false) == Lex(d, rest, Bare, value, true)
    {
      EmptyRun();
      if value == "" {
        assert "'" + ("" + "'") + rest == "''" + rest;
        LexQuotedRun(d, "", rest, "", false);
        assert "" + "" == "";
      } else if value[0] != '=' && AllLoginSafe(value) {
        forall i | 0 <= i < |value| ensures IsBareData(d, value[i]) { SafeIsBare(d, value[i]); }
        LexBare(d, value, rest, "", false);
        assert "" + value == value;
      } else {
        LexParts(d, value, "", rest, "", false);
        assert "" + "" + value == value;
      }
    }
  }

  /** Words that are each read as one value, joined by blanks, are read as those values. */
  lemma {:induction false} SpacedReads(d: Dialect, words: seq<string>, values: seq<string>)
    requires |words| == |values| && forall i :: 0 <= i < |words| ==> ReadsAs(d, words[i], values[i])
    ensures Words(d, Join(words)) == Some(values)
  {
    hide ReadsAs;
    if words == [] {
    } else if |words| == 1 {
      UseReadsAs(d, words[0], values[0], "");
      assert words[0] + "" == words[0];
      assert values == [values[0]];
    } else {
      var rest := " " + Join(words[1..]);
      SpacedReads(d, words[1..], values[1..]);
      UseReadsAs(d, words[0], values[0], rest);
      assert rest[1..] == Join(words[1..]);
      assert values == [values[0]] + values[1..];
    }
  }

  lemma {:induction false} UseReadsAs(d: Dialect, text: string, value: string, rest: string)
    requires ReadsAs(d, text, value) && (rest == "" || rest[0] == ' ')
    ensures Lex(d, text + rest, Bare, "", false) == Lex(d, rest, Bare, value, true)
  {
  }

  /** The joined line is read back as the same arguments, whichever of the two shells reads it. */
  lemma {:induction false} LoginJoinReadsBack(d: Dialect, argv: seq<string>)
    ensures Words(d, LoginLine(argv)) == Some(argv)
  {
    hide ReadsAs, LoginWord, Words;
    forall i | 0 <= i < |argv| ensures ReadsAs(d, LoginWords(argv)[i], argv[i]) { LoginWordReadsAs(d, argv[i]); }
    SpacedReads(d, LoginWords(argv), argv);
  }

  // ----------------------------------------------------------------------- the inner shell's own quoting

  /** `shlex.quote`. */
  function ShQuote(value: string): string {
    if value == "" then "''"
    else if forall i :: 0 <= i < |value| ==> IsBareData(Sh, value[i]) then value
    else "'" + (Replace(value, '\'', "'\"'\"'") + "'")
  }

  /** fish honours a backslash inside single quotes, so both it and the quote are escaped there. */
  function FishQuote(value: string): string {
    if value == "" then "''"
    else if forall i :: 0 <= i < |value| ==> IsLoginSafe(value[i]) then value
    else "'" + (Replace(Replace(value, '\\', "\\\\"), '\'', "\\'") + "'")
  }

  function Quote(d: Dialect, value: string): string { if d == Sh then ShQuote(value) else FishQuote(value) }

  lemma {:induction false} LexShQuoted(value: string, rest: string, word: string)
    ensures Lex(Sh, Replace(value, '\'', "'\"'\"'") + ("'" + rest), Single, word, true) == Lex(Sh, rest, Bare, word + value, true)
    decreases |value|
  {
    if value == "" {
      assert "" + ("'" + rest) == "'" + rest && ("'" + rest)[1..] == rest && word + value == word;
    } else {
      var more := Replace(value[1..], '\'', "'\"'\"'") + ("'" + rest);
      var s := Replace(value, '\'', "'\"'\"'") + ("'" + rest);
      assert word + [value[0]] + value[1..] == word + value;
      if value[0] == '\'' {
        assert s == "'\"'\"'" + more;
        LexSwitch(more, word);
      } else {
        assert s == [value[0]] + more;
        assert s[1..] == more;
      }
      LexShQuoted(value[1..], rest, word + [value[0]]);
    }
  }

  /** Out of the single quotes, one quote between double ones, and in again. */
  lemma {:induction false} LexSwitch(more: string, word: string)
    ensures Lex(Sh, "'\"'\"'" + more, Single, word, true) == Lex(Sh, more, Single, word + "'", true)
  {
    var s := "'\"'\"'" + more;
    assert s[1..] == "\"'\"'" + more;
    assert s[1..][1..] == "'\"'" + more;
    assert s[1..][1..][1..] == "\"'" + more;
    assert s[1..][1..][1..][1..] == "'" + more;
    assert s[1..][1..][1..][1..][1..] == more;
    assert Lex(Sh, "\"'" + more, Double, word + "'", true) == Lex(Sh, "'" + more, Bare, word + "'", true);
    assert Lex(Sh, "'\"'" + more, Double, word, true) == Lex(Sh, "\"'" + more, Double, word + "'", true);
  }

  lemma {:induction false} LexFishQuoted(value: string, rest: string, word: string)
    ensures Lex(Fish, Replace(Replace(value, '\\', "\\\\"), '\'', "\\'") + ("'" + rest), Single, word, true)
            == Lex(Fish, rest, Bare, word + value, true)
    decreases |value|
  {
    hide Lex;
    var escaped := Replace(Replace(value, '\\', "\\\\"), '\'', "\\'");
    if value == "" {
      assert escaped + ("'" + rest) == "'" + rest && word + value == word;
      CloseSingle(rest, word);
    } else {
      var tail := Replace(Replace(value[1..], '\\', "\\\\"), '\'', "\\'");
      var more := tail + ("'" + rest);
      LexFishQuoted(value[1..], rest, word + [value[0]]);
      FishHead(value);
      assert word + [value[0]] + value[1..] == word + value;
      if value[0] == '\\' || value[0] == '\'' {
        assert escaped + ("'" + rest) == "\\" + ([value[0]] + more);
        LexFishEscape(value[0], more, word);
      } else {
        assert escaped + ("'" + rest) == [value[0]] + more;
        SingleData(value[0], more, word);
      }
    }
  }

  lemma {:induction false} CloseSingle(rest: string, word: string)
    ensures Lex(Fish, "'" + rest, Single, word, true) == Lex(Fish, rest, Bare, word, true)
  {
    assert ("'" + rest)[1..] == rest;
  }

  lemma {:induction false} SingleData(c: char, more: string, word: string)
    requires c != '\\' && c != '\''
    ensures Lex(Fish, [c] + more, Single, word, true) == Lex(Fish, more, Single, word + [c], true)
  {
    assert ([c] + more)[1..] == more;
  }

  lemma {:induction false} LexFishEscape(c: char, more: string, word: string)
    requires c == '\\' || c == '\''
    ensures Lex(Fish, "\\" + ([c] + more), Single, word, true) == Lex(Fish, more, Single, word + [c], true)
  {
    var s := "\\" + ([c] + more);
    assert s[1..] == [c] + more && s[1..][1..] == more;
  }

  lemma {:induction false} FishHead(value: string)
    requires value != ""
    ensures Replace(Replace(value, '\\', "\\\\"), '\'', "\\'")
            == (if value[0] == '\\' || value[0] == '\'' then "\\" + [value[0]] else [value[0]])
               + Replace(Replace(value[1..], '\\', "\\\\"), '\'', "\\'")
  {
    var more := Replace(value[1..], '\\', "\\\\");
    if value[0] == '\\' {
      assert Replace(value, '\\', "\\\\") == "\\\\" + more;
      assert ("\\\\" + more)[1..] == "\\" + more && ("\\" + more)[1..] == more;
      assert Replace("\\" + more, '\'', "\\'") == "\\" + Replace(more, '\'', "\\'");
      assert "\\" + ("\\" + Replace(more, '\'', "\\'")) == "\\" + [value[0]] + Replace(more, '\'', "\\'");
    } else {
      assert Replace(value, '\\', "\\\\") == [value[0]] + more;
      assert ([value[0]] + more)[1..] == more;
    }
  }

  lemma {:induction false} QuoteReadsAs(d: Dialect, value: string)
    ensures ReadsAs(d, Quote(d, value), value)
  {
    hide Lex, Quote;
    forall rest | rest == "" || rest[0] == ' '
      ensures Lex(d, Quote(d, value) + rest, Bare, "", false) == Lex(d, rest, Bare, value, true)
    {
      if value == "" {
        EmptyQuote(d, rest);
      } else if WritesBare(d, value) {
        BareQuote(d, value, rest);
      } else if d == Sh {
        ShQuoted(value, rest);
      } else {
        FishQuoted(value, rest);
      }
    }
  }

  /** The value needs no quotes. */
  predicate WritesBare(d: Dialect, value: string) {
    if d == Sh then forall i :: 0 <= i < |value| ==> IsBareData(Sh, value[i])
    else forall i :: 0 <= i < |value| ==> IsLoginSafe(value[i])
  }

  lemma {:induction false} EmptyQuote(d: Dialect, rest: string)
    ensures Lex(d, Quote(d, "") + rest, Bare, "", false) == Lex(d, rest, Bare, "", true)
  {
    hide Lex, Replace, IsBareData, IsLoginSafe;
    EmptyRun();
    assert "'" + ("" + "'") + rest == "''" + rest;
    LexQuotedRun(d, "", rest, "", false);
    assert "" + "" == "";
  }

  lemma {:induction false} BareQuote(d: Dialect, value: string, rest: string)
    requires value != "" && WritesBare(d, value) && (rest == "" || rest[0] == ' ')
    ensures Lex(d, Quote(d, value) + rest, Bare, "", false) == Lex(d, rest, Bare, value, true)
  {
    hide Lex, Replace, IsBareData, IsLoginSafe;
    forall i | 0 <= i < |value| ensures IsBareData(d, value[i]) { if d == Fish { SafeIsBare(d, value[i]); } }
    LexBare(d, value, rest, "", false);
    assert "" + value == value;
  }

  lemma {:induction false} ShQuoted(value: string, rest: string)
    requires value != "" && !WritesBare(Sh, value) && (rest == "" || rest[0] == ' ')
    ensures Lex(Sh, Quote(Sh, value) + rest, Bare, "", false) == Lex(Sh, rest, Bare, value, true)
  {
    hide Lex, Replace, IsBareData, IsLoginSafe;
    var inner := Replace(value, '\'', "'\"'\"'");
    assert Quote(Sh, value) + rest == "'" + (inner + ("'" + rest));
    OpenSingle(Sh, inner + ("'" + rest));
    LexShQuoted(value, rest, "");
    assert "" + value == value;
  }

  lemma {:induction false} FishQuoted(value: string, rest: string)
    requires value != "" && !WritesBare(Fish, value) && (rest == "" || rest[0] == ' ')
    ensures Lex(Fish, Quote(Fish, value) + rest, Bare, "", false) == Lex(Fish, rest, Bare, value, true)
  {
    hide Lex, Replace, IsBareData, IsLoginSafe;
    var inner := Replace(Replace(value, '\\', "\\\\"), '\'', "\\'");
    assert Quote(Fish, value) + rest == "'" + (inner + ("'" + rest));
    OpenSingle(Fish, inner + ("'" + rest));
    LexFishQuoted(value, rest, "");
    assert "" + value == value;
  }

  lemma {:induction false} OpenSingle(d: Dialect, rest: string)
    ensures Lex(d, "'" + rest, Bare, "", false) == Lex(d, rest, Single, "", true)
  {
    assert ("'" + rest)[1..] == rest;
  }

  function Quotes(d: Dialect, argv: seq<string>): seq<string> {
    seq(|argv|, i requires 0 <= i < |argv| => Quote(d, argv[i]))
  }

  /** A structured command as one line of the inner shell's source. */
  function StructuredCommand(d: Dialect, argv: seq<string>): string { Join(Quotes(d, argv)) }

  /** The command line for a login shell: the inner shell, `-c`, and the script. */
  function CommandLine(executable: string, script: string): string { LoginLine([executable, "-c", script]) }

  /** A structured command reaches the inner shell word for word, whichever login shell reads the outer line: the login
      shell starts the inner one with exactly this script, and the inner one reads the script as exactly these words. */
  lemma {:induction false} CommandReachesInnerShell(login: Dialect, inner: Dialect, executable: string, argv: seq<string>)
    ensures var script := StructuredCommand(inner, argv);
            Words(login, CommandLine(executable, script)) == Some([executable, "-c", script])
            && Words(inner, script) == Some(argv)
  {
    hide ReadsAs, Quote, Words, LoginLine;
    LoginJoinReadsBack(login, [executable, "-c", StructuredCommand(inner, argv)]);
    forall i | 0 <= i < |argv| ensures ReadsAs(inner, Quotes(inner, argv)[i], argv[i]) { QuoteReadsAs(inner, argv[i]); }
    SpacedReads(inner, Quotes(inner, argv), argv);
  }
}
