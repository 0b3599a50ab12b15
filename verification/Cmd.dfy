/** Quoting for `cmd.exe` and for the child program whose C runtime reads the line after it. */
module Cmd {
  import opened Chars
  import opened Crt
  import opened Options

  // --------------------------------------------------------------------- how cmd reads a command line

  predicate IsOperator(c: char) { c == '&' || c == '|' || c == '<' || c == '>' || c == '(' || c == ')' }

  /** The text cmd hands on, and whether it saw nothing it would act on. */
  datatype Scan = Scan(text: string, clean: bool)

  function Then(text: string, more: Scan): Scan { Scan(text + more.text, more.clean) }

  /** Outside quotes a caret makes the next character data and disappears, and an operator acts; a quote opens or
      closes, and stays; inside quotes everything else is data. A line end ends the command. */
  function Parse(line: string, quoted: bool): Scan
    decreases |line|
  {
    if line == "" then Scan("", true)
    else if line[0] == '\n' || line[0] == '\r' then Scan("", false)
    else if line[0] == '"' then Then("\"", Parse(line[1..], !quoted))
    else if quoted then Then([line[0]], Parse(line[1..], true))
    else if line[0] == '^' then
      if |line| == 1 || line[1] == '\n' || line[1] == '\r' then Scan("", false)
      else Then([line[1]], Parse(line[2..], false))
    else if IsOperator(line[0]) then Scan("", false)
    else Then([line[0]], Parse(line[1..], false))
  }

  // ------------------------------------------------------------------------------- what is written

  /** A caret before every character of `specials`. */
  function Carets(text: string, specials: string): string {
    if text == "" then ""
    else (if text[0] in specials then "^" + [text[0]] else [text[0]]) + Carets(text[1..], specials)
  }

  const ARGUMENT_SPECIALS := "^%!&|<>()"
  const ECHO_SPECIALS := "^&|<>()\"%!"

  /** One `replace` after the other, carets first. */
  function ReplaceEach(text: string, specials: string): string
    decreases |specials|
  {
    if specials == "" then text
    else ReplaceEach(Replace(text, specials[0], "^" + [specials[0]]), specials[1..])
  }

  predicate IsPlain(value: string) {
    value != "" && forall i :: 0 <= i < |value| ==> !IsSpace(value[i]) && value[i] !in "&|<>()@^\"%!"
  }

  /** What the quoting loop makes of a text whose operators already carry carets. */
  function Body(text: string, pending: nat): string
    decreases |text|
  {
    if text == "" then Slashes(pending * 2)
    else if text[0] == '\\' then Body(text[1..], pending + 1)
    else if text[0] == '"' then Slashes(pending * 2 + 1) + ("^\"" + Body(text[1..], 0))
    else Slashes(pending) + ([text[0]] + Body(text[1..], 0))
  }

  function Argument(value: string): string {
    if IsPlain(value) then value
    else "^\"" + (Body(Carets(value, ARGUMENT_SPECIALS), 0) + "^\"")
  }

  /** Quote one argument, in the program's own steps. */
  method QuoteArgument(value: string) returns (r: string)
    ensures r == Argument(value)
  {
    hide Argument, Body, Carets, ReplaceEach, IsPlain;
    ArgumentIs(value);
    if IsPlain(value) { return value; }
    var text := ReplaceEach(value, ARGUMENT_SPECIALS);
    CaretsFirst(value, ARGUMENT_SPECIALS);
    var escaped := "";
    var backslashes := 0;
    assert text[0..] == text;
    for i := 0 to |text|
      invariant escaped + Body(text[i..], backslashes) == Body(text, 0)
    {
      BodyStep(text[i..], backslashes);
      assert text[i..][1..] == text[i + 1..];
      var c := text[i];
      ghost var more := Body(text[i + 1..], 0);
      if c == '\\' {
        backslashes := backslashes + 1;
      } else if c == '"' {
        AssocFour(escaped, Slashes(backslashes * 2 + 1), "^\"", more);
        escaped := escaped + (Slashes(backslashes * 2 + 1) + "^\"");
        backslashes := 0;
      } else {
        AssocFour(escaped, Slashes(backslashes), [c], more);
        escaped := escaped + (Slashes(backslashes) + [c]);
        backslashes := 0;
      }
    }
    BodyStep("", backslashes);
    assert text[|text|..] == "";
    escaped := escaped + Slashes(backslashes * 2);
    return "^\"" + (escaped + "^\"");
  }

  lemma {:induction false} ArgumentIs(value: string)
    ensures Argument(value) == if IsPlain(value) then value
                               else "^\"" + (Body(Carets(value, ARGUMENT_SPECIALS), 0) + "^\"")
  {
  }

  lemma {:induction false} AssocFour(a: string, b: string, c: string, d: string)
    ensures a + (b + (c + d)) == a + (b + c) + d
  {
  }

  lemma {:induction false} BodyStep(text: string, pending: nat)
    ensures text == "" ==> Body(text, pending) == Slashes(pending * 2)
    ensures text != "" && text[0] == '\\' ==> Body(text, pending) == Body(text[1..], pending + 1)
    ensures text != "" && text[0] == '"' ==>
              Body(text, pending) == Slashes(pending * 2 + 1) + ("^\"" + Body(text[1..], 0))
    ensures text != "" && text[0] != '\\' && text[0] != '"' ==>
              Body(text, pending) == Slashes(pending) + ([text[0]] + Body(text[1..], 0))
  {
  }

  // -------------------------------------------------- the chained replacements are one pass of carets

  lemma {:induction false} ReplaceEachAppend(a: string, b: string, specials: string)
    ensures ReplaceEach(a + b, specials) == ReplaceEach(a, specials) + ReplaceEach(b, specials)
    decreases |specials|
  {
    if specials != "" {
      var with := "^" + [specials[0]];
      ReplaceAppend(a, b, specials[0], with);
      ReplaceEachAppend(Replace(a, specials[0], with), Replace(b, specials[0], with), specials[1..]);
    }
  }

  predicate NoRepeats(s: string) { forall i, j :: 0 <= i < j < |s| ==> s[i] != s[j] }

  /** A character no replacement is for stays as it is. */
  lemma {:induction false} Untouched(c: char, specials: string)
    requires c !in specials
    ensures ReplaceEach([c], specials) == [c]
  {
    if specials != "" {
      assert Replace([c], specials[0], "^" + [specials[0]]) == [c] by { assert [c][1..] == ""; }
      Untouched(c, specials[1..]);
    }
  }

  /** Each special character gets one caret, and that caret is never escaped again. */
  lemma {:induction false} OneCaret(c: char, specials: string)
    requires c in specials && NoRepeats(specials) && '^' !in specials[1..]
    ensures ReplaceEach([c], specials) == "^" + [c]
  {
    var with := "^" + [specials[0]];
    assert [c][1..] == "";
    if c == specials[0] {
      assert Replace([c], c, with) == with;
      Untouched(c, specials[1..]);
      Untouched('^', specials[1..]);
      ReplaceEachAppend("^", [c], specials[1..]);
    } else {
      assert Replace([c], specials[0], with) == [c];
      assert c in specials[1..];
      OneCaret(c, specials[1..]);
    }
  }

  lemma {:induction false} CaretsFirst(text: string, specials: string)
    requires NoRepeats(specials) && (specials == "" || '^' !in specials[1..])
    ensures ReplaceEach(text, specials) == Carets(text, specials)
  {
    hide NoRepeats;
    if text == "" {
      ReplaceNothing(specials);
    } else {
      assert text == [text[0]] + text[1..];
      ReplaceEachAppend([text[0]], text[1..], specials);
      CaretsFirst(text[1..], specials);
      if text[0] in specials { OneCaret(text[0], specials); } else { Untouched(text[0], specials); }
    }
  }

  lemma {:induction false} ReplaceNothing(specials: string)
    ensures ReplaceEach("", specials) == ""
  {
    if specials != "" { ReplaceNothing(specials[1..]); }
  }

  // ----------------------------------------------------------------- one parse by cmd undoes the carets

  lemma {:induction false} ParseSlashes(n: nat, rest: string)
    ensures Parse(Slashes(n) + rest, false) == Then(Slashes(n), Parse(rest, false))
  {
    hide Parse;
    if n == 0 {
      assert "" + rest == rest;
      assert Slashes(0) + Parse(rest, false).text == Parse(rest, false).text;
    } else {
      var more := Slashes(n - 1) + rest;
      assert Slashes(n) + rest == ['\\'] + more;
      ParseData('\\', more);
      ParseSlashes(n - 1, rest);
      ThenThen(['\\'], Slashes(n - 1), Parse(rest, false));
    }
  }

  lemma {:induction false} ParseCaret(c: char, rest: string)
    requires c != '\n' && c != '\r'
    ensures Parse("^" + ([c] + rest), false) == Then([c], Parse(rest, false))
  {
    var s := "^" + ([c] + rest);
    assert s[0] == '^' && s[1] == c && s[2..] == rest;
  }

  lemma {:induction false} ParseData(c: char, rest: string)
    requires c != '\n' && c != '\r' && c != '"' && c != '^' && !IsOperator(c)
    ensures Parse([c] + rest, false) == Then([c], Parse(rest, false))
  {
    var s := [c] + rest;
    assert s[0] == c && s[1..] == rest;
  }

  lemma {:induction false} ThenThen(a: string, b: string, more: Scan)
    ensures Then(a, Then(b, more)) == Then(a + b, more)
  {
    assert a + (b + more.text) == a + b + more.text;
  }

  /** cmd takes the carets away and acts on nothing: what is left is the text escaped for the C runtime. */
  lemma {:induction false} ParseBody(value: string, pending: nat, rest: string)
    requires NoControl(value)
    ensures Parse(Body(Carets(value, ARGUMENT_SPECIALS), pending) + rest, false)
            == Then(Escaped(value, pending, 2), Parse(rest, false))
    decreases |value|
  {
    hide Parse, Slashes, Then, IsControl, IsOperator;
    var text := Carets(value, ARGUMENT_SPECIALS);
    if value == "" {
      ParseSlashes(pending * 2, rest);
    } else {
      var c := value[0];
      var more := Carets(value[1..], ARGUMENT_SPECIALS);
      var after := Body(more, 0) + rest;
      assert NoControl(value[1..]);
      NotLineEnd(c);
      if c == '\\' {
        assert text == [c] + more;
        assert text[1..] == more;
        ParseBody(value[1..], pending + 1, rest);
      } else {
        ParseBody(value[1..], 0, rest);
        var tail := Parse(rest, false);
        if c == '"' {
          assert text == [c] + more;
          assert text[1..] == more;
          var n := pending * 2 + 1;
          assert Body(text, pending) + rest == Slashes(n) + ("^" + (['"'] + after));
          ParseSlashes(n, "^" + (['"'] + after));
          ParseCaret('"', after);
          ThenThen(['"'], Escaped(value[1..], 0, 2), tail);
          ThenThen(Slashes(n), ['"'] + Escaped(value[1..], 0, 2), tail);
        } else if c in ARGUMENT_SPECIALS {
          assert text == "^" + [c] + more;
          CaretedBody(c, more, pending);
          assert Body(text, pending) + rest == Slashes(pending) + ("^" + ([c] + after));
          ParseSlashes(pending, "^" + ([c] + after));
          ParseCaret(c, after);
          ThenThen([c], Escaped(value[1..], 0, 2), tail);
          ThenThen(Slashes(pending), [c] + Escaped(value[1..], 0, 2), tail);
        } else {
          assert text == [c] + more;
          assert text[1..] == more;
          assert Body(text, pending) + rest == Slashes(pending) + ([c] + after);
          ParseSlashes(pending, [c] + after);
          OperatorsAreSpecial(c);
          ParseData(c, after);
          ThenThen([c], Escaped(value[1..], 0, 2), tail);
          ThenThen(Slashes(pending), [c] + Escaped(value[1..], 0, 2), tail);
        }
      }
    }
  }

  lemma {:induction false} NotLineEnd(c: char)
    requires !IsControl(c)
    ensures c != '\n' && c != '\r'
  {
  }

  lemma {:induction false} OperatorsAreSpecial(c: char)
    requires c !in ARGUMENT_SPECIALS
    ensures c != '^' && !IsOperator(c)
  {
    var s := ARGUMENT_SPECIALS;
    assert s[0] == '^' && s[3] == '&' && s[4] == '|' && s[5] == '<' && s[6] == '>' && s[7] == '(' && s[8] == ')';
  }

  lemma {:induction false} CaretedBody(c: char, more: string, pending: nat)
    requires c != '\\' && c != '"'
    ensures Body("^" + [c] + more, pending) == Slashes(pending) + ("^" + ([c] + Body(more, 0)))
  {
    var text := "^" + [c] + more;
    assert text[0] == '^' && text[1..] == [c] + more;
    assert ([c] + more)[0] == c && ([c] + more)[1..] == more;
    assert Slashes(0) + ([c] + Body(more, 0)) == [c] + Body(more, 0);
  }

  /** cmd hands `text` on when it reads `word`, wherever it stands outside quotes. */
  ghost predicate ParsesAs(word: string, text: string) {
    forall rest :: Parse(word + rest, false) == Then(text, Parse(rest, false))
  }

  /** What an argument's C-runtime text is. */
  function CrtText(value: string): string {
    if IsPlain(value) then value else "\"" + (Escaped(value, 0, 2) + "\"")
  }

  lemma {:induction false} QuotedParses(value: string, rest: string)
    requires NoControl(value)
    ensures Parse("^\"" + (Body(Carets(value, ARGUMENT_SPECIALS), 0) + "^\"") + rest, false)
            == Then("\"" + (Escaped(value, 0, 2) + "\""), Parse(rest, false))
  {
    hide Parse, Body, Carets, Escaped, Then, NoControl;
    var body := Body(Carets(value, ARGUMENT_SPECIALS), 0);
    var end := "^" + (['"'] + rest);
    assert "^\"" + (body + "^\"") + rest == "^" + (['"'] + (body + end));
    ParseCaret('"', body + end);
    ParseBody(value, 0, end);
    ParseCaret('"', rest);
    ThenThen(Escaped(value, 0, 2), ['"'], Parse(rest, false));
    ThenThen(['"'], Escaped(value, 0, 2) + ['"'], Parse(rest, false));
  }

  lemma {:induction false} ArgumentParsesAs(value: string)
    requires NoControl(value)
    ensures ParsesAs(Argument(value), CrtText(value))
  {
    hide Parse, Argument, Body, Carets, Escaped, IsPlain, Then, NoControl;
    ArgumentIs(value);
    forall rest ensures Parse(Argument(value) + rest, false) == Then(CrtText(value), Parse(rest, false)) {
      if IsPlain(value) {
        PlainMeans(value);
        PlainParses(value, rest);
      } else {
        QuotedParses(value, rest);
      }
    }
  }

  lemma {:induction false} PlainMeans(value: string)
    requires IsPlain(value)
    ensures forall i :: 0 <= i < |value| ==> value[i] !in "&|<>()@^\"%!"
  {
  }

  lemma {:induction false} PlainParses(value: string, rest: string)
    requires NoControl(value) && forall i :: 0 <= i < |value| ==> value[i] !in "&|<>()@^\"%!"
    ensures Parse(value + rest, false) == Then(value, Parse(rest, false))
  {
    hide Parse, IsControl, IsOperator;
    if value == "" {
      assert "" + rest == rest;
      assert "" + Parse(rest, false).text == Parse(rest, false).text;
    } else {
      var c := value[0];
      var more := value[1..];
      assert value + rest == [c] + (more + rest);
      NotLineEnd(c);
      PlainIsData(c);
      assert NoControl(more);
      assert forall i :: 0 <= i < |more| ==> more[i] == value[i + 1];
      PlainParses(more, rest);
      ParseData(c, more + rest);
      ThenThen([c], more, Parse(rest, false));
      assert [c] + more == value;
    }
  }

  lemma {:induction false} PlainIsData(c: char)
    requires c !in "&|<>()@^\"%!"
    ensures c != '"' && c != '^' && !IsOperator(c)
  {
    var s := "&|<>()@^\"%!";
    assert s[0] == '&' && s[1] == '|' && s[2] == '<' && s[3] == '>' && s[4] == '(' && s[5] == ')' && s[7] == '^' && s[8] == '"';
  }

  lemma {:induction false} CrtTextReadsAs(value: string)
    ensures ReadsAs(CrtText(value), value)
  {
    hide ReadsAs, Escaped;
    if IsPlain(value) {
      forall i | 0 <= i < |value| ensures value[i] != '"' && !IsBlank(value[i]) { PlainIsData(value[i]); }
      BareReadsAs(value);
    } else {
      QuotedReadsAs(value);
    }
  }

  lemma {:induction false} JoinParses(words: seq<string>, texts: seq<string>)
    requires |words| == |texts| && forall i :: 0 <= i < |words| ==> ParsesAs(words[i], texts[i])
    ensures Parse(Join(words), false) == Scan(Join(texts), true)
  {
    if words == [] {
    } else if |words| == 1 {
      assert words[0] + "" == words[0] && texts[0] + "" == texts[0];
    } else {
      var rest := Join(words[1..]);
      JoinParses(words[1..], texts[1..]);
      hide Parse, ParsesAs;
      ParseData(' ', rest);
      UseParsesAs(words[0], texts[0], " " + rest);
      ThenThen(texts[0], " ", Scan(Join(texts[1..]), true));
      assert texts[0] + " " + Join(texts[1..]) == texts[0] + (" " + Join(texts[1..]));
    }
  }

  lemma {:induction false} UseParsesAs(word: string, text: string, rest: string)
    requires ParsesAs(word, text)
    ensures Parse(word + rest, false) == Then(text, Parse(rest, false))
  {
  }

  function ArgumentsOf(values: seq<string>): seq<string> {
    seq(|values|, i requires 0 <= i < |values| => Argument(values[i]))
  }

  function CrtTexts(values: seq<string>): seq<string> {
    seq(|values|, i requires 0 <= i < |values| => CrtText(values[i]))
  }

  /** A whole argument vector, quoted and joined by blanks: cmd meets no operator it would act on, and the C runtime
      reads what cmd hands on as exactly that vector. */
  lemma {:induction false} ArgvSurvives(values: seq<string>)
    requires forall i :: 0 <= i < |values| ==> NoControl(values[i])
    ensures var scan := Parse(Join(ArgumentsOf(values)), false);
            scan.clean && Crt.Arguments(scan.text) == values
  {
    hide Parse, Argument, CrtText, ParsesAs, ReadsAs, Crt.Arguments, NoControl;
    forall i | 0 <= i < |values| ensures ParsesAs(Argument(values[i]), CrtText(values[i])) { ArgumentParsesAs(values[i]); }
    forall i | 0 <= i < |values| ensures ReadsAs(CrtText(values[i]), values[i]) { CrtTextReadsAs(values[i]); }
    JoinParses(ArgumentsOf(values), CrtTexts(values));
    JoinReads(CrtTexts(values), values);
  }

  // ------------------------------------------------------------------------------ one parse more

  /** The escaping for `echo`, and for a whole line that one more cmd will read. */
  function EchoArgument(value: string): string { Carets(value, ECHO_SPECIALS) }

  /** The program writes it as chained replacements. */
  lemma {:induction false} EchoArgumentIs(value: string)
    ensures ReplaceEach(value, ECHO_SPECIALS) == EchoArgument(value)
  {
    CaretsFirst(value, ECHO_SPECIALS);
  }

  /** One parse gives the line back, acting on nothing. */
  lemma {:induction false} OneParseMore(line: string)
    requires NoControl(line)
    ensures Parse(EchoArgument(line), false) == Scan(line, true)
  {
    hide Parse, IsControl;
    if line == "" {
      ParseNothing();
    } else {
      var c := line[0];
      var more := EchoArgument(line[1..]);
      assert NoControl(line[1..]);
      NotLineEnd(c);
      OneParseMore(line[1..]);
      if c in ECHO_SPECIALS {
        assert EchoArgument(line) == "^" + ([c] + more);
        ParseCaret(c, more);
      } else {
        EchoIsData(c);
        ParseData(c, more);
      }
      assert [c] + line[1..] == line;
    }
  }

  lemma {:induction false} ParseNothing()
    ensures Parse("", false) == Scan("", true)
  {
  }

  lemma {:induction false} EchoIsData(c: char)
    requires c !in ECHO_SPECIALS
    ensures c != '"' && c != '^' && !IsOperator(c)
  {
    var s := ECHO_SPECIALS;
    assert s[0] == '^' && s[1] == '&' && s[2] == '|' && s[3] == '<' && s[4] == '>' && s[5] == '(' && s[6] == ')' && s[7] == '"';
  }

  // ------------------------------------------------------------------- the line that starts another cmd

  /** The program of a line, as `CreateProcess` reads it; a quote in its path is refused. */
  function Program(path: string): Option<string> {
    if '"' in path then None else if HasSpace(path) then Some("\"" + (path + "\"")) else Some(path)
  }

  /** The command line that starts a cmd for one script. */
  function StartLine(program: string, script: string): string {
    program + (" /d /v:off /s /c " + ("\"" + (script + "\"")))
  }

  /** The first `c` in `s`, or its length. */
  function IndexOf(s: string, c: char): (n: nat)
    ensures n <= |s| && (n < |s| ==> s[n] == c)
  {
    if s == "" || s[0] == c then 0 else 1 + IndexOf(s[1..], c)
  }

  function LastIndexOf(s: string, c: char): (n: int)
    ensures -1 <= n < |s| && (n >= 0 ==> s[n] == c)
    ensures forall i :: n < i < |s| ==> s[i] != c
  {
    if s == "" then -1 else if s[|s| - 1] == c then |s| - 1 else LastIndexOf(s[..|s| - 1], c)
  }

  /** A program and what follows it. */
  datatype Started = Started(program: string, options: string)

  /** The program is what stands between quotes, or what stands before the first blank. */
  function StartedOf(line: string): Option<Started> {
    if line != "" && line[0] == '"' then
      var n := IndexOf(line[1..], '"');
      if n == |line| - 1 then None else Some(Started(line[1..][..n], line[1..][n + 1..]))
    else Some(Started(line[..IndexOf(line, ' ')], line[IndexOf(line, ' ')..]))
  }

  /** What a cmd runs, from its own command line: options up to `/c`, and the rest. With `/s`, the first quote of the rest
      and the last one are dropped. */
  function ScriptOf(options: string, strip: bool): Option<string>
    decreases |options|
  {
    if |options| < 2 || options[0] != ' ' then None
    else if options[1] == ' ' then ScriptOf(options[1..], strip)
    else if options[1] != '/' then None
    else
      var n := IndexOf(options[1..], ' ');
      var option := options[1..][..n];
      var rest := options[1..][n..];
      if option == "/c" then Some(if rest == "" then "" else Stripped(rest[1..], strip))
      else ScriptOf(rest, strip || option == "/s")
  }

  function Stripped(command: string, strip: bool): string {
    if !strip || command == "" || command[0] != '"' then command
    else
      var last := LastIndexOf(command, '"');
      if last == 0 then command[1..] else command[1..last] + command[last + 1..]
  }

  lemma {:induction false} IndexIn(a: string, b: string, c: char)
    requires c !in a && b != "" && b[0] == c
    ensures IndexOf(a + b, c) == |a|
  {
    if a == "" {
      assert a + b == b;
    } else {
      assert (a + b)[1..] == a[1..] + b;
      IndexIn(a[1..], b, c);
    }
  }

  /** One option is passed over. */
  lemma {:induction false} OptionPassed(option: string, rest: string, strip: bool)
    requires option != "" && option[0] == '/' && ' ' !in option && option != "/c"
    ensures ScriptOf(" " + (option + (" " + rest)), strip) == ScriptOf(" " + rest, strip || option == "/s")
  {
    var line := " " + (option + (" " + rest));
    assert line[1..] == option + (" " + rest);
    IndexIn(option, " " + rest, ' ');
    assert line[1..][..|option|] == option && line[1..][|option|..] == " " + rest;
  }

  lemma {:induction false} CommandFound(command: string, strip: bool)
    ensures ScriptOf(" " + ("/c" + (" " + command)), strip) == Some(Stripped(command, strip))
  {
    var line := " " + ("/c" + (" " + command));
    assert line[1..] == "/c" + (" " + command);
    IndexIn("/c", " " + command, ' ');
    assert line[1..][..2] == "/c" && line[1..][2..] == " " + command && (" " + command)[1..] == command;
  }

  lemma {:induction false} QuotesStripped(script: string)
    ensures Stripped("\"" + (script + "\""), true) == script
  {
    var command := "\"" + (script + "\"");
    assert command[|command| - 1] == '"';
    assert LastIndexOf(command, '"') == |command| - 1;
    assert command[1..|command| - 1] == script && command[|command|..] == "";
    assert script + "" == script;
  }

  /** The started cmd is the one meant, and it takes exactly the script. */
  lemma {:induction false} LineStarts(path: string, script: string)
    requires path != "" && Program(path).Some?
    ensures var started := StartedOf(StartLine(Program(path).value, script));
            started.Some? && started.value.program == path && ScriptOf(started.value.options, false) == Some(script)
  {
    hide ScriptOf, HasSpace, StartedOf, Program;
    ProgramRead(path, " /d /v:off /s /c " + ("\"" + (script + "\"")));
    OptionsRead(script);
  }

  lemma {:induction false} OptionsRead(script: string)
    ensures ScriptOf(" /d /v:off /s /c " + ("\"" + (script + "\"")), false) == Some(script)
  {
    hide ScriptOf, Stripped;
    var command := "\"" + (script + "\"");
    var c := "/c" + (" " + command);
    var afterS := "/s" + (" " + c);
    var afterV := "/v:off" + (" " + afterS);
    OptionsSpelled(command);
    OptionPassed("/d", afterV, false);
    OptionPassed("/v:off", afterS, false);
    OptionPassed("/s", c, false);
    CommandFound(command, true);
    QuotesStripped(script);
  }

  lemma {:induction false} OptionsSpelled(command: string)
    ensures " /d /v:off /s /c " + command
            == " " + ("/d" + (" " + ("/v:off" + (" " + ("/s" + (" " + ("/c" + (" " + command))))))))
  {
  }

  lemma {:induction false} ProgramRead(path: string, options: string)
    requires path != "" && Program(path).Some? && options != "" && options[0] == ' '
    ensures StartedOf(Program(path).value + options) == Some(Started(path, options))
  {
    hide IndexOf;
    var line := Program(path).value + options;
    if HasSpace(path) {
      assert line[1..] == path + ("\"" + options);
      IndexIn(path, "\"" + options, '"');
      assert line[1..][..|path|] == path && line[1..][|path| + 1..] == options;
    } else {
      NoSpaceNoBlank(path);
      IndexIn(path, options, ' ');
      assert line[..|path|] == path && line[|path|..] == options;
    }
  }

  lemma {:induction false} NoSpaceNoBlank(path: string)
    requires !HasSpace(path)
    ensures ' ' !in path
  {
    forall i | 0 <= i < |path| ensures path[i] != ' ' { assert !IsSpace(path[i]); }
  }

  lemma {:induction false} SlashesNoControl(n: nat)
    ensures NoControl(Slashes(n))
  {
    SlashesAre(n);
  }

  lemma {:induction false} NoControlJoin(a: string, b: string)
    requires NoControl(a) && NoControl(b)
    ensures NoControl(a + b)
  {
  }

  lemma {:induction false} CaretsNoControl(text: string, specials: string)
    requires NoControl(text)
    ensures NoControl(Carets(text, specials))
  {
    hide IsControl;
    if text != "" {
      assert NoControl(text[1..]) && NoControl([text[0]]);
      CaretsNoControl(text[1..], specials);
      CaretIsPlain();
      NoControlJoin("^", [text[0]]);
      NoControlJoin(if text[0] in specials then "^" + [text[0]] else [text[0]], Carets(text[1..], specials));
    }
  }

  lemma {:induction false} CaretIsPlain()
    ensures NoControl("^") && NoControl("^\"") && NoControl(" ") && NoControl("")
  {
  }

  lemma {:induction false} BodyNoControl(text: string, pending: nat)
    requires NoControl(text)
    ensures NoControl(Body(text, pending))
    decreases |text|
  {
    hide Body;
    BodyStep(text, pending);
    SlashesNoControl(pending);
    SlashesNoControl(pending * 2);
    SlashesNoControl(pending * 2 + 1);
    CaretIsPlain();
    if text != "" {
      assert NoControl(text[1..]) && NoControl([text[0]]);
      if text[0] == '\\' {
        BodyNoControl(text[1..], pending + 1);
      } else {
        BodyNoControl(text[1..], 0);
      }
    }
  }

  lemma {:induction false} JoinedNoControl(values: seq<string>)
    requires forall i :: 0 <= i < |values| ==> NoControl(values[i])
    ensures NoControl(Join(ArgumentsOf(values)))
  {
    hide NoControl, Body, Carets, IsPlain;
    forall i | 0 <= i < |values| ensures NoControl(Argument(values[i])) {
      CaretsNoControl(values[i], ARGUMENT_SPECIALS);
      BodyNoControl(Carets(values[i], ARGUMENT_SPECIALS), 0);
      CaretIsPlain();
      var body := Body(Carets(values[i], ARGUMENT_SPECIALS), 0);
      NoControlJoin(body, "^\"");
      NoControlJoin("^\"", body + "^\"");
    }
    JoinNoControl(ArgumentsOf(values));
  }

  lemma {:induction false} JoinNoControl(words: seq<string>)
    requires forall i :: 0 <= i < |words| ==> NoControl(words[i])
    ensures NoControl(Join(words))
  {
    hide NoControl;
    CaretIsPlain();
    if |words| > 1 {
      JoinNoControl(words[1..]);
      NoControlJoin(" ", Join(words[1..]));
      NoControlJoin(words[0], " " + Join(words[1..]));
    }
  }

  /** Through a login cmd, then the started cmd, then the C runtime: the program is started, and the argument vector
      arrives unchanged. */
  lemma {:induction false} ArgvThroughLoginCmd(path: string, values: seq<string>)
    requires path != "" && NoControl(path) && Program(path).Some?
    requires forall i :: 0 <= i < |values| ==> NoControl(values[i])
    ensures var script := Join(ArgumentsOf(values));
            var line := StartLine(Program(path).value, script);
            Parse(EchoArgument(line), false) == Scan(line, true) && StartedOf(line).Some?
            && StartedOf(line).value.program == path && ScriptOf(StartedOf(line).value.options, false) == Some(script)
            && Parse(script, false).clean && Crt.Arguments(Parse(script, false).text) == values
  {
    hide Parse, EchoArgument, Crt.Arguments, ArgumentsOf, StartedOf, ScriptOf, HasSpace;
    var script := Join(ArgumentsOf(values));
    var line := StartLine(Program(path).value, script);
    ArgvSurvives(values);
    JoinedNoControl(values);
    LineStarts(path, script);
    assert NoControl(line);
    OneParseMore(line);
  }
}
