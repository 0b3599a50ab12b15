/** Arguments for a native program under Windows PowerShell: three parsers read them in turn - PowerShell's literals, its
    binder that rebuilds the command line, and the C runtime of the child. */
module PowerShell {
  import opened Chars
  import opened Crt
  import opened Options
  import Batch
  import Cmd

  // ------------------------------------------------------------------------- PowerShell's own literal

  /** PowerShell takes the four curly single quotes for the straight one. */
  const QUOTES := "'‘’‚‛"

  predicate IsQuote(c: char) { c in QUOTES }

  datatype Lexed = Lexed(value: string, rest: string)

  /** Read a literal after its opening quote: two quotes in a row are the second one, a single one closes. */
  function LexLiteral(s: string): Option<Lexed>
    decreases |s|
  {
    if s == "" then None
    else if IsQuote(s[0]) then
      if |s| > 1 && IsQuote(s[1]) then
        var more := LexLiteral(s[2..]);
        if more.None? then None else Some(Lexed([s[1]] + more.value.value, more.value.rest))
      else Some(Lexed("", s[1..]))
    else
      var more := LexLiteral(s[1..]);
      if more.None? then None else Some(Lexed([s[0]] + more.value.value, more.value.rest))
  }

  /** The literal words of a line, one blank between them. */
  function LexWords(s: string): Option<seq<string>>
    decreases |s|
  {
    if s == "" || !IsQuote(s[0]) then None
    else
      var first := LexLiteral(s[1..]);
      if first.None? then None
      else if first.value.rest == "" then Some([first.value.value])
      else if first.value.rest[0] != ' ' || |first.value.rest| >= |s| then None
      else
        var more := LexWords(first.value.rest[1..]);
        if more.None? then None else Some([first.value.value] + more.value)
  }

  /** Every quote doubled. */
  function Doubled(text: string): string {
    if text == "" then ""
    else (if IsQuote(text[0]) then [text[0], text[0]] else [text[0]]) + Doubled(text[1..])
  }

  function Literal(text: string): string { "'" + (Doubled(text) + "'") }

  /** One kind of quote after the other, as the program replaces them. */
  function DoubleEach(text: string, quotes: string): string
    decreases |quotes|
  {
    if quotes == "" then text
    else DoubleEach(Replace(text, quotes[0], [quotes[0], quotes[0]]), quotes[1..])
  }

  lemma {:induction false} DoubleEachAppend(a: string, b: string, quotes: string)
    ensures DoubleEach(a + b, quotes) == DoubleEach(a, quotes) + DoubleEach(b, quotes)
    decreases |quotes|
  {
    if quotes != "" {
      var two := [quotes[0], quotes[0]];
      ReplaceAppend(a, b, quotes[0], two);
      DoubleEachAppend(Replace(a, quotes[0], two), Replace(b, quotes[0], two), quotes[1..]);
    }
  }

  lemma {:induction false} DoubleEachOne(c: char, quotes: string)
    requires Cmd.NoRepeats(quotes)
    ensures DoubleEach([c], quotes) == if c in quotes then [c, c] else [c]
    decreases |quotes|
  {
    if quotes != "" {
      var two := [quotes[0], quotes[0]];
      assert [c][1..] == "";
      if c == quotes[0] {
        assert Replace([c], c, two) == two == [c] + [c];
        DoubleEachOne(c, quotes[1..]);
        DoubleEachAppend([c], [c], quotes[1..]);
        assert c !in quotes[1..];
      } else {
        assert Replace([c], quotes[0], two) == [c];
        DoubleEachOne(c, quotes[1..]);
        assert c in quotes <==> c in quotes[1..];
      }
    }
  }

  /** The chained replacements double every quote once. */
  lemma {:induction false} DoublesOnce(text: string)
    ensures DoubleEach(text, QUOTES) == Doubled(text)
  {
    hide DoubleEach;
    if text == "" {
      DoubleNothing(QUOTES);
    } else {
      assert text == [text[0]] + text[1..];
      DoubleEachAppend([text[0]], text[1..], QUOTES);
      DoubleEachOne(text[0], QUOTES);
      DoublesOnce(text[1..]);
    }
  }

  lemma {:induction false} DoubleNothing(quotes: string)
    ensures DoubleEach("", quotes) == ""
    decreases |quotes|
  {
    if quotes != "" { DoubleNothing(quotes[1..]); }
  }

  /** PowerShell reads the literal of any text as that text. */
  lemma {:induction false} LiteralLexes(text: string, rest: string)
    requires rest == "" || !IsQuote(rest[0])
    ensures LexLiteral(Doubled(text) + ("'" + rest)) == Some(Lexed(text, rest))
  {
    hide IsQuote, LexLiteral, Doubled;
    DoubledStep(text, "'" + rest);
    if text == "" {
      LexEnd(rest);
    } else {
      LiteralLexes(text[1..], rest);
      LexOne(text[0], Doubled(text[1..]) + ("'" + rest));
      assert [text[0]] + text[1..] == text;
    }
  }

  lemma {:induction false} DoubledStep(text: string, tail: string)
    ensures text == "" ==> Doubled(text) + tail == tail
    ensures text != "" ==> Doubled(text) + tail
                           == (if IsQuote(text[0]) then [text[0], text[0]] else [text[0]]) + (Doubled(text[1..]) + tail)
  {
    hide IsQuote;
  }

  lemma {:induction false} LexEnd(rest: string)
    requires rest == "" || !IsQuote(rest[0])
    ensures LexLiteral("'" + rest) == Some(Lexed("", rest))
  {
    StraightIsQuote();
    assert ("'" + rest)[1..] == rest;
  }

  /** A doubled quote, or a character that is none, is data. */
  lemma {:induction false} LexOne(c: char, more: string)
    requires LexLiteral(more).Some?
    ensures LexLiteral((if IsQuote(c) then [c, c] else [c]) + more)
            == Some(Lexed([c] + LexLiteral(more).value.value, LexLiteral(more).value.rest))
  {
    hide IsQuote;
    assert ([c, c] + more)[2..] == more && ([c] + more)[1..] == more;
  }

  lemma {:induction false} StraightIsQuote()
    ensures IsQuote('\'') && !IsQuote(' ')
  {
    assert QUOTES[0] == '\'';
  }

  // ------------------------------------------------------------------------------------ the binder

  /** Whether the binder wraps `token` in quotes: white space where an even number of quotes stands before it. From
      version 7 on, a quote right after a backslash is not counted. */
  function WrapsFrom(token: string, quotes: nat, previous: char, version: nat): bool {
    if token == "" then false
    else if token[0] == '"' then
      WrapsFrom(token[1..], if version >= 7 && previous == '\\' then quotes else quotes + 1, token[0], version)
    else (IsSpace(token[0]) && quotes % 2 == 0) || WrapsFrom(token[1..], quotes, token[0], version)
  }

  function Wraps(token: string, version: nat): bool { WrapsFrom(token, 0, '\0', version) }

  /** The decision, in the program's own loop. */
  method BinderWraps(token: string, version: nat) returns (wraps: bool)
    ensures wraps == Wraps(token, version)
  {
    var quotes := 0;
    var previous := '\0';
    assert token[0..] == token;
    for i := 0 to |token|
      invariant WrapsFrom(token[i..], quotes, previous, version) == Wraps(token, version)
    {
      var c := token[i];
      assert token[i..][1..] == token[i + 1..];
      if c == '"' {
        if !(version >= 7 && previous == '\\') { quotes := quotes + 1; }
      } else if IsSpace(c) && quotes % 2 == 0 {
        return true;
      }
      previous := c;
    }
    assert token[|token|..] == "";
    return false;
  }

  /** The line the legacy binder of a version builds: an empty argument is dropped, the others are wrapped or left
      alone. */
  function Bound(version: nat, tokens: seq<string>): seq<string> {
    if tokens == [] then []
    else (if tokens[0] == "" then [] else [if Wraps(tokens[0], version) then "\"" + (tokens[0] + "\"") else tokens[0]])
         + Bound(version, tokens[1..])
  }

  // -------------------------------------------------------------------------- what the program writes

  /** The C-runtime form that survives the binder: no outer quotes, since the binder may add them; trailing
      backslashes doubled only when it will; and two quotes for nothing, which it would drop. */
  function CrtEscape(value: string): string {
    if value == "" then "\"\"" else Escaped(value, 0, if HasSpace(value) then 2 else 1)
  }

  /** Escape one value, in the program's own loop. */
  method EscapeForCrt(value: string) returns (r: string)
    ensures r == CrtEscape(value)
  {
    hide Escaped, HasSpace;
    if value == "" { return "\"\""; }
    ghost var closing := if HasSpace(value) then 2 else 1;
    r := "";
    var backslashes := 0;
    assert value[0..] == value;
    for i := 0 to |value|
      invariant r + Escaped(value[i..], backslashes, closing) == Escaped(value, 0, closing)
    {
      EscapedStep(value[i..], backslashes, closing);
      assert value[i..][1..] == value[i + 1..];
      ghost var more := Escaped(value[i + 1..], 0, closing);
      if value[i] == '\\' {
        backslashes := backslashes + 1;
        continue;
      }
      if value[i] == '"' {
        Cmd.AssocFour(r, Slashes(backslashes * 2 + 1), "\"", more);
        r := r + (Slashes(backslashes * 2 + 1) + "\"");
      } else {
        Cmd.AssocFour(r, Slashes(backslashes), [value[i]], more);
        r := r + (Slashes(backslashes) + [value[i]]);
      }
      backslashes := 0;
    }
    EscapedStep("", backslashes, closing);
    assert value[|value|..] == "";
    if backslashes > 0 {
      r := r + Slashes(backslashes * (if HasSpace(value) then 2 else 1));
    } else {
      NoSlash();
      assert r + "" == r;
    }
  }

  lemma {:induction false} EscapedStep(value: string, pending: nat, closing: nat)
    ensures value == "" ==> Escaped(value, pending, closing) == Slashes(pending * closing)
    ensures value != "" && value[0] == '\\' ==> Escaped(value, pending, closing) == Escaped(value[1..], pending + 1, closing)
    ensures value != "" && value[0] == '"' ==>
              Escaped(value, pending, closing) == Slashes(pending * 2 + 1) + ("\"" + Escaped(value[1..], 0, closing))
    ensures value != "" && value[0] != '\\' && value[0] != '"' ==>
              Escaped(value, pending, closing) == Slashes(pending) + ([value[0]] + Escaped(value[1..], 0, closing))
  {
  }

  /** Why an argument is refused: PowerShell stops parsing at it, or the child would read it split. */
  datatype Refusal = StopParsing | WouldSplit

  datatype Rendered = Ok(text: string) | Refused(why: Refusal)

  /** An argument of a native program under version 5. */
  function NativeArgument(value: string): Rendered {
    if value == "--%" then Refused(StopParsing)
    else
      var token := CrtEscape(value);
      if HasSpace(token) && !Wraps(token, 5) then Refused(WouldSplit) else Ok(Literal(token))
  }

  /** An argument of a batch file: the batch token, unless the binder would quote it a second time. */
  function BatchArgument(value: string, version: nat): Rendered {
    var token := Batch.Token(value);
    if Wraps(token, version) then Refused(WouldSplit) else Ok(Literal(token))
  }

  // ------------------------------------------------------------------------------ the three parsers

  lemma {:induction false} EscapedHasSpace(value: string, pending: nat, closing: nat)
    ensures HasSpace(Escaped(value, pending, closing)) == HasSpace(value)
  {
    hide IsSpace, HasSpace, Escaped, Slashes;
    SlashesNoSpace(pending);
    SlashesNoSpace(pending * closing);
    SlashesNoSpace(pending * 2 + 1);
    EscapedStep(value, pending, closing);
    if value != "" {
      var more := value[1..];
      assert value == [value[0]] + more;
      SpaceJoin([value[0]], more);
      if value[0] == '\\' {
        EscapedHasSpace(more, pending + 1, closing);
      } else {
        EscapedHasSpace(more, 0, closing);
        SpaceJoin([value[0]], Escaped(more, 0, closing));
        SpaceJoin("\"", Escaped(more, 0, closing));
        SpaceJoin(Slashes(pending), [value[0]] + Escaped(more, 0, closing));
        SpaceJoin(Slashes(pending * 2 + 1), "\"" + Escaped(more, 0, closing));
      }
    }
  }

  lemma {:induction false} SpaceJoin(a: string, b: string)
    ensures HasSpace(a + b) <==> HasSpace(a) || HasSpace(b)
  {
    hide IsSpace;
    if HasSpace(a) {
      var i :| 0 <= i < |a| && IsSpace(a[i]);
      assert (a + b)[i] == a[i];
    }
    if HasSpace(b) {
      var i :| 0 <= i < |b| && IsSpace(b[i]);
      assert (a + b)[|a| + i] == b[i];
    }
    if HasSpace(a + b) {
      var i :| 0 <= i < |a + b| && IsSpace((a + b)[i]);
      if i < |a| { assert a[i] == (a + b)[i]; } else { assert b[i - |a|] == (a + b)[i]; }
    }
  }

  lemma {:induction false} SlashesNoSpace(n: nat)
    ensures !HasSpace(Slashes(n)) && !HasSpace("\\") && !HasSpace("\"") && !HasSpace("")
  {
    SlashesAre(n);
  }

  lemma {:induction false} NoSpaceNoWrap(token: string, quotes: nat, previous: char)
    requires !HasSpace(token)
    ensures !WrapsFrom(token, quotes, previous, 5)
  {
    if token != "" {
      assert !IsSpace(token[0]);
      assert !HasSpace(token[1..]) by {
        forall i | 0 <= i < |token[1..]| ensures !IsSpace(token[1..][i]) { assert token[1..][i] == token[i + 1]; }
      }
      NoSpaceNoWrap(token[1..], if token[0] == '"' then quotes + 1 else quotes, token[0]);
    }
  }

  /** The backslashes at the end of a value, of which `pending` were read before. */
  function Trailing(value: string, pending: nat): nat {
    if value == "" then pending else Trailing(value[1..], if value[0] == '\\' then pending + 1 else 0)
  }

  /** The value, with its last backslashes once more if they were closed twice. */
  function Closed(value: string, pending: nat, closing: nat): string {
    value + if closing == 2 then Slashes(Trailing(value, pending)) else ""
  }

  lemma {:induction false} ClosedStep(value: string, pending: nat, closing: nat)
    requires value != ""
    ensures Closed(value, pending, closing)
            == [value[0]] + Closed(value[1..], if value[0] == '\\' then pending + 1 else 0, closing)
  {
    hide Slashes;
    assert value == [value[0]] + value[1..];
  }

  lemma {:induction false} Glue(word: string, run: string, c: string, more: string)
    ensures word + (run + c) + more == word + run + (c + more)
    ensures word + run + c + "" + more == word + run + (c + more)
  {
  }

  /** Outside quotes the escaped text of a value without blanks reads as the value, so closed. */
  lemma {:induction false} ReadEscapedBare(value: string, pending: nat, closing: nat, rest: string, word: string)
    requires !HasBlank(value) && (rest == "" || IsBlank(rest[0])) && 1 <= closing <= 2
    ensures Read(Escaped(value, pending, closing) + rest, false, word, true)
            == Read(rest, false, word + Slashes(pending) + Closed(value, pending, closing), true)
    decreases |value|
  {
    hide Read, Slashes, Closed, HasBlank;
    NoSlash();
    if value == "" {
      ReadClosed(pending, closing, rest, word);
    } else {
      var more := value[1..];
      NoBlankMore(value);
      EscapedStep(value, pending, closing);
      ClosedStep(value, pending, closing);
      if value[0] == '\\' {
        ReadEscapedBare(more, pending + 1, closing, rest, word);
        SlashesAdd(pending, 1);
        OneSlash();
        Glue(word, Slashes(pending), "\\", Closed(more, pending + 1, closing));
      } else {
        ReadEscapedBare(more, 0, closing, rest, word + Slashes(pending) + [value[0]]);
        Glue(word, Slashes(pending), [value[0]], Closed(more, 0, closing));
        ReadHead(value[0], pending, Escaped(more, 0, closing), rest, word);
      }
    }
  }

  /** One character that is no backslash, with the backslashes before it, is read as data. */
  lemma {:induction false} ReadHead(c: char, pending: nat, more: string, rest: string, word: string)
    requires c != '\\' && !IsBlank(c)
    ensures var head := if c == '"' then Slashes(pending * 2 + 1) + ("\"" + more) else Slashes(pending) + ([c] + more);
            Read(head + rest, false, word, true) == Read(more + rest, false, word + Slashes(pending) + [c], true)
  {
    hide Read, Slashes;
    var after := more + rest;
    if c == '"' {
      assert Slashes(pending * 2 + 1) + ("\"" + more) + rest == Slashes(pending * 2 + 1) + ("\"" + after);
      ReadOddSlashes(pending, after, false, word);
    } else {
      assert Slashes(pending) + ([c] + more) + rest == Slashes(pending) + ([c] + after);
      ReadPlainSlashes(pending, [c] + after, false, word);
      ReadData(c, after, false, word + Slashes(pending), true);
    }
  }

  lemma {:induction false} ReadClosed(pending: nat, closing: nat, rest: string, word: string)
    requires (rest == "" || IsBlank(rest[0])) && 1 <= closing <= 2
    ensures Read(Escaped("", pending, closing) + rest, false, word, true)
            == Read(rest, false, word + Slashes(pending) + Closed("", pending, closing), true)
  {
    hide Read, Slashes;
    SlashesAdd(pending, pending);
    assert pending * closing == if closing == 2 then pending + pending else pending;
    ReadPlainSlashes(pending * closing, rest, false, word);
    assert word + Slashes(pending) + ("" + "") == word + Slashes(pending);
    assert word + Slashes(pending) + ("" + Slashes(pending)) == word + (Slashes(pending) + Slashes(pending));
  }

  lemma {:induction false} NoBlankMore(value: string)
    requires value != "" && !HasBlank(value)
    ensures !HasBlank(value[1..]) && !IsBlank(value[0])
  {
    forall i | 0 <= i < |value[1..]| ensures !IsBlank(value[1..][i]) { assert value[1..][i] == value[i + 1]; }
  }

  predicate HasBlank(value: string) { exists i :: 0 <= i < |value| && IsBlank(value[i]) }

  lemma {:induction false} EscapedBareReadsAs(value: string)
    requires value != "" && !HasSpace(value)
    ensures ReadsAs(Escaped(value, 0, 1), value)
  {
    hide Slashes;
    forall i | 0 <= i < |value| ensures !IsBlank(value[i]) { assert !IsSpace(value[i]); }
    forall rest | rest == "" || IsBlank(rest[0])
      ensures Read(Escaped(value, 0, 1) + rest, false, "", false) == Read(rest, false, value, true)
    {
      NoSlash();
      ReadEscapedBare(value, 0, 1, rest, "");
      assert "" + Slashes(0) + Closed(value, 0, 1) == value;
      EscapedBegins(value, 0, 1);
      OpenIsFirst(Escaped(value, 0, 1) + rest);
    }
  }

  /** The escaped text is not empty and begins with the value's first character or a backslash. */
  lemma {:induction false} EscapedBegins(value: string, pending: nat, closing: nat)
    requires (value != "" || pending > 0) && closing > 0
    ensures var e := Escaped(value, pending, closing); e != "" && (e[0] == '\\' || (value != "" && e[0] == value[0]))
    decreases |value|
  {
    EscapedStep(value, pending, closing);
    SlashesAre(pending);
    SlashesAre(pending * closing);
    SlashesAre(pending * 2 + 1);
    if value == "" {
      assert pending * closing > 0;
    } else if value[0] == '\\' {
      EscapedBegins(value[1..], pending + 1, closing);
      BeginsWithSlash(value[1..], pending + 1, closing);
    }
  }

  lemma {:induction false} BeginsWithSlash(value: string, pending: nat, closing: nat)
    requires pending > 0 && closing > 0
    ensures Escaped(value, pending, closing) != "" && Escaped(value, pending, closing)[0] == '\\'
    decreases |value|
  {
    EscapedStep(value, pending, closing);
    SlashesAre(pending);
    SlashesAre(pending * closing);
    SlashesAre(pending * 2 + 1);
    if value == "" {
      assert pending * closing > 0;
    } else if value[0] == '\\' {
      BeginsWithSlash(value[1..], pending + 1, closing);
    }
  }

  /** What the binder makes of an accepted value's token is read by the child as that value. */
  lemma {:induction false} TokenReadsAs(value: string)
    requires NativeArgument(value).Ok?
    ensures var token := CrtEscape(value);
            token != "" && Bound(5, [token]) == [BoundToken(token)] && ReadsAs(BoundToken(token), value)
  {
    hide ReadsAs, Escaped, Wraps, HasSpace, Slashes;
    var token := CrtEscape(value);
    if value == "" {
      EmptyReadsAs();
      EmptyIsNotWrapped();
    } else {
      EscapedBegins(value, 0, if HasSpace(value) then 2 else 1);
      EscapedHasSpace(value, 0, if HasSpace(value) then 2 else 1);
      if HasSpace(value) {
        QuotedReadsAs(value);
      } else {
        UnwrappedToken(token);
        EscapedBareReadsAs(value);
      }
    }
    BoundOne(token);
  }

  lemma {:induction false} BoundOne(token: string)
    ensures token != "" ==> Bound(5, [token]) == [BoundToken(token)]
  {
    hide Wraps;
    var tokens: seq<string> := [token];
    assert tokens[1..] == [];
    assert Bound(5, tokens[1..]) == [];
  }

  function BoundToken(token: string): string { if Wraps(token, 5) then "\"" + (token + "\"") else token }

  lemma {:induction false} UnwrappedToken(token: string)
    requires !HasSpace(token)
    ensures !Wraps(token, 5)
  {
    NoSpaceNoWrap(token, 0, '\0');
  }

  lemma {:induction false} EmptyIsNotWrapped()
    ensures !Wraps("\"\"", 5)
  {
    SlashesNoSpace(0);
    SpaceJoin("\"", "\"");
    assert "\"" + "\"" == "\"\"";
    UnwrappedToken("\"\"");
  }

  lemma {:induction false} EmptyReadsAs()
    ensures ReadsAs("\"\"", "")
  {
    forall rest | rest == "" || IsBlank(rest[0])
      ensures Read("\"\"" + rest, false, "", false) == Read(rest, false, "", true)
    {
      assert "\"\"" + rest == "\"" + ("\"" + rest);
      ReadOpening("\"" + rest, "", false);
      ReadClosing(rest, "");
    }
  }

  function Tokens(values: seq<string>): seq<string> {
    seq(|values|, i requires 0 <= i < |values| => CrtEscape(values[i]))
  }

  function BoundTokens(values: seq<string>): seq<string> {
    seq(|values|, i requires 0 <= i < |values| => BoundToken(CrtEscape(values[i])))
  }

  function Literals(tokens: seq<string>): seq<string> {
    seq(|tokens|, i requires 0 <= i < |tokens| => Literal(tokens[i]))
  }

  lemma {:induction false} BoundAll(values: seq<string>)
    requires forall i :: 0 <= i < |values| ==> NativeArgument(values[i]).Ok?
    ensures Bound(5, Tokens(values)) == BoundTokens(values)
  {
    hide NativeArgument, CrtEscape, ReadsAs;
    if values != [] {
      TokenReadsAs(values[0]);
      BoundAll(values[1..]);
      assert Tokens(values)[1..] == Tokens(values[1..]);
      assert BoundTokens(values) == [BoundToken(CrtEscape(values[0]))] + BoundTokens(values[1..]);
    }
  }

  lemma {:induction false} WordsLex(tokens: seq<string>)
    requires tokens != []
    ensures LexWords(Join(Literals(tokens))) == Some(tokens)
  {
    hide IsQuote, LexLiteral, Doubled;
    StraightIsQuote();
    var words := Literals(tokens);
    var line := Join(words);
    if |tokens| == 1 {
      LiteralLexes(tokens[0], "");
      assert line == words[0] == "'" + (Doubled(tokens[0]) + "'");
      assert line[1..] == Doubled(tokens[0]) + ("'" + "");
      assert tokens == [tokens[0]];
    } else {
      var rest := " " + Join(words[1..]);
      assert words[1..] == Literals(tokens[1..]);
      WordsLex(tokens[1..]);
      LiteralLexes(tokens[0], rest);
      assert line == "'" + (Doubled(tokens[0]) + "'") + rest;
      assert line[1..] == Doubled(tokens[0]) + ("'" + rest);
      assert rest[1..] == Join(words[1..]);
      assert tokens == [tokens[0]] + tokens[1..];
    }
  }

  /** Any vector of accepted arguments reaches the native child unchanged: PowerShell reads the literals, the binder
      rebuilds the line, and the C runtime splits it into exactly those arguments. */
  lemma {:induction false} ArgvSurvives(values: seq<string>)
    requires values != [] && forall i :: 0 <= i < |values| ==> NativeArgument(values[i]).Ok?
    ensures var line := Join(Literals(Tokens(values)));
            LexWords(line) == Some(Tokens(values)) && Arguments(Join(Bound(5, Tokens(values)))) == values
  {
    hide NativeArgument, CrtEscape, ReadsAs, LexWords, Literals, Bound;
    WordsLex(Tokens(values));
    BoundAll(values);
    forall i | 0 <= i < |values| ensures ReadsAs(BoundTokens(values)[i], values[i]) { TokenReadsAs(values[i]); }
    JoinReads(BoundTokens(values), values);
  }

  // --------------------------------------------------------------------------- refusing is necessary

  /** Outside quotes a value with a blank is cut at it. */
  lemma {:induction false} CutAtBlank(value: string, pending: nat, closing: nat, word: string)
    requires HasBlank(value)
    ensures var args := Read(Escaped(value, pending, closing), false, word, true);
            args != [] && |args[0]| < |word| + pending + |value|
    decreases |value|
  {
    hide Read, Slashes, HasBlank, Escaped;
    BlankMore(value);
    EscapedStep(value, pending, closing);
    var more := value[1..];
    var after := Escaped(more, 0, closing);
    SlashesAre(pending);
    if IsBlank(value[0]) {
      ReadPlainSlashes(pending, [value[0]] + after, false, word);
      BlankSplits(value[0], after, word + Slashes(pending));
    } else if value[0] == '\\' {
      CutAtBlank(more, pending + 1, closing, word);
    } else {
      ReadHead(value[0], pending, after, "", word);
      assert Escaped(value, pending, closing) + "" == Escaped(value, pending, closing) && after + "" == after;
      CutAtBlank(more, 0, closing, word + Slashes(pending) + [value[0]]);
    }
  }

  lemma {:induction false} BlankMore(value: string)
    requires HasBlank(value)
    ensures value != "" && (!IsBlank(value[0]) ==> HasBlank(value[1..]))
  {
    var i :| 0 <= i < |value| && IsBlank(value[i]);
    if !IsBlank(value[0]) { assert value[1..][i - 1] == value[i]; }
  }

  lemma {:induction false} BlankSplits(c: char, rest: string, word: string)
    requires IsBlank(c)
    ensures Read([c] + rest, false, word, true) == [word] + Read(rest, false, "", false)
  {
    assert ([c] + rest)[1..] == rest;
  }

  lemma {:induction false} FirstSpaceWraps(token: string)
    requires token != "" && IsBlank(token[0])
    ensures Wraps(token, 5)
  {
    assert IsSpace(token[0]);
  }

  /** Exactly which values the refusal protects: one that is refused as splitting would arrive changed if it holds a blank
      or ends in a backslash, and unchanged otherwise. */
  lemma {:induction false} RefusalProtects(value: string)
    requires NativeArgument(value) == Refused(WouldSplit)
    ensures value != ""
    ensures Arguments(Join(Bound(5, [CrtEscape(value)]))) != [value] <==> HasBlank(value) || value[|value| - 1] == '\\'
  {
    hide Read, Escaped, Slashes, HasBlank;
    EmptyHasNoSpace();
    var token := CrtEscape(value);
    EscapedHasSpace(value, 0, if HasSpace(value) then 2 else 1);
    assert HasSpace(value);
    EscapedBegins(value, 0, 2);
    BoundOne(token);
    assert BoundToken(token) == token;
    if IsBlank(token[0]) { FirstSpaceWraps(token); }
    OpenIsFirst(token);
    if HasBlank(value) { BlankCuts(value); } else { NoBlankReads(value); }
  }

  lemma {:induction false} EmptyHasNoSpace()
    ensures NativeArgument("").Ok?
  {
    SlashesNoSpace(0);
    SpaceJoin("\"", "\"");
    assert "\"" + "\"" == "\"\"";
  }

  lemma {:induction false} BlankCuts(value: string)
    requires HasBlank(value)
    ensures Read(Escaped(value, 0, 2), false, "", true) != [value]
  {
    CutAtBlank(value, 0, 2, "");
  }

  lemma {:induction false} NoBlankReads(value: string)
    requires value != "" && !HasBlank(value)
    ensures Read(Escaped(value, 0, 2), false, "", true) == [value] <==> value[|value| - 1] != '\\'
  {
    hide Read, Escaped, Slashes;
    ReadEscapedBare(value, 0, 2, "", "");
    assert Escaped(value, 0, 2) + "" == Escaped(value, 0, 2);
    NoSlash();
    ReadEnd("" + Slashes(0) + Closed(value, 0, 2));
    assert "" + Slashes(0) + Closed(value, 0, 2) == Closed(value, 0, 2);
    TrailingEnds(value, 0);
    var end := Slashes(Trailing(value, 0));
    SlashesAre(Trailing(value, 0));
    assert |end| == Trailing(value, 0) && |value + end| == |value| + |end|;
    assert end == "" ==> value + end == value;
    assert Read(Escaped(value, 0, 2), false, "", true) == [value + end];
  }

  lemma {:induction false} ReadEnd(word: string)
    ensures Read("", false, word, true) == [word]
  {
  }

  lemma {:induction false} TrailingEnds(value: string, pending: nat)
    requires value != ""
    ensures Trailing(value, pending) > 0 <==> value[|value| - 1] == '\\'
  {
    if |value| == 1 {
      assert value[1..] == "";
    } else {
      TrailingEnds(value[1..], if value[0] == '\\' then pending + 1 else 0);
    }
  }

  /** The refusal also meets values that would arrive: a quote and then a no-break space, at which nothing splits. */
  lemma {:induction false} RefusedInVain(value: string)
    requires value == "\"\U{a0}"
    ensures NativeArgument(value) == Refused(WouldSplit) && Arguments(Join(Bound(5, [CrtEscape(value)]))) == [value]
  {
    QuoteThenSpace(value);
    RefusalProtects(value);
    assert value == ['"', '\U{a0}'];
  }

  lemma {:induction false} QuoteThenSpace(value: string)
    requires value == ['"', '\U{a0}']
    ensures NativeArgument(value) == Refused(WouldSplit)
  {
    hide Slashes;
    assert IsSpace(value[1]);
    assert value[1..] == ['\U{a0}'] && value[1..][1..] == "";
    EscapedStep(value, 0, 2);
    EscapedStep(value[1..], 0, 2);
    EscapedStep("", 0, 2);
    NoSlash();
    OneSlash();
    var token := CrtEscape(value);
    assert token == ['\\', '"', '\U{a0}'];
    assert token[1..] == ['"', '\U{a0}'] && token[1..][1..] == ['\U{a0}'] && token[1..][1..][1..] == "";
    assert IsSpace(token[2]);
    assert WrapsFrom("", 1, '\U{a0}', 5) == false;
    assert WrapsFrom(token[1..][1..], 1, '"', 5) == false;
    assert WrapsFrom(token[1..], 0, '\\', 5) == false;
  }

  /** An accepted batch argument passes the binder of its version untouched, and then the batch token makes its journey:
      PowerShell reads the literal, cmd's percent phase takes nothing from any variable, cmd sees data twice, and the C
      runtime reads the value. */
  lemma {:induction false} BatchArgumentSurvives(version: nat, vars: Batch.Variables, value: string)
    requires BatchArgument(value, version).Ok? && NoControl(value) && "cd" in vars.values
    ensures var token := Batch.Token(value);
            LexWords(BatchArgument(value, version).text) == Some([token]) && Bound(version, [token]) == [token]
    ensures var expanded := Batch.Expand(vars, Join(Bound(version, [Batch.Token(value)])));
            Cmd.Parse(expanded, false) == Cmd.Scan(expanded, true) && Arguments(expanded) == [value]
  {
    hide Wraps, LexWords, Batch.Expand, Cmd.Parse, Read;
    var token := Batch.Token(value);
    WordsLex([token]);
    assert Literals([token]) == [Literal(token)];
    var tokens: seq<string> := [token];
    assert tokens[1..] == [] && Bound(version, tokens[1..]) == [];
    Batch.TokenSurvives(vars, value);
  }
}
