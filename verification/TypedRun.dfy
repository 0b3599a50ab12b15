/** The typed lines run by a target's shell: each is read as the command it was written to be, each batch prints its
    acknowledgement, and the last prints exactly the frames of what the caller's command wrote. */
module TypedRun {
  import Base64
  import LoginShell
  import opened Framing
  import opened Options
  import opened Printers
  import opened Search
  import opened TypedLines
  import opened TypedShell

  // ---------------------------------------------------------------------------------- how words are read

  /** Wherever the text stands in a word, it adds this. */
  ghost predicate Yields(e: Env, assigns: bool, text: string, got: Got) {
    forall rest, before :: ReadWord(text + rest, e, assigns, Bare, before) == ReadWord(rest, e, assigns, Bare, Join(before, got))
  }

  function Silent(text: string): Got { Got(text, "") }

  lemma {:induction false} YieldsBoth(e: Env, assigns: bool, a: string, x: Got, b: string, y: Got)
    requires Yields(e, assigns, a, x) && Yields(e, assigns, b, y)
    ensures Yields(e, assigns, a + b, Join(x, y))
  {
    hide ReadWord;
    forall rest, before
      ensures ReadWord(a + b + rest, e, assigns, Bare, before) == ReadWord(rest, e, assigns, Bare, Join(before, Join(x, y)))
    {
      assert a + b + rest == a + (b + rest);
      assert Join(Join(before, x), y) == Join(before, Join(x, y));
      assert ReadWord(a + (b + rest), e, assigns, Bare, before) == ReadWord(b + rest, e, assigns, Bare, Join(before, x));
    }
  }

  predicate IsBare(text: string) { forall i :: 0 <= i < |text| ==> LoginShell.IsBareData(LoginShell.Sh, text[i]) }

  lemma {:induction false} BareOne(c: char)
    requires LoginShell.IsBareData(LoginShell.Sh, c)
    ensures c !in " ;<>" && c != '\'' && c != '"' && c != '\\' && c != '$'
  {
  }

  lemma {:induction false} ReadBare(text: string, rest: string, e: Env, assigns: bool, before: Got)
    requires IsBare(text)
    ensures ReadWord(text + rest, e, assigns, Bare, before) == ReadWord(rest, e, assigns, Bare, More(before, text))
    decreases |text|
  {
    hide LoginShell.IsBareData;
    if text == "" {
      assert text + rest == rest && before.text + text == before.text;
    } else {
      BareOne(text[0]);
      assert (text + rest)[1..] == text[1..] + rest;
      ReadBare(text[1..], rest, e, assigns, More(before, [text[0]]));
      assert before.text + [text[0]] + text[1..] == before.text + text;
    }
  }

  lemma {:induction false} BareYields(e: Env, assigns: bool, text: string)
    requires IsBare(text)
    ensures Yields(e, assigns, text, Silent(text))
  {
    hide ReadWord, IsBare;
    forall rest, before
      ensures ReadWord(text + rest, e, assigns, Bare, before) == ReadWord(rest, e, assigns, Bare, Join(before, Silent(text)))
    {
      ReadBare(text, rest, e, assigns, before);
      assert before.noise + "" == before.noise;
    }
  }

  lemma {:induction false} ReadDouble(text: string, rest: string, e: Env, assigns: bool, before: Got)
    requires IsPlain(text)
    ensures ReadWord(text + rest, e, assigns, Double, before) == ReadWord(rest, e, assigns, Double, More(before, text))
    decreases |text|
  {
    if text == "" {
      assert text + rest == rest && before.text + text == before.text;
    } else {
      assert (text + rest)[1..] == text[1..] + rest;
      assert IsPlain(text[1..]) && text[0] !in "$`\"\\";
      ReadDouble(text[1..], rest, e, assigns, More(before, [text[0]]));
      assert before.text + [text[0]] + text[1..] == before.text + text;
    }
  }

  lemma {:induction false} ReadQuoteMark(rest: string, e: Env, assigns: bool, mode: Mode, before: Got)
    requires mode != Single
    ensures ReadWord("\"" + rest, e, assigns, mode, before)
            == ReadWord(rest, e, assigns, if mode == Bare then Double else Bare, before)
  {
    assert ("\"" + rest)[1..] == rest;
  }

  lemma {:induction false} QuotedYields(e: Env, assigns: bool, text: string)
    requires IsPlain(text)
    ensures Yields(e, assigns, Quoted(text), Silent(text))
  {
    hide ReadWord, IsPlain;
    forall rest, before
      ensures ReadWord(Quoted(text) + rest, e, assigns, Bare, before)
              == ReadWord(rest, e, assigns, Bare, Join(before, Silent(text)))
    {
      assert Quoted(text) + rest == "\"" + (text + ("\"" + rest));
      ReadQuoteMark(text + ("\"" + rest), e, assigns, Bare, before);
      ReadDouble(text, "\"" + rest, e, assigns, before);
      ReadQuoteMark(rest, e, assigns, Double, More(before, text));
      assert before.noise + "" == before.noise;
    }
  }

  lemma {:induction false} ReadSingle(text: string, rest: string, e: Env, assigns: bool, before: Got)
    requires LoginShell.NoQuoteNoSlash(text)
    ensures ReadWord(text + ("'" + rest), e, assigns, Single, before) == ReadWord(rest, e, assigns, Bare, More(before, text))
    decreases |text|
  {
    var s := text + ("'" + rest);
    if text == "" {
      assert s == "'" + rest && s[1..] == rest && before.text + text == before.text;
    } else {
      assert s[1..] == text[1..] + ("'" + rest);
      assert LoginShell.NoQuoteNoSlash(text[1..]) && text[0] != '\'';
      ReadSingle(text[1..], rest, e, assigns, More(before, [text[0]]));
      assert before.text + [text[0]] + text[1..] == before.text + text;
    }
  }

  lemma {:induction false} SingleYields(e: Env, assigns: bool, text: string)
    requires LoginShell.NoQuoteNoSlash(text)
    ensures Yields(e, assigns, "'" + (text + "'"), Silent(text))
  {
    forall rest, before
      ensures ReadWord("'" + (text + "'") + rest, e, assigns, Bare, before)
              == ReadWord(rest, e, assigns, Bare, Join(before, Silent(text)))
    {
      var s := "'" + (text + "'") + rest;
      assert s[1..] == text + ("'" + rest);
      ReadSingle(text, rest, e, assigns, before);
      assert before.noise + "" == before.noise;
    }
  }

  // --------------------------------------------------------------------------------- how expansions are read

  /** `${name:?}` */
  lemma {:induction false} ExpandRequired(name: string, rest: string, e: Env)
    requires IsName(name) && name in e.vars && e.vars[name] != ""
    ensures Expansion("${" + (name + (":?}" + rest)), e) == Some((Silent(e.vars[name]), |name| + 5))
  {
    hide IsName;
    var s := "${" + (name + (":?}" + rest));
    assert s[1..][1..] == name + (":?}" + rest);
    NameEnds(name, ":?}" + rest);
    var t := s[1..];
    assert t == "{" + (name + (":?}" + rest));
    NameBetween(name, rest);
  }

  lemma {:induction false} NameBetween(name: string, rest: string)
    ensures var t := "{" + (name + (":?}" + rest)); t[1..|name| + 1] == name && t[|name| + 1..|name| + 4] == ":?}"
  {
    var t, u := "{" + (name + (":?}" + rest)), name + (":?}" + rest);
    DropPrefix("{", u);
    assert t[1..|name| + 1] == t[1..][..|name|];
    assert t[|name| + 1..|name| + 4] == t[1..][|name|..][..3];
    DropPrefix(name, ":?}" + rest);
  }

  lemma {:induction false} ExpandName(name: string, rest: string, e: Env)
    requires IsName(name) && name != "" && name[0] == '_' && name in e.vars && rest != "" && !IsNameChar(rest[0])
    ensures Expansion("$" + (name + rest), e) == Some((Silent(e.vars[name]), |name| + 1))
  {
    hide IsName;
    var s := "$" + (name + rest);
    assert s[1..] == name + rest;
    NameEnds(name, rest);
    DropPrefix(name, rest);
    assert s[1..][0] == '_';
  }

  lemma {:induction false} ExpandStatus(rest: string, e: Env)
    ensures Expansion("$?" + rest, e) == Some((Silent(Decimal(e.status)), 2))
  {
    assert ("$?" + rest)[1..][0] == '?';
  }

  lemma {:induction false} ExpandSubst(script: string, rest: string, e: Env, got: Got)
    requires ScriptLength(script + (")" + rest), false) == Some(|script|) && e.subst(script) == Some(got)
    ensures Expansion("$(" + (script + (")" + rest)), e) == Some((got, |script| + 3))
  {
    hide ScriptLength;
    var s := "$(" + (script + (")" + rest));
    assert s[1..][1..] == script + (")" + rest);
    DropPrefix(script, ")" + rest);
  }

  /** What an expansion gives stands for it in the word, inside quotes or in an assignment. */
  lemma {:induction false} ReadExpansion(text: string, rest: string, e: Env, assigns: bool, mode: Mode, before: Got, got: Got)
    requires text != "" && text[0] == '$' && mode != Single && (mode == Bare ==> assigns)
    requires Expansion(text + rest, e) == Some((got, |text|))
    ensures ReadWord(text + rest, e, assigns, mode, before) == ReadWord(rest, e, assigns, mode, Join(before, got))
  {
    hide Expansion;
    DropPrefix(text, rest);
    assert (text + rest)[0] == '$';
  }

  predicate ScriptData(text: string) { forall i :: 0 <= i < |text| ==> text[i] !in "()\"\\`'" }

  lemma {:induction false} ScriptSkips(text: string, more: string, quoted: bool)
    requires ScriptData(text)
    ensures ScriptLength(text + more, quoted) == Plus(|text|, ScriptLength(more, quoted))
    decreases |text|
  {
    if text == "" {
      assert text + more == more;
    } else {
      assert (text + more)[1..] == text[1..] + more;
      assert ScriptData(text[1..]) && text[0] !in "()\"\\`'";
      ScriptSkips(text[1..], more, quoted);
    }
  }

  /** The closing parenthesis of a command substitution is found behind this text. */
  ghost predicate ScriptEnds(script: string) {
    forall rest :: ScriptLength(script + (")" + rest), false) == Some(|script|)
  }

  lemma {:induction false} ScriptCloses(rest: string)
    ensures ScriptLength(")" + rest, false) == Some(0)
  {
  }

  lemma {:induction false} ScriptQuotes(more: string, quoted: bool)
    ensures ScriptLength("\"" + more, quoted) == Plus(1, ScriptLength(more, !quoted))
  {
    assert ("\"" + more)[1..] == more;
  }

  lemma {:induction false} PlainScript(script: string)
    requires ScriptData(script)
    ensures ScriptEnds(script)
  {
    hide ScriptLength, ScriptData;
    forall rest ensures ScriptLength(script + (")" + rest), false) == Some(|script|) {
      ScriptSkips(script, ")" + rest, false);
      ScriptCloses(rest);
    }
  }

  /** One quoted part in the middle. */
  lemma {:induction false} QuotedScript(a: string, b: string, c: string)
    requires ScriptData(a) && ScriptData(b) && ScriptData(c)
    ensures ScriptEnds(a + (Quoted(b) + c))
  {
    hide ScriptLength, ScriptData;
    var script := a + (Quoted(b) + c);
    forall rest ensures ScriptLength(script + (")" + rest), false) == Some(|script|) {
      var s3 := c + (")" + rest);
      var s2 := b + ("\"" + s3);
      assert script + (")" + rest) == a + ("\"" + s2);
      ScriptSkips(a, "\"" + s2, false);
      ScriptQuotes(s2, false);
      ScriptSkips(b, "\"" + s3, true);
      ScriptQuotes(s3, true);
      ScriptSkips(c, ")" + rest, false);
      ScriptCloses(rest);
    }
  }

  // ------------------------------------------------------------------------- the words of the typed lines

  lemma {:induction false} ReadJoin(before: Got, text: string)
    ensures Join(before, Silent(text)) == More(before, text)
  {
    assert before.noise + "" == before.noise;
  }

  lemma {:induction false} TmpYields(e: Env, assigns: bool, token: string)
    requires IsToken(token) && Var(token) + "d" in e.vars && e.vars[Var(token) + "d"] != ""
    ensures Yields(e, assigns, Tmp(token), Silent(e.vars[Var(token) + "d"]))
  {
    hide ReadWord, Expansion, IsName;
    var name := Var(token) + "d";
    var x := "${" + (name + ":?}");
    var dir := Silent(e.vars[name]);
    OwnName(token);
    forall rest, before
      ensures ReadWord(Tmp(token) + rest, e, assigns, Bare, before) == ReadWord(rest, e, assigns, Bare, Join(before, dir))
    {
      var close := "\"" + rest;
      assert Tmp(token) + rest == "\"" + (x + close);
      ReadQuoteMark(x + close, e, assigns, Bare, before);
      assert x + close == "${" + (name + (":?}" + close));
      ExpandRequired(name, close, e);
      ReadExpansion(x, close, e, assigns, Double, before, dir);
      ReadQuoteMark(rest, e, assigns, Double, Join(before, dir));
    }
  }

  lemma {:induction false} OwnName(token: string)
    requires IsToken(token)
    ensures IsName(Var(token) + "d") && IsName(Var(token) + "r") && IsName(Var(token) + "s")
    ensures Var(token) != "" && Var(token)[0] == '_' && Var(token) + "d" != Var(token) + "r" && Var(token) + "d" != Var(token) + "s"
    ensures Var(token) + "r" != Var(token) + "s"
  {
    forall i | 0 <= i < |token| ensures IsNameChar(token[i]) { assert IsHex(token[i]); }
    var n := |Var(token)|;
    assert (Var(token) + "d")[n] == 'd' && (Var(token) + "r")[n] == 'r' && (Var(token) + "s")[n] == 's';
  }

  lemma {:induction false} VarYields(e: Env, assigns: bool, name: string)
    requires IsName(name) && name != "" && name[0] == '_' && name in e.vars
    ensures Yields(e, assigns, Quoted("$" + name), Silent(e.vars[name]))
  {
    hide ReadWord, Expansion, IsName;
    var value := Silent(e.vars[name]);
    forall rest, before
      ensures ReadWord(Quoted("$" + name) + rest, e, assigns, Bare, before)
              == ReadWord(rest, e, assigns, Bare, Join(before, value))
    {
      var close := "\"" + rest;
      assert Quoted("$" + name) + rest == "\"" + ("$" + name + close);
      ReadQuoteMark("$" + name + close, e, assigns, Bare, before);
      assert "$" + name + close == "$" + (name + close);
      ExpandName(name, close, e);
      ReadExpansion("$" + name, close, e, assigns, Double, before, value);
      ReadQuoteMark(rest, e, assigns, Double, Join(before, value));
    }
  }

  lemma {:induction false} StatusYields(e: Env)
    ensures Yields(e, true, "$?", Silent(Decimal(e.status)))
  {
    hide ReadWord, Expansion, Decimal;
    forall rest, before
      ensures ReadWord("$?" + rest, e, true, Bare, before) == ReadWord(rest, e, true, Bare, Join(before, Silent(Decimal(e.status))))
    {
      ExpandStatus(rest, e);
      ReadExpansion("$?", rest, e, true, Bare, before, Silent(Decimal(e.status)));
    }
  }

  function InDollar(script: string): string { "$(" + (script + ")") }

  lemma {:induction false} SubstYields(e: Env, script: string, got: Got)
    requires ScriptEnds(script) && e.subst(script) == Some(got)
    ensures Yields(e, true, InDollar(script), got) && Yields(e, false, Quoted(InDollar(script)), got)
  {
    hide ReadWord, Expansion, ScriptLength;
    forall rest, before
      ensures ReadWord(InDollar(script) + rest, e, true, Bare, before) == ReadWord(rest, e, true, Bare, Join(before, got))
    {
      assert InDollar(script) + rest == "$(" + (script + (")" + rest));
      ExpandSubst(script, rest, e, got);
      ReadExpansion(InDollar(script), rest, e, true, Bare, before, got);
    }
    forall rest, before
      ensures ReadWord(Quoted(InDollar(script)) + rest, e, false, Bare, before) == ReadWord(rest, e, false, Bare, Join(before, got))
    {
      var close := "\"" + rest;
      assert Quoted(InDollar(script)) + rest == "\"" + (InDollar(script) + close);
      ReadQuoteMark(InDollar(script) + close, e, false, Bare, before);
      assert InDollar(script) + close == "$(" + (script + (")" + close));
      ExpandSubst(script, close, e, got);
      ReadExpansion(InDollar(script), close, e, false, Double, before, got);
      ReadQuoteMark(rest, e, false, Double, Join(before, got));
    }
  }

  // ----------------------------------------------------------------------------------- whole commands

  /** A word that no blank, operator or digit of a redirection begins. */
  predicate Starts(text: string) { text != "" && text[0] !in " ;<>2&" }

  lemma {:induction false} WordEnds(rest: string, e: Env, assigns: bool, got: Got)
    requires Ends(rest)
    ensures ReadWord(rest, e, assigns, Bare, got) == Some((got, rest))
  {
  }

  lemma {:induction false} NothingBefore(got: Got)
    ensures Join(Got("", ""), got) == got
  {
    assert "" + got.text == got.text && "" + got.noise == got.noise;
  }

  lemma {:induction false} WholeWord(e: Env, assigns: bool, text: string, got: Got, rest: string)
    requires Yields(e, assigns, text, got) && Ends(rest)
    ensures ReadWord(text + rest, e, assigns, Bare, Got("", "")) == Some((got, rest))
  {
    hide ReadWord;
    NothingBefore(got);
    WordEnds(rest, e, assigns, got);
  }

  lemma {:induction false} NoRedirect(s: string)
    requires s != "" && s[0] !in "<>2"
    ensures RedirectAt(s).None? && !HasPrefix(s, "2>&1")
  {
  }

  lemma {:induction false} ArgsWord(e: Env, text: string, got: Got, rest: string, c: Command)
    requires Starts(text) && Yields(e, false, text, got) && Ends(rest) && c.Simple?
    ensures ReadArgs(text + rest, e, c) == ReadArgs(rest, e, WithWord(c, got))
  {
    hide ReadWord, RedirectAt, Yields, HasPrefix;
    assert (text + rest)[0] == text[0];
    NoRedirect(text + rest);
    WholeWord(e, false, text, got, rest);
  }

  lemma {:induction false} ArgsBlank(rest: string, e: Env, c: Command)
    requires c.Simple?
    ensures ReadArgs(" " + rest, e, c) == ReadArgs(rest, e, c)
  {
    assert (" " + rest)[1..] == rest;
  }

  lemma {:induction false} ArgsEnd(rest: string, e: Env, c: Command)
    requires c.Simple? && (rest == "" || rest[0] == ';')
    ensures ReadArgs(rest, e, c) == Some((c, rest))
  {
  }

  lemma {:induction false} SkipNone(s: string)
    requires s == "" || s[0] != ' '
    ensures Skip(s) == s && Skip(" " + s) == s
  {
    assert (" " + s)[1..] == s;
  }

  /** How the redirections to a file are spelled: `2>` close to the name, the others with a blank. */
  predicate Opens(op: string, redirect: Redirect) {
    (op, redirect) in [("2>", ErrInto("")), ("> ", Into("")), (">> ", Onto("")), ("< ", From(""))]
  }

  /** A redirection to a file: `2>` written close, the others with a blank. */
  lemma {:induction false} ArgsRedirect(e: Env, op: string, redirect: Redirect, text: string, got: Got, rest: string, c: Command)
    requires Starts(text) && Yields(e, false, text, got) && Ends(rest) && c.Simple?
    requires Opens(op, redirect)
    ensures ReadArgs(op + (text + rest), e, c) == ReadArgs(rest, e, WithRedirect(c, redirect.(path := got.text), got.noise))
  {
    hide ReadWord, RedirectAt, Yields, HasPrefix, Skip, ReadPath;
    var s := op + (text + rest);
    assert s[0] == op[0] && op[0] !in " ;";
    RedirectHere(op, redirect, text + rest);
    PathHere(e, text, got, rest);
  }

  lemma {:induction false} PathHere(e: Env, text: string, got: Got, rest: string)
    requires Starts(text) && Yields(e, false, text, got) && Ends(rest)
    ensures ReadPath(text + rest, e) == Some((got, rest)) && ReadPath(" " + (text + rest), e) == Some((got, rest))
  {
    hide ReadWord, Yields;
    SkipNone(text + rest);
    WholeWord(e, false, text, got, rest);
  }

  lemma {:induction false} RedirectHere(op: string, redirect: Redirect, more: string)
    requires Starts(more)
    requires Opens(op, redirect)
    ensures var s := op + more; !HasPrefix(s, "2>&1") && RedirectAt(s).Some? && RedirectAt(s).value.0 == redirect
    ensures var s := op + more; var n := RedirectAt(s).value.1; s[n..] == more || s[n..] == " " + more
  {
    var s := op + more;
    assert s[0] == op[0];
    if op != "2>" { NoPrefix(s, "2>&1"); }
    assert s[|op|..] == more && s[|op|] == more[0];
    if op == "2>" {
      assert s[..2] == "2>" && s[..3][2] == more[0] && (|s| >= 4 ==> s[..4][2] == more[0]);
    } else if op == "> " {
      NoPrefix(s, "2>");
      assert s[..1] == ">" && s[..2] == "> " && s[1..] == " " + more;
    } else if op == ">> " {
      NoPrefix(s, "2>");
      assert s[..2] == ">>" && s[2..] == " " + more;
    } else {
      NoPrefix(s, "2>");
      NoPrefix(s, ">>");
      NoPrefix(s, ">");
      assert s[..1] == "<" && s[1..] == " " + more;
    }
  }

  lemma {:induction false} NoPrefix(s: string, with: string)
    requires s != "" && with != "" && s[0] != with[0]
    ensures !HasPrefix(s, with)
  {
    assert |with| <= |s| ==> s[..|with|][0] == s[0];
  }

  lemma {:induction false} ArgsDup(e: Env, rest: string, c: Command)
    requires Ends(rest) && c.Simple?
    ensures ReadArgs("2>&1" + rest, e, c) == ReadArgs(rest, e, WithRedirect(c, ErrDup, ""))
  {
    var s := "2>&1" + rest;
    assert s[..4] == "2>&1" && s[4..] == rest && s[0] == '2';
  }

  /** One argument as it is spelled, and what it expands to. */
  datatype Arg = Plain(text: string, got: Got) | File(op: string, redirect: Redirect, text: string, got: Got) | Dup

  function Spelled(arg: Arg): string {
    match arg
    case Plain(text, _) => text
    case File(op, _, text, _) => op + text
    case Dup => "2>&1"
  }

  function Spelling(args: seq<Arg>): string {
    if args == [] then "" else if |args| == 1 then Spelled(args[0]) else Spelled(args[0]) + (" " + Spelling(args[1..]))
  }

  ghost predicate Expands(e: Env, arg: Arg) {
    match arg
    case Plain(text, got) => Starts(text) && Yields(e, false, text, got)
    case File(op, redirect, text, got) =>
      Starts(text) && Yields(e, false, text, got) &&
      Opens(op, redirect)
    case Dup => true
  }

  ghost predicate AllExpand(e: Env, args: seq<Arg>) { forall i :: 0 <= i < |args| ==> Expands(e, args[i]) }

  function With(c: Command, arg: Arg): (r: Command)
    requires c.Simple?
    ensures r.Simple?
  {
    match arg
    case Plain(_, got) => WithWord(c, got)
    case File(_, redirect, _, got) =>
      if redirect.ErrDup? then c else WithRedirect(c, redirect.(path := got.text), got.noise)
    case Dup => WithRedirect(c, ErrDup, "")
  }

  function WithAll(c: Command, args: seq<Arg>): Command
    requires c.Simple?
    decreases |args|
  {
    if args == [] then c else WithAll(With(c, args[0]), args[1..])
  }

  lemma {:induction false} ArgsOne(e: Env, arg: Arg, rest: string, c: Command)
    requires Expands(e, arg) && Ends(rest) && c.Simple?
    ensures ReadArgs(Spelled(arg) + rest, e, c) == ReadArgs(rest, e, With(c, arg))
  {
    hide ReadArgs, Yields;
    match arg
    case Plain(text, got) => ArgsWord(e, text, got, rest, c);
    case File(op, redirect, text, got) =>
      assert op + text + rest == op + (text + rest);
      ArgsRedirect(e, op, redirect, text, got, rest, c);
    case Dup => ArgsDup(e, rest, c);
  }

  lemma {:induction false} PlainExpands(e: Env, text: string, got: Got)
    requires Starts(text) && Yields(e, false, text, got)
    ensures Expands(e, Plain(text, got))
  {
    hide Yields, Starts;
  }

  /** A word without quotes stands for itself. */
  lemma {:induction false} BareExpands(e: Env, text: string)
    requires IsBare(text) && Starts(text)
    ensures Expands(e, Plain(text, Silent(text)))
  {
    hide Yields, Starts, IsBare;
    BareYields(e, false, text);
    PlainExpands(e, text, Silent(text));
  }

  lemma {:induction false} FileExpands(e: Env, op: string, redirect: Redirect, text: string, got: Got)
    requires Starts(text) && Yields(e, false, text, got) && Opens(op, redirect)
    ensures Expands(e, File(op, redirect, text, got))
  {
    hide Yields, Starts, Opens;
  }

  lemma {:induction false} NullExpands(e: Env)
    ensures Expands(e, File("2>", ErrInto(""), NULL, Silent(NULL))) && Expands(e, File("< ", From(""), NULL, Silent(NULL)))
  {
    hide Yields;
    assert IsBare(NULL);
    BareYields(e, false, NULL);
  }

  lemma {:induction false} BothExpand(e: Env, a: Arg, b: Arg)
    requires Expands(e, a) && Expands(e, b)
    ensures AllExpand(e, [a, b])
  {
    hide Expands;
  }

  lemma {:induction false} ThreeExpand(e: Env, a: Arg, b: Arg, c: Arg)
    requires Expands(e, a) && Expands(e, b) && Expands(e, c)
    ensures AllExpand(e, [a, b, c])
  {
    hide Expands;
  }

  /** A command's arguments are read in order. */
  lemma {:induction false} ArgsAll(e: Env, args: seq<Arg>, rest: string, c: Command)
    requires AllExpand(e, args) && (rest == "" || rest[0] == ';') && c.Simple?
    ensures ReadArgs(Spelling(args) + rest, e, c) == Some((WithAll(c, args), rest))
    decreases |args|
  {
    hide ReadArgs, Expands, With, Spelled;
    if args == [] {
      assert "" + rest == rest;
      ArgsEnd(rest, e, c);
    } else if |args| == 1 {
      ArgsOne(e, args[0], rest, c);
      ArgsEnd(rest, e, With(c, args[0]));
    } else {
      var more := " " + Spelling(args[1..]) + rest;
      assert Spelling(args) + rest == Spelled(args[0]) + more;
      ArgsOne(e, args[0], more, c);
      assert more == " " + (Spelling(args[1..]) + rest);
      ArgsBlank(Spelling(args[1..]) + rest, e, With(c, args[0]));
      ArgsAll(e, args[1..], rest, With(c, args[0]));
    }
  }

  /** The shell reads the text as this command, at the end of a line or before a semicolon. */
  ghost predicate ReadsAs(e: Env, text: string, c: Command) {
    text != "" && text[0] != ' ' &&
    forall rest :: (rest == "" || rest[0] == ';') ==> ReadCommand(text + rest, e) == Some((c, rest))
  }

  /** A command whose first word is a plain name. */
  lemma {:induction false} SimpleReads(e: Env, name: string, args: seq<Arg>)
    requires IsName(name) && name != "" && name[0] != '2' && args != [] && AllExpand(e, args)
    ensures ReadsAs(e, name + (" " + Spelling(args)), WithAll(WithWord(NOTHING, Silent(name)), args))
  {
    hide ReadArgs, Yields, Expands, IsName, WithAll, Spelling;
    var text := name + (" " + Spelling(args));
    var c := WithAll(WithWord(NOTHING, Silent(name)), args);
    NameIsBare(e, name);
    forall rest | rest == "" || rest[0] == ';' ensures ReadCommand(text + rest, e) == Some((c, rest)) {
      var more := " " + (Spelling(args) + rest);
      assert text + rest == name + more;
      SkipNone(text + rest);
      NameEnds(name, more);
      ArgsWord(e, name, Silent(name), more, NOTHING);
      ArgsBlank(Spelling(args) + rest, e, WithWord(NOTHING, Silent(name)));
      ArgsAll(e, args, rest, WithWord(NOTHING, Silent(name)));
    }
  }

  lemma {:induction false} NameIsBare(e: Env, name: string)
    requires IsName(name) && name != ""
    ensures Yields(e, false, name, Silent(name)) && name[0] != ' ' && (name[0] != '2' ==> Starts(name))
  {
    hide Yields;
    assert IsNameChar(name[0]);
    BareYields(e, false, name);
  }

  lemma {:induction false} AssignReads(e: Env, name: string, text: string, got: Got)
    requires IsName(name) && name != "" && name[0] == '_' && Yields(e, true, text, got)
    ensures ReadsAs(e, name + ("=" + text), Assign(name, got.text, got.noise))
  {
    hide ReadWord, ReadArgs, Yields, IsName;
    var whole := name + ("=" + text);
    forall rest | rest == "" || rest[0] == ';'
      ensures ReadCommand(whole + rest, e) == Some((Assign(name, got.text, got.noise), rest))
    {
      var more := "=" + (text + rest);
      assert whole + rest == name + more;
      SkipNone(whole + rest);
      NameEnds(name, more);
      DropPrefix(name, more);
      assert (name + more)[|name| + 1..] == more[1..] == text + rest;
      WholeWord(e, true, text, got, rest);
    }
  }

  // ------------------------------------------------------------------------------ what substitutions give

  function Inner(sh: Sh): Env { Env(sh.vars, sh.status, (t: string) => None) }

  lemma {:induction false} ReadInner(host: Host, sh: Sh, script: string, words: seq<string>, redirects: seq<Redirect>)
    requires ReadsAs(Inner(sh), script, Simple(words, redirects, ""))
    ensures Substitute(host, sh, script) ==
            var ran := Execute(host, sh.(screen := ""), words, redirects, Caught);
            if ran.None? || ran.value.0.files != sh.files || ran.value.0.tty != sh.tty then None
            else Some(Got(Substituted(host, ran.value.1), ran.value.0.screen))
  {
    hide ReadCommand, Execute;
    assert script + "" == script;
    assert ReadCommand(script + "", Inner(sh)) == Some((Simple(words, redirects, ""), ""));
  }

  /** A line of output without NUL loses its line end, and nothing else. */
  lemma {:induction false} OneLine(host: Host, text: string)
    requires '\0' !in text && '\n' !in text
    ensures Substituted(host, text + "\n") == text && Substituted(host, "") == ""
  {
    var out := text + "\n";
    assert out[..|out| - 1] == text && out[|out| - 1] == '\n';
    assert Trimmed(out) == Trimmed(text);
    if text != "" { assert text[|text| - 1] in text; }
    assert forall i :: 0 <= i < |out| ==> out[i] == if i < |text| then text[i] else '\n';
  }

  lemma {:induction false} DeliverOne(tty: Tty, io: Io, write: Write, shown: Shown)
    ensures DeliverAll(tty, io, [write], shown) == Deliver(tty, if write.toErr then io.err else io.out, write.text, shown)
    ensures DeliverAll(tty, io, [], shown) == shown
  {
    assert [write][1..] == [];
  }

  lemma {:induction false} OneRedirect(host: Host, redirect: Redirect, io: Io)
    requires io.ready
    ensures Redirected(host, [redirect], io) ==
            match redirect
            case From(path) =>
              if path == NULL then io.(stdin := "")
              else if path in io.files then io.(stdin := io.files[path])
              else io.(ready := false, complaint := host.complaint(path))
            case Into(path) => OpenOut(path, io, false, false)
            case Onto(path) => OpenOut(path, io, true, false)
            case ErrInto(path) => OpenOut(path, io, false, true)
            case ErrDup => io.(err := io.out)
  {
    assert [redirect][1..] == [];
  }

  lemma {:induction false} MoreRedirects(host: Host, first: Redirect, rest: seq<Redirect>, io: Io)
    requires io.ready
    ensures Redirected(host, [first] + rest, io) == Redirected(host, rest, Redirected(host, [first], io))
  {
    assert ([first] + rest)[1..] == rest && [first][1..] == [];
  }

  lemma {:induction false} MakesTemp(host: Host, sh: Sh)
    requires '\0' !in host.temp && '\n' !in host.temp
    ensures Substitute(host, sh, "mktemp -d") == Some(Silent(host.temp)) && ScriptEnds("mktemp -d")
  {
    hide Execute, Substitute, ReadsAs, Yields, ScriptData;
    var e, args := Inner(sh), [Plain("-d", Silent("-d"))];
    BareYields(e, false, "-d");
    SimpleReads(e, "mktemp", args);
    assert "mktemp" + (" " + Spelling(args)) == "mktemp -d";
    TwoWords("mktemp", args[0]);
    ReadInner(host, sh, "mktemp -d", ["mktemp", "-d"], []);
    RunsMktemp(host, sh.(screen := ""));
    OneLine(host, host.temp);
    PlainScript("mktemp -d") by { assert ScriptData("mktemp -d") by { IsScriptData(); } }
  }

  lemma {:induction false} IsScriptData()
    ensures ScriptData("mktemp -d") && ScriptData("stty -g 2>/dev/null") && ScriptData("base64 -d < ") && ScriptData("/c")
  {
  }

  lemma {:induction false} TwoWords(name: string, arg: Arg)
    requires arg.Plain? && arg.got.noise == ""
    ensures WithAll(WithWord(NOTHING, Silent(name)), [arg]) == Simple([name, arg.got.text], [], "")
  {
    assert [arg][1..] == [] && [] + [name] + [arg.got.text] == [name, arg.got.text];
  }

  lemma {:induction false} RunsMktemp(host: Host, sh: Sh)
    ensures Execute(host, sh, ["mktemp", "-d"], [], Caught) == Some((sh.(status := 0), host.temp + "\n"))
  {
    DeliverOne(sh.tty, Io("", Caught, Screen, sh.files, true, ""), Write(false, host.temp + "\n"), Shown(sh.files, sh.screen, ""));
    assert "" + (host.temp + "\n") == host.temp + "\n";
  }

  lemma {:induction false} SavesSettings(host: Host, sh: Sh)
    requires '\0' !in sh.tty.others && '\n' !in sh.tty.others
    ensures Substitute(host, sh, "stty -g 2>/dev/null") == Some(Silent(Saved(sh.tty))) && ScriptEnds("stty -g 2>/dev/null")
  {
    hide Execute, Substitute, ReadsAs, ScriptData, Saved, Substituted;
    SaveReads(Inner(sh));
    ReadInner(host, sh, "stty -g 2>/dev/null", ["stty", "-g"], [ErrInto(NULL)]);
    RunsSave(host, sh.(screen := ""));
    SavedIsPlain(sh.tty);
    OneLine(host, Saved(sh.tty));
    IsScriptData();
    PlainScript("stty -g 2>/dev/null");
  }

  /** `stty` with one word and its complaints thrown away. */
  lemma {:induction false} SttyReads(e: Env, text: string, got: Got)
    requires Expands(e, Plain(text, got)) && got.noise == ""
    ensures ReadsAs(e, "stty " + (text + " 2>/dev/null"), Simple(["stty", got.text], [ErrInto(NULL)], ""))
  {
    hide ReadsAs, Expands, WithAll, Spelling;
    var a, b := Plain(text, got), File("2>", ErrInto(""), NULL, Silent(NULL));
    NullExpands(e);
    BothExpand(e, a, b);
    SimpleReads(e, "stty", [a, b]) by { assert IsName("stty") by { UtilityNames(); } }
    Spelled2(a, b);
    assert "stty" + (" " + (text + (" " + ("2>" + NULL)))) == "stty " + (text + " 2>/dev/null");
    OneFile("stty", a, b);
  }

  lemma {:induction false} SaveReads(e: Env)
    ensures ReadsAs(e, "stty -g 2>/dev/null", Simple(["stty", "-g"], [ErrInto(NULL)], ""))
    ensures ReadsAs(e, "stty -opost 2>/dev/null", Simple(["stty", "-opost"], [ErrInto(NULL)], ""))
  {
    hide ReadsAs, Expands;
    OptionsAreBare();
    BareExpands(e, "-g");
    BareExpands(e, "-opost");
    SttyReads(e, "-g", Silent("-g"));
    SttyReads(e, "-opost", Silent("-opost"));
    assert "stty " + ("-g" + " 2>/dev/null") == "stty -g 2>/dev/null";
    assert "stty " + ("-opost" + " 2>/dev/null") == "stty -opost 2>/dev/null";
  }

  lemma {:induction false} OptionsAreBare()
    ensures IsBare("-g") && Starts("-g") && IsBare("-opost") && Starts("-opost") && IsBare("-d") && Starts("-d")
    ensures IsBare("%s") && Starts("%s") && IsBare("-rf") && Starts("-rf")
  {
  }

  lemma {:induction false} SavedIsPlain(tty: Tty)
    requires '\0' !in tty.others && '\n' !in tty.others
    ensures '\0' !in Saved(tty) && '\n' !in Saved(tty) && Load(Saved(tty)) == Some(tty)
    ensures Saved(tty) != "-g" && Saved(tty) != "-opost"
  {
    var s := Saved(tty);
    assert s[1..] == tty.others && (s[0] == '0' || s[0] == '1');
    assert forall i :: 1 <= i < |s| ==> s[i] == tty.others[i - 1];
  }

  lemma {:induction false} Spelled2(a: Arg, b: Arg)
    ensures Spelling([a, b]) == Spelled(a) + (" " + Spelled(b))
  {
    assert [a, b][1..] == [b];
  }

  lemma {:induction false} Spelled3(a: Arg, b: Arg, c: Arg)
    ensures Spelling([a, b, c]) == Spelled(a) + (" " + (Spelled(b) + (" " + Spelled(c))))
  {
    assert [a, b, c][1..] == [b, c];
    Spelled2(b, c);
  }

  lemma {:induction false} OneFile(name: string, arg: Arg, file: Arg)
    requires arg.Plain? && arg.got.noise == "" && file.File? && file.got.noise == "" && !file.redirect.ErrDup?
    ensures WithAll(WithWord(NOTHING, Silent(name)), [arg, file])
            == Simple([name, arg.got.text], [file.redirect.(path := file.got.text)], "")
  {
    assert [arg, file][1..] == [file] && [file][1..] == [];
    var c := WithWord(NOTHING, Silent(name));
    assert WithAll(c, [arg, file]) == WithAll(With(c, arg), [file]) == With(With(c, arg), file);
    assert "" + "" == "";
    assert [] + [name] + [arg.got.text] == [name, arg.got.text];
    assert [] + [file.redirect.(path := file.got.text)] == [file.redirect.(path := file.got.text)];
  }

  lemma {:induction false} TwoFiles(name: string, arg: Arg, a: Arg, b: Arg)
    requires arg.Plain? && arg.got.noise == "" && a.File? && a.got.noise == "" && !a.redirect.ErrDup?
    requires b.Dup? || (b.File? && b.got.noise == "" && !b.redirect.ErrDup?)
    ensures WithAll(WithWord(NOTHING, Silent(name)), [arg, a, b])
            == Simple([name, arg.got.text],
                      [a.redirect.(path := a.got.text), if b.Dup? then ErrDup else b.redirect.(path := b.got.text)], "")
  {
    var first := a.redirect.(path := a.got.text);
    var second := if b.Dup? then ErrDup else b.redirect.(path := b.got.text);
    OneFile(name, arg, a);
    AllMore(WithWord(NOTHING, Silent(name)), [arg, a], b);
    assert [arg, a] + [b] == [arg, a, b];
    assert [first] + [second] == [first, second] && "" + "" == "";
  }

  lemma {:induction false} AllMore(c: Command, args: seq<Arg>, arg: Arg)
    requires c.Simple?
    ensures WithAll(c, args + [arg]).Simple? && WithAll(c, args).Simple?
    ensures WithAll(c, args + [arg]) == With(WithAll(c, args), arg)
    decreases |args|
  {
    hide With;
    if args == [] {
      assert args + [arg] == [arg] && [arg][1..] == [];
    } else {
      assert (args + [arg])[1..] == args[1..] + [arg];
      AllMore(With(c, args[0]), args[1..], arg);
    }
  }

  lemma {:induction false} RunsSave(host: Host, sh: Sh)
    ensures Execute(host, sh, ["stty", "-g"], [ErrInto(NULL)], Caught) == Some((sh.(status := 0), Saved(sh.tty) + "\n"))
  {
    hide Saved;
    var io := Io("", Caught, Screen, sh.files, true, "");
    OneRedirect(host, ErrInto(NULL), io);
    assert Redirected(host, [ErrInto(NULL)], io) == io.(err := Nowhere);
    assert Utility(host, sh, ["stty", "-g"], "") == Some(Printing(sh, Saved(sh.tty) + "\n"));
    DeliverOne(sh.tty, io.(err := Nowhere), Write(false, Saved(sh.tty) + "\n"), Shown(sh.files, sh.screen, ""));
    assert "" + (Saved(sh.tty) + "\n") == Saved(sh.tty) + "\n";
  }

  // -------------------------------------------------------------------------------- the run's own files

  function Dir(token: string): string { Var(token) + "d" }

  /** What `$(base64 -d < ..)` reads. */
  function Fetch(token: string): string { "base64 -d < " + (Tmp(token) + "/c") }

  /** The temporary directory is known to the shell. */
  predicate Knows(host: Host, sh: Sh, token: string) {
    IsToken(token) && Dir(token) in sh.vars && sh.vars[Dir(token)] == host.temp && host.temp != ""
  }

  lemma {:induction false} FileYields(e: Env, token: string, name: string)
    requires IsToken(token) && Dir(token) in e.vars && e.vars[Dir(token)] != "" && IsBare(name)
    ensures Yields(e, false, Tmp(token) + name, Silent(e.vars[Dir(token)] + name)) && Starts(Tmp(token) + name)
  {
    hide Yields, IsBare, Tmp;
    TmpYields(e, false, token);
    BareYields(e, false, name);
    YieldsBoth(e, false, Tmp(token), Silent(e.vars[Dir(token)]), name, Silent(name));
    TmpStarts(token, name);
    assert "" + "" == "";
  }

  lemma {:induction false} TmpStarts(token: string, name: string)
    ensures Starts(Tmp(token) + name)
  {
    assert (Tmp(token) + name)[0] == '"';
  }

  lemma {:induction false} FetchEnds(token: string)
    requires IsToken(token)
    ensures ScriptEnds(Fetch(token))
  {
    hide ScriptEnds, ScriptData;
    IsScriptData();
    var b := "${" + (Var(token) + "d:?}");
    RequiredIsData(token);
    QuotedScript("base64 -d < ", b, "/c");
    assert Tmp(token) == Quoted(b);
  }

  lemma {:induction false} RequiredIsData(token: string)
    requires IsToken(token)
    ensures ScriptData("${" + (Var(token) + "d:?}"))
  {
    forall i | 0 <= i < |token| ensures token[i] !in "()\"\\`'" { assert IsHex(token[i]); }
  }

  /** What the shell makes of the command's text: it is decoded, and loses its last line ends. Without a file there is none,
      and the shell complains. */
  function Fetched(host: Host, sh: Sh): Got {
    var path := host.temp + "/c";
    if path !in sh.files then Got("", Rendered(sh.tty, host.complaint(path)))
    else
      var data := Base64.Decode(sh.files[path]);
      if data.None? then Got("", Rendered(sh.tty, "base64: invalid input\n")) else Silent(Substituted(host, data.value))
  }

  lemma {:induction false} Fetches(host: Host, sh: Sh, token: string)
    requires Knows(host, sh, token) && host.temp + "/c" != NULL
    ensures Substitute(host, sh, Fetch(token)) == Some(Fetched(host, sh))
  {
    hide Execute, Substitute, ReadsAs, Tmp, Base64.Decode, Rendered, Substituted;
    FetchReads(Inner(sh), token);
    ReadInner(host, sh, Fetch(token), ["base64", "-d"], [From(host.temp + "/c")]);
    RunsFetch(host, sh.(screen := ""));
  }

  lemma {:induction false} FetchReads(e: Env, token: string)
    requires IsToken(token) && Dir(token) in e.vars && e.vars[Dir(token)] != ""
    ensures ReadsAs(e, Fetch(token), Simple(["base64", "-d"], [From(e.vars[Dir(token)] + "/c")], ""))
  {
    hide ReadsAs, Yields, Tmp, IsBare, Expands, WithAll, Spelling, Starts, Opens, AllExpand;
    var path := e.vars[Dir(token)] + "/c";
    NamesAreBare(e);
    OptionsAreBare();
    BareExpands(e, "-d");
    FileYields(e, token, "/c");
    AllOpen();
    FileExpands(e, "< ", From(""), Tmp(token) + "/c", Silent(path));
    var a, b := Plain("-d", Silent("-d")), File("< ", From(""), Tmp(token) + "/c", Silent(path));
    BothExpand(e, a, b);
    SimpleReads(e, "base64", [a, b]) by { assert IsName("base64") by { UtilityNames(); } }
    Spelled2(a, b);
    assert "base64" + (" " + ("-d" + (" " + ("< " + (Tmp(token) + "/c"))))) == Fetch(token);
    OneFile("base64", a, b);
  }

  lemma {:induction false} RunsFetch(host: Host, sh: Sh)
    requires host.temp + "/c" != NULL && sh.screen == ""
    ensures var ran := Execute(host, sh, ["base64", "-d"], [From(host.temp + "/c")], Caught);
            ran.Some? && ran.value.0.files == sh.files && ran.value.0.tty == sh.tty
            && Got(Substituted(host, ran.value.1), ran.value.0.screen) == Fetched(host, sh)
  {
    hide Base64.Decode, Rendered;
    var path := host.temp + "/c";
    var io := Io("", Caught, Screen, sh.files, true, "");
    var shown := Shown(sh.files, sh.screen, "");
    OneRedirect(host, From(path), io);
    NothingCaught(host);
    if path in sh.files {
      var read := io.(stdin := sh.files[path]);
      var data := Base64.Decode(sh.files[path]);
      DeliverOne(sh.tty, read, if data.None? then Write(true, "base64: invalid input\n") else Write(false, data.value), shown);
      if data.Some? { assert "" + data.value == data.value; }
    }
    assert forall text: string :: "" + text == text;
  }

  lemma {:induction false} NothingCaught(host: Host)
    ensures Substituted(host, "") == ""
  {
  }

  // ---------------------------------------------------------------------------- what each typed command does

  /** The shell reads the text as one command, and running it leads here. */
  ghost predicate Does(host: Host, sh: Sh, text: string, after: Sh) {
    exists c :: ReadsAs(EnvOf(host, sh), text, c) && Run(host, sh, c) == Some(after)
  }

  lemma {:induction false} DoesSimple(host: Host, sh: Sh, text: string, words: seq<string>, redirects: seq<Redirect>,
                                      noise: string, after: Sh)
    requires ReadsAs(EnvOf(host, sh), text, Simple(words, redirects, noise))
    requires var ran := Execute(host, sh.(screen := sh.screen + noise), words, redirects, Screen);
             ran.Some? && ran.value.0 == after
    ensures Does(host, sh, text, after)
  {
    hide Execute, ReadsAs;
    var c := Simple(words, redirects, noise);
    assert ReadsAs(EnvOf(host, sh), text, c) && Run(host, sh, c) == Some(after);
  }

  lemma {:induction false} NoNoise(sh: Sh)
    ensures sh.(screen := sh.screen + "") == sh
  {
    assert sh.screen + "" == sh.screen;
  }

  lemma {:induction false} DoesAssign(host: Host, sh: Sh, name: string, text: string, value: string)
    requires IsName(name) && name != "" && name[0] == '_' && Yields(EnvOf(host, sh), true, text, Silent(value))
    ensures Does(host, sh, name + ("=" + text), sh.(vars := sh.vars[name := value], status := 0))
  {
    hide ReadsAs, Yields, IsName;
    var c := Assign(name, value, "");
    AssignReads(EnvOf(host, sh), name, text, Silent(value));
    NoNoise(sh);
    assert ReadsAs(EnvOf(host, sh), name + ("=" + text), c) && Run(host, sh, c) == Some(sh.(vars := sh.vars[name := value], status := 0));
  }

  lemma {:induction false} EnvIs(host: Host, sh: Sh, script: string)
    ensures var e := EnvOf(host, sh); e.vars == sh.vars && e.status == sh.status && e.subst(script) == Substitute(host, sh, script)
  {
  }

  lemma {:induction false} DoesTemp(host: Host, sh: Sh, token: string)
    requires IsToken(token) && '\0' !in host.temp && '\n' !in host.temp
    ensures Does(host, sh, Var(token) + "d=$(mktemp -d)", sh.(vars := sh.vars[Dir(token) := host.temp], status := 0))
  {
    hide Substitute, Does, Yields, IsName, ScriptEnds;
    OwnName(token);
    MakesTemp(host, sh);
    EnvIs(host, sh, "mktemp -d");
    SubstYields(EnvOf(host, sh), "mktemp -d", Silent(host.temp));
    DoesAssign(host, sh, Dir(token), InDollar("mktemp -d"), host.temp);
    assert Dir(token) + ("=" + InDollar("mktemp -d")) == Var(token) + "d=$(mktemp -d)";
  }

  lemma {:induction false} DoesSave(host: Host, sh: Sh, token: string)
    requires IsToken(token) && '\0' !in sh.tty.others && '\n' !in sh.tty.others
    ensures Does(host, sh, Var(token) + "s=$(stty -g 2>/dev/null)",
                 sh.(vars := sh.vars[Var(token) + "s" := Saved(sh.tty)], status := 0))
  {
    hide Substitute, Does, Yields, IsName, ScriptEnds, Saved;
    var name, script := Var(token) + "s", "stty -g 2>/dev/null";
    OwnName(token);
    SavesSettings(host, sh);
    EnvIs(host, sh, script);
    SubstYields(EnvOf(host, sh), script, Silent(Saved(sh.tty)));
    DoesAssign(host, sh, name, InDollar(script), Saved(sh.tty));
    assert name + ("=" + InDollar(script)) == Var(token) + "s=$(stty -g 2>/dev/null)";
  }

  lemma {:induction false} DoesKeep(host: Host, sh: Sh, token: string)
    requires IsToken(token)
    ensures Does(host, sh, Var(token) + "r=$?", sh.(vars := sh.vars[Var(token) + "r" := Decimal(sh.status)], status := 0))
  {
    hide Does, Yields, IsName, Decimal;
    OwnName(token);
    StatusYields(EnvOf(host, sh));
    DoesAssign(host, sh, Var(token) + "r", "$?", Decimal(sh.status));
    assert Var(token) + "r" + ("=" + "$?") == Var(token) + "r=$?";
  }

  function Plains(parts: seq<string>, values: seq<string>): seq<Arg>
    requires |parts| == |values|
  {
    seq(|parts|, i requires 0 <= i < |parts| => Plain(Quoted(parts[i]), Silent(values[i])))
  }

  lemma {:induction false} PlainsSpelled(parts: seq<string>, values: seq<string>)
    requires |parts| == |values|
    ensures Spelling(Plains(parts, values)) == TypedLines.Words(parts)
  {
    hide Quoted;
    if |parts| > 1 {
      PlainsSpelled(parts[1..], values[1..]);
      assert Plains(parts, values)[1..] == Plains(parts[1..], values[1..]);
    }
  }

  lemma {:induction false} PlainsGive(c: Command, parts: seq<string>, values: seq<string>)
    requires |parts| == |values| && c.Simple?
    ensures WithAll(c, Plains(parts, values)) == c.(words := c.words + values)
    decreases |parts|
  {
    hide Quoted;
    if parts == [] {
      assert c.words + values == c.words;
    } else {
      var args := Plains(parts, values);
      assert args[1..] == Plains(parts[1..], values[1..]);
      PlainsGive(With(c, args[0]), parts[1..], values[1..]);
      assert c.words + [values[0]] + values[1..] == c.words + values;
      assert c.noise + "" == c.noise;
    }
  }

  /** A typed printer is read as `printf`, its format and the values of its parts. */
  lemma {:induction false} PrinterReads(e: Env, parts: seq<string>, values: seq<string>)
    requires parts != [] && |parts| == |values|
    requires forall i :: 0 <= i < |parts| ==> Yields(e, false, Quoted(parts[i]), Silent(values[i]))
    ensures ReadsAs(e, Halves(parts), Simple(["printf", Times("%s", |parts|)] + values, [], ""))
  {
    hide ReadsAs, Yields, Times, TypedLines.Words, Expands, WithAll, Spelling, Plains, Quoted, Starts;
    var format := Plain(Times("%s", |parts|), Silent(Times("%s", |parts|)));
    var args := [format] + Plains(parts, values);
    FormatYields(e, |parts|);
    PlainExpands(e, format.text, format.got);
    PlainsExpand(e, parts, values);
    forall i | 0 <= i < |args| ensures Expands(e, args[i]) {
      if i > 0 { assert args[i] == Plains(parts, values)[i - 1]; }
    }
    SimpleReads(e, "printf", args) by { assert IsName("printf") by { UtilityNames(); } }
    PrinterSpelled(format, parts, values);
    PrinterIs(format, parts, values);
  }

  lemma {:induction false} PlainsExpand(e: Env, parts: seq<string>, values: seq<string>)
    requires |parts| == |values|
    requires forall i :: 0 <= i < |parts| ==> Yields(e, false, Quoted(parts[i]), Silent(values[i]))
    ensures AllExpand(e, Plains(parts, values)) && |Plains(parts, values)| == |parts|
  {
    hide Yields, Quoted, Expands;
    forall i | 0 <= i < |parts| ensures Expands(e, Plains(parts, values)[i]) {
      QuotedStarts(parts[i]);
      PlainExpands(e, Quoted(parts[i]), Silent(values[i]));
    }
  }

  lemma {:induction false} PrinterSpelled(format: Arg, parts: seq<string>, values: seq<string>)
    requires parts != [] && |parts| == |values| && format.Plain? && format.text == Times("%s", |parts|)
    ensures "printf" + (" " + Spelling([format] + Plains(parts, values))) == Halves(parts)
  {
    hide Times, TypedLines.Words, Quoted;
    var args := [format] + Plains(parts, values);
    PlainsSpelled(parts, values);
    assert args[1..] == Plains(parts, values);
    assert Spelling(args) == format.text + (" " + TypedLines.Words(parts));
    assert "printf" + (" " + (format.text + (" " + TypedLines.Words(parts)))) == Halves(parts);
  }

  lemma {:induction false} PrinterIs(format: Arg, parts: seq<string>, values: seq<string>)
    requires |parts| == |values| && format.Plain? && format.got.noise == ""
    ensures WithAll(WithWord(NOTHING, Silent("printf")), [format] + Plains(parts, values))
            == Simple(["printf", format.got.text] + values, [], "")
  {
    hide Plains;
    var c := With(WithWord(NOTHING, Silent("printf")), format);
    assert ([format] + Plains(parts, values))[1..] == Plains(parts, values);
    PlainsGive(c, parts, values);
    assert [] + ["printf"] + [format.got.text] == ["printf", format.got.text] && "" + "" == "";
  }

  lemma {:induction false} QuotedStarts(part: string)
    ensures Starts(Quoted(part))
  {
  }

  lemma {:induction false} FormatYields(e: Env, n: nat)
    requires n > 0
    ensures Yields(e, false, Times("%s", n), Silent(Times("%s", n))) && Starts(Times("%s", n))
  {
    hide Yields;
    TimesIsBare(n);
    BareYields(e, false, Times("%s", n));
    assert Times("%s", n)[0] == '%';
  }

  /** And it prints them joined. */
  lemma {:induction false} DoesPrint(host: Host, sh: Sh, parts: seq<string>, values: seq<string>)
    requires parts != [] && |parts| == |values|
    requires forall i :: 0 <= i < |parts| ==> Yields(EnvOf(host, sh), false, Quoted(parts[i]), Silent(values[i]))
    ensures Does(host, sh, Halves(parts), sh.(screen := sh.screen + Rendered(sh.tty, Concat(values)), status := 0))
  {
    hide ReadsAs, Yields, Times, Halves, Does, Rendered, Concat, Execute;
    var words := ["printf", Times("%s", |parts|)] + values;
    PrinterReads(EnvOf(host, sh), parts, values);
    NoNoise(sh);
    RunsPrintf(host, sh, values);
    DoesSimple(host, sh, Halves(parts), words, [], "", sh.(screen := sh.screen + Rendered(sh.tty, Concat(values)), status := 0));
  }

  lemma {:induction false} RunsPrintf(host: Host, sh: Sh, values: seq<string>)
    requires values != []
    ensures Execute(host, sh, ["printf", Times("%s", |values|)] + values, [], Screen)
            == Some((sh.(screen := sh.screen + Rendered(sh.tty, Concat(values)), status := 0), ""))
  {
    hide Rendered, Concat, Times, OnePass;
    var words := ["printf", Times("%s", |values|)] + values;
    PassOverAll(values);
    assert words[2..] == values && |words| > 2;
    DeliverOne(sh.tty, Io("", Screen, Screen, sh.files, true, ""), Write(false, Concat(values)), Shown(sh.files, sh.screen, ""));
  }

  lemma {:induction false} KnowsEnv(host: Host, sh: Sh, token: string)
    requires Knows(host, sh, token)
    ensures var e := EnvOf(host, sh); Dir(token) in e.vars && e.vars[Dir(token)] == host.temp != ""
  {
  }

  lemma {:induction false} NamesAreBare(e: Env)
    ensures IsBare("/c") && IsBare("/i") && IsBare("/f") && IsBare("/e") && IsBare("-d") && IsBare("-rf") && IsBare("%s")
    ensures IsBare("-opost") && IsBare(NULL)
  {
  }

  /** A file of the run is none of the shell's own. */
  predicate OwnFiles(host: Host) {
    host.temp + "/c" != NULL && host.temp + "/i" != NULL && host.temp + "/f" != NULL && host.temp + "/e" != NULL
  }

  /** A piece is appended to its file. */
  lemma {:induction false} DoesAppend(host: Host, sh: Sh, token: string, piece: string, name: string)
    requires Knows(host, sh, token) && OwnFiles(host) && LoginShell.NoQuoteNoSlash(piece) && name in ["/c", "/i"]
    ensures var path := host.temp + name;
            Does(host, sh, AppendLine(piece, token, name),
                 sh.(files := sh.files[path := Content(sh.files, path) + piece], status := 0))
  {
    hide ReadsAs, Does, Execute, Tmp, LoginShell.NoQuoteNoSlash, AppendLine;
    var path := host.temp + name;
    KnowsEnv(host, sh, token);
    AppendReads(EnvOf(host, sh), token, piece, name);
    NoNoise(sh);
    RunsAppend(host, sh, piece, path);
    DoesSimple(host, sh, AppendLine(piece, token, name), ["printf", "%s", piece], [Onto(path)], "",
               sh.(files := sh.files[path := Content(sh.files, path) + piece], status := 0));
  }

  lemma {:induction false} AppendReads(e: Env, token: string, piece: string, name: string)
    requires IsToken(token) && Dir(token) in e.vars && e.vars[Dir(token)] != ""
    requires LoginShell.NoQuoteNoSlash(piece) && name in ["/c", "/i"]
    ensures ReadsAs(e, AppendLine(piece, token, name), Simple(["printf", "%s", piece], [Onto(e.vars[Dir(token)] + name)], ""))
  {
    hide ReadsAs, Yields, Tmp, IsBare, LoginShell.NoQuoteNoSlash, Expands, WithAll, Spelling, Starts, Opens, AllExpand;
    var path, quoted := e.vars[Dir(token)] + name, "'" + (piece + "'");
    NamesAreBare(e);
    OptionsAreBare();
    BareExpands(e, "%s");
    SingleYields(e, false, piece);
    SingleStarts(piece);
    PlainExpands(e, quoted, Silent(piece));
    FileYields(e, token, name);
    AllOpen();
    FileExpands(e, ">> ", Onto(""), Tmp(token) + name, Silent(path));
    var a, b := Plain("%s", Silent("%s")), Plain(quoted, Silent(piece));
    var c := File(">> ", Onto(""), Tmp(token) + name, Silent(path));
    ThreeExpand(e, a, b, c);
    SimpleReads(e, "printf", [a, b, c]) by { assert IsName("printf") by { UtilityNames(); } }
    Spelled3(a, b, c);
    AppendSpelled(quoted, piece, Tmp(token), name);
    TwoAndFile("printf", a, b, c);
  }

  lemma {:induction false} AppendSpelled(quoted: string, piece: string, dir: string, name: string)
    requires quoted == "'" + (piece + "'")
    ensures "printf" + (" " + ("%s" + (" " + (quoted + (" " + (">> " + (dir + name)))))))
            == "printf %s '" + (piece + ("' >> " + (dir + name)))
  {
  }

  lemma {:induction false} SingleStarts(piece: string)
    ensures Starts("'" + (piece + "'"))
  {
  }

  lemma {:induction false} AllOpen()
    ensures Opens("2>", ErrInto("")) && Opens("> ", Into("")) && Opens(">> ", Onto("")) && Opens("< ", From(""))
  {
  }

  lemma {:induction false} TwoAndFile(name: string, a: Arg, b: Arg, c: Arg)
    requires a.Plain? && a.got.noise == "" && b.Plain? && b.got.noise == ""
    requires c.File? && c.got.noise == "" && !c.redirect.ErrDup?
    ensures WithAll(WithWord(NOTHING, Silent(name)), [a, b, c])
            == Simple([name, a.got.text, b.got.text], [c.redirect.(path := c.got.text)], "")
  {
    var first := WithWord(NOTHING, Silent(name));
    TwoWords(name, a);
    AllMore(first, [a], b);
    assert [a] + [b] == [a, b];
    AllMore(first, [a, b], c);
    assert [a, b] + [c] == [a, b, c];
    assert [name, a.got.text] + [b.got.text] == [name, a.got.text, b.got.text];
    assert [] + [c.redirect.(path := c.got.text)] == [c.redirect.(path := c.got.text)] && "" + "" == "";
  }

  lemma {:induction false} RunsAppend(host: Host, sh: Sh, piece: string, path: string)
    requires path != NULL
    ensures Execute(host, sh, ["printf", "%s", piece], [Onto(path)], Screen)
            == Some((sh.(files := sh.files[path := Content(sh.files, path) + piece], status := 0), ""))
  {
    hide OnePass;
    var io := Io("", Screen, Screen, sh.files, true, "");
    var begun := sh.files[path := Content(sh.files, path)];
    var wired := io.(out := ToFile(path), files := begun);
    OneRedirect(host, Onto(path), io);
    assert Redirected(host, [Onto(path)], io) == wired;
    PassOverOne(piece);
    assert ["printf", "%s", piece][2..] == [piece];
    assert Utility(host, sh.(files := begun), ["printf", "%s", piece], "") == Some(Printing(sh.(files := begun), piece));
    DeliverOne(sh.tty, wired, Write(false, piece), Shown(begun, sh.screen, ""));
    assert begun[path := begun[path] + piece] == sh.files[path := Content(sh.files, path) + piece];
  }

  /** The input's file is decoded. */
  lemma {:induction false} DoesDecode(host: Host, sh: Sh, token: string, data: string)
    requires Knows(host, sh, token) && OwnFiles(host)
    requires host.temp + "/i" in sh.files && Base64.Decode(sh.files[host.temp + "/i"]) == Some(data)
    ensures Does(host, sh, "base64 -d < " + (Tmp(token) + ("/i > " + (Tmp(token) + "/f"))),
                 sh.(files := sh.files[host.temp + "/f" := data], status := 0))
  {
    hide ReadsAs, Does, Execute, Tmp;
    KnowsEnv(host, sh, token);
    DecodeReads(EnvOf(host, sh), token);
    NoNoise(sh);
    RunsDecode(host, sh, host.temp + "/i", host.temp + "/f", data);
    DoesSimple(host, sh, "base64 -d < " + (Tmp(token) + ("/i > " + (Tmp(token) + "/f"))), ["base64", "-d"],
               [From(host.temp + "/i"), Into(host.temp + "/f")], "", sh.(files := sh.files[host.temp + "/f" := data], status := 0));
  }

  lemma {:induction false} DecodeReads(e: Env, token: string)
    requires IsToken(token) && Dir(token) in e.vars && e.vars[Dir(token)] != ""
    ensures var dir := e.vars[Dir(token)];
            ReadsAs(e, "base64 -d < " + (Tmp(token) + ("/i > " + (Tmp(token) + "/f"))),
                    Simple(["base64", "-d"], [From(dir + "/i"), Into(dir + "/f")], ""))
  {
    hide ReadsAs, Yields, Tmp, IsBare, Expands, WithAll, Spelling, Starts, Opens, AllExpand;
    var dir := e.vars[Dir(token)];
    NamesAreBare(e);
    OptionsAreBare();
    BareExpands(e, "-d");
    FileYields(e, token, "/i");
    FileYields(e, token, "/f");
    AllOpen();
    FileExpands(e, "< ", From(""), Tmp(token) + "/i", Silent(dir + "/i"));
    FileExpands(e, "> ", Into(""), Tmp(token) + "/f", Silent(dir + "/f"));
    var a := Plain("-d", Silent("-d"));
    var b := File("< ", From(""), Tmp(token) + "/i", Silent(dir + "/i"));
    var c := File("> ", Into(""), Tmp(token) + "/f", Silent(dir + "/f"));
    ThreeExpand(e, a, b, c);
    SimpleReads(e, "base64", [a, b, c]) by { assert IsName("base64") by { UtilityNames(); } }
    Spelled3(a, b, c);
    DecodeSpelled(Tmp(token));
    TwoFiles("base64", a, b, c);
  }

  lemma {:induction false} DecodeSpelled(dir: string)
    ensures "base64" + (" " + ("-d" + (" " + (("< " + (dir + "/i")) + (" " + ("> " + (dir + "/f")))))))
            == "base64 -d < " + (dir + ("/i > " + (dir + "/f")))
  {
  }

  lemma {:induction false} RunsDecode(host: Host, sh: Sh, from: string, to: string, data: string)
    requires from != NULL && to != NULL && from in sh.files && Base64.Decode(sh.files[from]) == Some(data)
    ensures Execute(host, sh, ["base64", "-d"], [From(from), Into(to)], Screen)
            == Some((sh.(files := sh.files[to := data], status := 0), ""))
  {
    hide Base64.Decode;
    var io := Io("", Screen, Screen, sh.files, true, "");
    var read := io.(stdin := sh.files[from]);
    var begun := sh.files[to := ""];
    assert [From(from)] + [Into(to)] == [From(from), Into(to)];
    MoreRedirects(host, From(from), [Into(to)], io);
    OneRedirect(host, From(from), io);
    OneRedirect(host, Into(to), read);
    var wired := read.(out := ToFile(to), files := begun);
    assert Redirected(host, [From(from), Into(to)], io) == wired;
    assert Utility(host, sh.(files := begun), ["base64", "-d"], read.stdin) == Some(Printing(sh.(files := begun), data));
    DeliverOne(sh.tty, wired, Write(false, data), Shown(begun, sh.screen, ""));
    assert "" + data == data && begun[to := data] == sh.files[to := data];
  }

  lemma {:induction false} DoesRaw(host: Host, sh: Sh)
    ensures Does(host, sh, "stty -opost 2>/dev/null", sh.(tty := sh.tty.(opost := false), status := 0))
  {
    hide ReadsAs, Does, Execute;
    SaveReads(EnvOf(host, sh));
    NoNoise(sh);
    RunsStty(host, sh, "-opost", sh.tty.(opost := false));
    DoesSimple(host, sh, "stty -opost 2>/dev/null", ["stty", "-opost"], [ErrInto(NULL)], "",
               sh.(tty := sh.tty.(opost := false), status := 0));
  }

  lemma {:induction false} RunsStty(host: Host, sh: Sh, setting: string, tty: Tty)
    requires setting != "-g"
    requires if setting == "-opost" then tty == sh.tty.(opost := false) else Load(setting) == Some(tty)
    ensures Execute(host, sh, ["stty", setting], [ErrInto(NULL)], Screen) == Some((sh.(tty := tty, status := 0), ""))
  {
    hide Load;
    var io := Io("", Screen, Screen, sh.files, true, "");
    OneRedirect(host, ErrInto(NULL), io);
    assert Redirected(host, [ErrInto(NULL)], io) == io.(err := Nowhere);
    assert Utility(host, sh, ["stty", setting], "") == Some(Ran([], sh.(tty := tty, status := 0)));
    DeliverOne(sh.tty, io.(err := Nowhere), Write(false, ""), Shown(sh.files, sh.screen, ""));
  }

  /** The settings come back from their variable. */
  lemma {:induction false} DoesRestore(host: Host, sh: Sh, token: string, tty: Tty)
    requires IsToken(token) && Var(token) + "s" in sh.vars && sh.vars[Var(token) + "s"] == Saved(tty)
    requires '\0' !in tty.others && '\n' !in tty.others
    ensures Does(host, sh, "stty \"$" + (Var(token) + "s\" 2>/dev/null"), sh.(tty := tty, status := 0))
  {
    hide ReadsAs, Yields, Does, Execute, IsName, Saved, Load, Expands;
    var e, name := EnvOf(host, sh), Var(token) + "s";
    OwnName(token);
    VarYields(e, false, name);
    QuotedStarts("$" + name);
    PlainExpands(e, Quoted("$" + name), Silent(Saved(tty)));
    SttyReads(e, Quoted("$" + name), Silent(Saved(tty)));
    RestoreSpelled(name, Var(token));
    NoNoise(sh);
    SavedIsPlain(tty);
    RunsStty(host, sh, Saved(tty), tty);
    DoesSimple(host, sh, "stty \"$" + (Var(token) + "s\" 2>/dev/null"), ["stty", Saved(tty)], [ErrInto(NULL)], "",
               sh.(tty := tty, status := 0));
  }

  lemma {:induction false} UtilityNames()
    ensures IsName("printf") && IsName("base64") && IsName("mktemp") && IsName("stty") && IsName("cat") && IsName("rm") && IsName("unset") && IsName("eval")
  {
  }

  lemma {:induction false} RestoreSpelled(name: string, own: string)
    requires name == own + "s"
    ensures "stty " + (Quoted("$" + name) + " 2>/dev/null") == "stty \"$" + (own + "s\" 2>/dev/null")
  {
  }

  lemma {:induction false} DoesRemove(host: Host, sh: Sh, token: string)
    requires Knows(host, sh, token)
    ensures Does(host, sh, "rm -rf " + Tmp(token), sh.(files := Removed(sh.files, host.temp), status := 0))
  {
    hide ReadsAs, Yields, Does, Execute, Tmp, IsBare, Removed, WithAll, Spelling;
    var e := EnvOf(host, sh);
    KnowsEnv(host, sh, token);
    NamesAreBare(e);
    BareYields(e, false, "-rf");
    TmpYields(e, false, token);
    TmpStarts(token, "");
    assert Tmp(token) + "" == Tmp(token);
    var a, b := Plain("-rf", Silent("-rf")), Plain(Tmp(token), Silent(host.temp));
    SimpleReads(e, "rm", [a, b]);
    Spelled2(a, b);
    assert "rm" + (" " + ("-rf" + (" " + Tmp(token)))) == "rm -rf " + Tmp(token);
    ThreeWords("rm", a, b);
    NoNoise(sh);
    RunsQuietly(host, sh, ["rm", "-rf", host.temp], sh.(files := Removed(sh.files, host.temp), status := 0));
    DoesSimple(host, sh, "rm -rf " + Tmp(token), ["rm", "-rf", host.temp], [], "",
               sh.(files := Removed(sh.files, host.temp), status := 0));
  }

  lemma {:induction false} ThreeWords(name: string, a: Arg, b: Arg)
    requires a.Plain? && a.got.noise == "" && b.Plain? && b.got.noise == ""
    ensures WithAll(WithWord(NOTHING, Silent(name)), [a, b]) == Simple([name, a.got.text, b.got.text], [], "")
  {
    TwoWords(name, a);
    AllMore(WithWord(NOTHING, Silent(name)), [a], b);
    assert [a] + [b] == [a, b];
    assert [name, a.got.text] + [b.got.text] == [name, a.got.text, b.got.text] && "" + "" == "";
  }

  lemma {:induction false} RunsQuietly(host: Host, sh: Sh, words: seq<string>, after: Sh)
    requires Utility(host, sh, words, "") == Some(Ran([], after)) && after.screen == sh.screen
    ensures Execute(host, sh, words, [], Screen) == Some((after, ""))
  {
    hide Utility;
    DeliverOne(sh.tty, Io("", Screen, Screen, sh.files, true, ""), Write(false, ""), Shown(after.files, sh.screen, ""));
    assert sh.(files := sh.files) == sh;
  }

  function Without(vars: map<string, string>, names: seq<string>): map<string, string> {
    map name | name in vars && name !in names :: vars[name]
  }

  function OwnVars(token: string): seq<string> { [Var(token) + "d", Var(token) + "r", Var(token) + "s"] }

  lemma {:induction false} DoesUnset(host: Host, sh: Sh, token: string)
    requires IsToken(token)
    ensures Does(host, sh, "unset " + (Var(token) + ("d " + (Var(token) + ("r " + (Var(token) + "s"))))),
                 sh.(vars := Without(sh.vars, OwnVars(token)), status := 0))
  {
    hide ReadsAs, Yields, Does, Execute, IsName, WithAll, Spelling, Var;
    var e := EnvOf(host, sh);
    var d, r, v := Var(token) + "d", Var(token) + "r", Var(token) + "s";
    OwnName(token);
    NameIsBare(e, d);
    NameIsBare(e, r);
    NameIsBare(e, v);
    var a, b, c := Plain(d, Silent(d)), Plain(r, Silent(r)), Plain(v, Silent(v));
    assert d[0] == '_' && r[0] == '_' && v[0] == '_';
    SimpleReads(e, "unset", [a, b, c]) by { assert IsName("unset") by { UtilityNames(); } }
    Spelled3(a, b, c);
    var text := "unset " + (Var(token) + ("d " + (Var(token) + ("r " + (Var(token) + "s")))));
    assert "unset" + (" " + (d + (" " + (r + (" " + v))))) == text;
    FourWordsRead("unset", a, b, c);
    NoNoise(sh);
    var words := ["unset", d, r, v];
    assert words[1..] == OwnVars(token);
    RunsQuietly(host, sh, words, sh.(vars := Without(sh.vars, OwnVars(token)), status := 0));
    DoesSimple(host, sh, text, words, [], "", sh.(vars := Without(sh.vars, OwnVars(token)), status := 0));
  }

  lemma {:induction false} FourWordsRead(name: string, a: Arg, b: Arg, c: Arg)
    requires a.Plain? && a.got.noise == "" && b.Plain? && b.got.noise == "" && c.Plain? && c.got.noise == ""
    ensures WithAll(WithWord(NOTHING, Silent(name)), [a, b, c])
            == Simple([name, a.got.text, b.got.text, c.got.text], [], "")
  {
    ThreeWords(name, a, b);
    AllMore(WithWord(NOTHING, Silent(name)), [a, b], c);
    assert [a, b] + [c] == [a, b, c];
    assert [name, a.got.text, b.got.text] + [c.got.text] == [name, a.got.text, b.got.text, c.got.text] && "" + "" == "";
  }

  /** What the command wrote to stderr is shown, if it was kept. */
  lemma {:induction false} DoesCat(host: Host, sh: Sh, token: string)
    requires Knows(host, sh, token) && OwnFiles(host)
    ensures var path := host.temp + "/e";
            Does(host, sh, "cat " + (Tmp(token) + "/e 2>/dev/null"),
                 sh.(screen := sh.screen + (if path in sh.files then Rendered(sh.tty, sh.files[path]) else ""),
                     status := if path in sh.files then 0 else 1))
  {
    hide ReadsAs, Does, Execute, Tmp, Rendered;
    var path := host.temp + "/e";
    KnowsEnv(host, sh, token);
    CatReads(EnvOf(host, sh), token);
    NoNoise(sh);
    RunsCat(host, sh, path);
    DoesSimple(host, sh, "cat " + (Tmp(token) + "/e 2>/dev/null"), ["cat", path], [ErrInto(NULL)], "",
               sh.(screen := sh.screen + (if path in sh.files then Rendered(sh.tty, sh.files[path]) else ""),
                   status := if path in sh.files then 0 else 1));
  }

  lemma {:induction false} CatReads(e: Env, token: string)
    requires IsToken(token) && Dir(token) in e.vars && e.vars[Dir(token)] != ""
    ensures ReadsAs(e, "cat " + (Tmp(token) + "/e 2>/dev/null"),
                    Simple(["cat", e.vars[Dir(token)] + "/e"], [ErrInto(NULL)], ""))
  {
    hide ReadsAs, Yields, Tmp, IsBare, Expands, WithAll, Spelling, Starts, AllExpand;
    var path := e.vars[Dir(token)] + "/e";
    NamesAreBare(e);
    FileYields(e, token, "/e");
    PlainExpands(e, Tmp(token) + "/e", Silent(path));
    NullExpands(e);
    var a, b := Plain(Tmp(token) + "/e", Silent(path)), File("2>", ErrInto(""), NULL, Silent(NULL));
    BothExpand(e, a, b);
    SimpleReads(e, "cat", [a, b]) by { assert IsName("cat") by { UtilityNames(); } }
    Spelled2(a, b);
    assert "cat" + (" " + ((Tmp(token) + "/e") + (" " + ("2>" + NULL)))) == "cat " + (Tmp(token) + "/e 2>/dev/null");
    OneFile("cat", a, b);
  }

  lemma {:induction false} RunsCat(host: Host, sh: Sh, path: string)
    ensures Execute(host, sh, ["cat", path], [ErrInto(NULL)], Screen)
            == Some((sh.(screen := sh.screen + (if path in sh.files then Rendered(sh.tty, sh.files[path]) else ""),
                         status := if path in sh.files then 0 else 1), ""))
  {
    hide Rendered;
    var io := Io("", Screen, Screen, sh.files, true, "");
    OneRedirect(host, ErrInto(NULL), io);
    assert Redirected(host, [ErrInto(NULL)], io) == io.(err := Nowhere);
    DeliverOne(sh.tty, io.(err := Nowhere),
               if path in sh.files then Write(false, sh.files[path]) else Write(true, "cat: no such file\n"),
               Shown(sh.files, sh.screen, ""));
    assert sh.screen + "" == sh.screen;
  }

  // --------------------------------------------------------------------------------- the command itself

  /** What was written to one stream, and to both in order. */
  function Stream(writes: seq<Write>, toErr: bool): string {
    if writes == [] then "" else (if writes[0].toErr == toErr then writes[0].text else "") + Stream(writes[1..], toErr)
  }

  function Both(writes: seq<Write>): string { if writes == [] then "" else writes[0].text + Both(writes[1..]) }

  lemma {:induction false} RenderedRaw(tty: Tty, text: string)
    requires !tty.opost || '\n' !in text
    ensures Rendered(tty, text) == text
  {
    if text != "" {
      assert forall c :: c in text[1..] ==> c in text;
      RenderedRaw(tty, text[1..]);
      assert [text[0]] + text[1..] == text && text[0] in text;
    }
  }

  /** Apart: stdout on the screen, stderr in the file. */
  lemma {:induction false} DeliverApart(tty: Tty, io: Io, writes: seq<Write>, shown: Shown, path: string)
    requires !tty.opost && io.out == Screen && io.err == ToFile(path) && path in shown.files
    ensures DeliverAll(tty, io, writes, shown)
            == Shown(shown.files[path := shown.files[path] + Stream(writes, true)], shown.screen + Stream(writes, false), shown.caught)
    decreases |writes|
  {
    if writes == [] {
      assert shown.files[path] + "" == shown.files[path] && shown.screen + "" == shown.screen;
      assert shown.files[path := shown.files[path]] == shown.files;
    } else {
      var w := writes[0];
      RenderedRaw(tty, w.text);
      var next := Deliver(tty, if w.toErr then io.err else io.out, w.text, shown);
      DeliverApart(tty, io, writes[1..], next, path);
      var errs, outs := Stream(writes[1..], true), Stream(writes[1..], false);
      if w.toErr {
        assert shown.files[path] + w.text + errs == shown.files[path] + (w.text + errs) && "" + outs == outs;
        assert shown.files[path := next.files[path]][path := next.files[path] + errs] == shown.files[path := next.files[path] + errs];
      } else {
        assert shown.screen + w.text + outs == shown.screen + (w.text + outs) && "" + errs == errs;
      }
    }
  }

  /** Merged: both on the screen, in the order they were written. */
  lemma {:induction false} DeliverMerged(tty: Tty, io: Io, writes: seq<Write>, shown: Shown)
    requires !tty.opost && io.out == Screen && io.err == Screen
    ensures DeliverAll(tty, io, writes, shown) == shown.(screen := shown.screen + Both(writes))
    decreases |writes|
  {
    if writes == [] {
      assert shown.screen + "" == shown.screen;
    } else {
      RenderedRaw(tty, writes[0].text);
      var next := shown.(screen := shown.screen + writes[0].text);
      DeliverMerged(tty, io, writes[1..], next);
      assert shown.screen + writes[0].text + Both(writes[1..]) == shown.screen + (writes[0].text + Both(writes[1..]));
    }
  }

  /** What evaluating the command gives: it gets the fetched text, and the input if there is one. */
  function Evaluated(host: Host, sh: Sh, input: Option<seq<Base64.Byte>>): Behaviour {
    host.behave(Fetched(host, sh).text, if HasInput(input) then Content(sh.files, host.temp + "/f") else "")
  }

  function StdinText(token: string, input: Option<seq<Base64.Byte>>): string {
    if HasInput(input) then Tmp(token) + "/f" else NULL
  }

  function StdinPath(host: Host, input: Option<seq<Base64.Byte>>): string {
    if HasInput(input) then host.temp + "/f" else NULL
  }

  function ErrArg(host: Host, token: string, merge: bool): Arg {
    if merge then Dup else File("2>", ErrInto(""), Tmp(token) + "/e", Silent(host.temp + "/e"))
  }

  lemma {:induction false} EvalReads(host: Host, sh: Sh, token: string, input: Option<seq<Base64.Byte>>, merge: bool)
    requires Knows(host, sh, token) && OwnFiles(host)
    ensures ReadsAs(EnvOf(host, sh), EvalText(token, input, merge),
                    Simple(["eval", Fetched(host, sh).text],
                           [From(StdinPath(host, input)), if merge then ErrDup else ErrInto(host.temp + "/e")],
                           Fetched(host, sh).noise))
  {
    hide ReadsAs, Yields, Tmp, IsBare, WithAll, Spelling, Fetched, ScriptEnds, Substitute, HasInput;
    var e, got := EnvOf(host, sh), Fetched(host, sh);
    KnowsEnv(host, sh, token);
    NamesAreBare(e);
    FetchEnds(token);
    Fetches(host, sh, token);
    EnvIs(host, sh, Fetch(token));
    SubstYields(e, Fetch(token), got);
    QuotedStarts(InDollar(Fetch(token)));
    BareYields(e, false, NULL);
    FileYields(e, token, "/f");
    FileYields(e, token, "/e");
    var a := Plain(Quoted(InDollar(Fetch(token))), got);
    var b := File("< ", From(""), StdinText(token, input), Silent(StdinPath(host, input)));
    var c := ErrArg(host, token, merge);
    SimpleReads(e, "eval", [a, b, c]) by { assert IsName("eval") by { UtilityNames(); } }
    Spelled3(a, b, c);
    EvalSpelled(token, input, merge);
    EvalIs(a, b, c);
  }

  lemma {:induction false} EvalSpelled(token: string, input: Option<seq<Base64.Byte>>, merge: bool)
    ensures "eval" + (" " + (Quoted(InDollar(Fetch(token))) + (" " + (("< " + StdinText(token, input))
                     + (" " + (if merge then "2>&1" else "2>" + (Tmp(token) + "/e")))))))
            == EvalText(token, input, merge)
  {
    hide Tmp;
    var dir := Tmp(token);
    var stdin := StdinText(token, input);
    var tail := if merge then " 2>&1" else " 2>" + (dir + "/e");
    assert EvalText(token, input, merge) == "eval \"$(base64 -d < " + (dir + ("/c)\" < " + (stdin + tail)));
    EvalRegroup(dir, stdin, tail);
    assert tail == " " + (if merge then "2>&1" else "2>" + (dir + "/e"));
  }

  lemma {:induction false} EvalRegroup(dir: string, stdin: string, tail: string)
    ensures "eval" + (" " + (("\"" + (("$(" + (("base64 -d < " + (dir + "/c")) + ")")) + "\"")) + (" " + (("< " + stdin) + tail))))
            == "eval \"$(base64 -d < " + (dir + ("/c)\" < " + (stdin + tail)))
  {
    var rest := stdin + tail;
    assert " " + (("< " + stdin) + tail) == " < " + rest;
    assert "\"" + (("$(" + (("base64 -d < " + (dir + "/c")) + ")")) + "\"") == "\"$(base64 -d < " + (dir + "/c)\"");
    assert ("\"$(base64 -d < " + (dir + "/c)\"")) + (" < " + rest) == "\"$(base64 -d < " + (dir + ("/c)\" < " + rest));
    assert "eval" + (" " + ("\"$(base64 -d < " + (dir + ("/c)\" < " + rest)))) == "eval \"$(base64 -d < " + (dir + ("/c)\" < " + rest));
  }

  lemma {:induction false} EvalIs(a: Arg, b: Arg, c: Arg)
    requires a.Plain? && b.File? && b.got.noise == "" && !b.redirect.ErrDup?
    requires c.Dup? || (c.File? && c.got.noise == "" && !c.redirect.ErrDup?)
    ensures WithAll(WithWord(NOTHING, Silent("eval")), [a, b, c])
            == Simple(["eval", a.got.text],
                      [b.redirect.(path := b.got.text), if c.Dup? then ErrDup else c.redirect.(path := c.got.text)], a.got.noise)
  {
    var first := WithWord(NOTHING, Silent("eval"));
    assert first == Simple(["eval"], [], "");
    AllMore(first, [], a);
    assert [] + [a] == [a] && WithAll(first, []) == first;
    AllMore(first, [a], b);
    assert [a] + [b] == [a, b];
    AllMore(first, [a, b], c);
    assert [a, b] + [c] == [a, b, c];
    assert ["eval"] + [a.got.text] == ["eval", a.got.text] && "" + a.got.noise == a.got.noise && a.got.noise + "" == a.got.noise;
    var x, y := b.redirect.(path := b.got.text), if c.Dup? then ErrDup else c.redirect.(path := c.got.text);
    assert [] + [x] == [x] && [x] + [y] == [x, y];
  }

  /** The state behind the command: its stdout on the screen, its stderr there as well or in its file. */
  function AfterEval(host: Host, sh: Sh, input: Option<seq<Base64.Byte>>, merge: bool): Sh {
    var b := Evaluated(host, sh, input);
    var noisy := sh.screen + Fetched(host, sh).noise;
    if merge then sh.(screen := noisy + Both(b.writes), status := b.status)
    else sh.(screen := noisy + Stream(b.writes, false), files := sh.files[host.temp + "/e" := Stream(b.writes, true)],
             status := b.status)
  }

  lemma {:induction false} DoesEval(host: Host, sh: Sh, token: string, input: Option<seq<Base64.Byte>>, merge: bool)
    requires Knows(host, sh, token) && OwnFiles(host) && !sh.tty.opost
    requires HasInput(input) ==> host.temp + "/f" in sh.files
    ensures Does(host, sh, EvalText(token, input, merge), AfterEval(host, sh, input, merge))
  {
    hide ReadsAs, Does, Execute, EvalText, Fetched, HasInput, Both, Stream;
    var got := Fetched(host, sh);
    var redirects := [From(StdinPath(host, input)), if merge then ErrDup else ErrInto(host.temp + "/e")];
    EvalReads(host, sh, token, input, merge);
    RunsEval(host, sh.(screen := sh.screen + got.noise), got.text, StdinPath(host, input), host.temp + "/e", merge);
    DoesSimple(host, sh, EvalText(token, input, merge), ["eval", got.text], redirects, got.noise,
               AfterEval(host, sh, input, merge));
  }

  lemma {:induction false} RunsEval(host: Host, sh: Sh, text: string, from: string, to: string, merge: bool)
    requires !sh.tty.opost && (from == NULL || from in sh.files) && to != NULL
    ensures var b := host.behave(text, if from == NULL then "" else sh.files[from]);
            Execute(host, sh, ["eval", text], [From(from), if merge then ErrDup else ErrInto(to)], Screen)
            == Some((if merge then sh.(screen := sh.screen + Both(b.writes), status := b.status)
                     else sh.(screen := sh.screen + Stream(b.writes, false), files := sh.files[to := Stream(b.writes, true)],
                              status := b.status), ""))
  {
    hide Both, Stream, DeliverAll;
    var stdin := if from == NULL then "" else sh.files[from];
    var b := host.behave(text, stdin);
    var io := Io("", Screen, Screen, sh.files, true, "");
    var read := io.(stdin := stdin);
    var second := if merge then ErrDup else ErrInto(to);
    assert [From(from)] + [second] == [From(from), second];
    MoreRedirects(host, From(from), [second], io);
    OneRedirect(host, From(from), io);
    OneRedirect(host, second, read);
    var begun := if merge then sh.files else sh.files[to := ""];
    var wired := if merge then read else read.(err := ToFile(to), files := begun);
    assert Redirected(host, [From(from), second], io) == wired;
    assert Utility(host, sh.(files := begun), ["eval", text], stdin) == Some(Ran(b.writes, sh.(files := begun, status := b.status)));
    var shown := Shown(begun, sh.screen, "");
    if merge {
      DeliverMerged(sh.tty, wired, b.writes, shown);
    } else {
      DeliverApart(sh.tty, wired, b.writes, shown, to);
      assert "" + Stream(b.writes, true) == Stream(b.writes, true);
      assert begun[to := Stream(b.writes, true)] == sh.files[to := Stream(b.writes, true)];
    }
  }

  // ----------------------------------------------------------------------------------- whole lines

  lemma {:induction false} DoesStarts(host: Host, sh: Sh, text: string, after: Sh)
    requires Does(host, sh, text, after)
    ensures text != "" && text[0] != ' '
  {
  }

  lemma {:induction false} LineLast(host: Host, sh: Sh, text: string, after: Sh)
    requires Does(host, sh, text, after)
    ensures RunLine(host, sh, text) == Some(after)
  {
    hide ReadCommand, Run;
    var c :| ReadsAs(EnvOf(host, sh), text, c) && Run(host, sh, c) == Some(after);
    assert text + "" == text;
    assert ReadCommand(text + "", EnvOf(host, sh)) == Some((c, ""));
  }

  lemma {:induction false} LineBlank(host: Host, sh: Sh, line: string)
    requires line != "" && line[0] != ' '
    ensures RunLine(host, sh, " " + line) == RunLine(host, sh, line)
  {
    hide Run, ReadArgs, ReadWord, EnvOf;
    SkipNone(line);
    assert ReadCommand(" " + line, EnvOf(host, sh)) == ReadCommand(line, EnvOf(host, sh));
  }

  lemma {:induction false} LineStep(host: Host, sh: Sh, text: string, after: Sh, more: string)
    requires Does(host, sh, text, after) && more != "" && more[0] != ' '
    ensures RunLine(host, sh, text + ("; " + more)) == RunLine(host, after, more)
  {
    hide ReadCommand, Run;
    var c :| ReadsAs(EnvOf(host, sh), text, c) && Run(host, sh, c) == Some(after);
    var rest := "; " + more;
    assert ReadCommand(text + rest, EnvOf(host, sh)) == Some((c, rest));
    assert rest[1..] == " " + more;
    LineBlank(host, after, more);
  }

  /** From state to state, command by command. */
  ghost predicate Chain(host: Host, texts: seq<string>, states: seq<Sh>) {
    |states| == |texts| + 1 && forall i :: 0 <= i < |texts| ==> Does(host, states[i], texts[i], states[i + 1])
  }

  lemma {:induction false} ChainRuns(host: Host, texts: seq<string>, states: seq<Sh>)
    requires Chain(host, texts, states) && texts != []
    ensures RunLine(host, states[0], Semicolons(texts)) == Some(states[|texts|])
    ensures Semicolons(texts) != "" && Semicolons(texts)[0] != ' '
    decreases |texts|
  {
    hide Does, RunLine;
    assert Does(host, states[0], texts[0], states[0 + 1]);
    DoesStarts(host, states[0], texts[0], states[1]);
    if |texts| == 1 {
      LineLast(host, states[0], texts[0], states[1]);
    } else {
      TailChain(host, texts, states);
      ChainRuns(host, texts[1..], states[1..]);
      LineStep(host, states[0], texts[0], states[1], Semicolons(texts[1..]));
    }
  }

  lemma {:induction false} TailChain(host: Host, texts: seq<string>, states: seq<Sh>)
    requires Chain(host, texts, states) && texts != []
    ensures Chain(host, texts[1..], states[1..])
  {
    hide Does;
    forall i | 0 <= i < |texts[1..]| ensures Does(host, states[1..][i], texts[1..][i], states[1..][i + 1]) {
      assert Does(host, states[i + 1], texts[i + 1], states[i + 1 + 1]);
    }
  }

  // ------------------------------------------------------------------------------------ the main line

  lemma {:induction false} PrintsPlain(host: Host, sh: Sh, parts: seq<string>)
    requires parts != [] && !sh.tty.opost && forall i :: 0 <= i < |parts| ==> IsPlain(parts[i])
    ensures Does(host, sh, Halves(parts), sh.(screen := sh.screen + Concat(parts), status := 0))
  {
    hide Does, Yields, IsPlain, Halves, Rendered, Concat, Quoted;
    forall i | 0 <= i < |parts| ensures Yields(EnvOf(host, sh), false, Quoted(parts[i]), Silent(parts[i])) {
      QuotedYields(EnvOf(host, sh), false, parts[i]);
    }
    DoesPrint(host, sh, parts, parts);
    RenderedRaw(sh.tty, Concat(parts));
  }

  lemma {:induction false} DoesStart(host: Host, sh: Sh, token: string)
    requires IsToken(token) && !sh.tty.opost
    ensures Does(host, sh, Halves(["__ST", token + "__"]), sh.(screen := sh.screen + MarkersOf(token).start, status := 0))
    ensures Does(host, sh, Halves(["__OUT", token + "__"]), sh.(screen := sh.screen + MarkersOf(token).mid, status := 0))
  {
    hide Does, Halves, Concat;
    TokenIsPlain(token, "__");
    PrintsPlain(host, sh, ["__ST", token + "__"]);
    PrintsPlain(host, sh, ["__OUT", token + "__"]);
    ConcatTwo("__ST", token + "__");
    ConcatTwo("__OUT", token + "__");
    assert "__ST" + (token + "__") == MarkersOf(token).start && "__OUT" + (token + "__") == MarkersOf(token).mid;
  }

  /** The end marker, with the status from its variable; the settings are the user's again. */
  lemma {:induction false} DoesEnd(host: Host, sh: Sh, token: string, status: nat)
    requires IsToken(token) && Var(token) + "r" in sh.vars && sh.vars[Var(token) + "r"] == Decimal(status)
    ensures Does(host, sh, Halves(["__EN", token + "_", "$" + (Var(token) + "r"), "_EN__"]),
                 sh.(screen := sh.screen + EndMarker(MarkersOf(token), Decimal(status)), status := 0))
  {
    hide Does, Halves, Concat, Yields, Decimal, IsPlain, IsName, Quoted, EndMarker;
    var e, end := EnvOf(host, sh), EndMarker(MarkersOf(token), Decimal(status));
    var parts, values := ["__EN", token + "_", "$" + (Var(token) + "r"), "_EN__"], ["__EN", token + "_", Decimal(status), "_EN__"];
    FixedArePlain();
    TokenIsPlain(token, "_");
    OwnName(token);
    QuotedYields(e, false, "__EN");
    QuotedYields(e, false, token + "_");
    QuotedYields(e, false, "_EN__");
    VarYields(e, false, Var(token) + "r");
    DoesPrint(host, sh, parts, values);
    ConcatFour("__EN", token + "_", Decimal(status), "_EN__");
    EndIs(token, status);
    NoLineEnd(token, status);
    RenderedRaw(sh.tty, end);
  }

  lemma {:induction false} EndIs(token: string, status: nat)
    ensures "__EN" + (token + "_") + Decimal(status) + "_EN__" == EndMarker(MarkersOf(token), Decimal(status))
  {
  }

  lemma {:induction false} NoLineEnd(token: string, status: nat)
    requires IsToken(token)
    ensures '\n' !in EndMarker(MarkersOf(token), Decimal(status))
  {
    DecimalDigits(status);
    forall i | 0 <= i < |token| ensures token[i] != '\n' { assert IsHex(token[i]); }
  }

  /** What is at hand when the main line begins. */
  predicate Prepared(host: Host, sh: Sh, token: string, input: Option<seq<Base64.Byte>>) {
    && Knows(host, sh, token) && OwnFiles(host) && '\0' !in sh.tty.others && '\n' !in sh.tty.others
    && host.temp + "/e" !in sh.files
    && (HasInput(input) ==> host.temp + "/f" in sh.files && sh.files[host.temp + "/f"] == input.value)
  }

  /** What is fetched with the terminal raw. */
  function RawFetch(host: Host, sh: Sh): Got { Fetched(host, sh.(tty := sh.tty.(opost := false))) }

  /** The command's own behaviour: it is evaluated once, with the input or with none. */
  function Behaves(host: Host, sh: Sh, input: Option<seq<Base64.Byte>>): Behaviour {
    host.behave(RawFetch(host, sh).text, if HasInput(input) then input.value else "")
  }

  /** The frames' parts. A complaint of the shell, of a command's text that is not there, gets into stdout. */
  function OutOf(host: Host, sh: Sh, input: Option<seq<Base64.Byte>>, merge: bool): string {
    var b := Behaves(host, sh, input);
    RawFetch(host, sh).noise + (if merge then Both(b.writes) else Stream(b.writes, false))
  }

  function ErrOf(host: Host, sh: Sh, input: Option<seq<Base64.Byte>>, merge: bool): string {
    if merge then "" else Stream(Behaves(host, sh, input).writes, true)
  }

  /** The states between the commands of the main line. */
  function MainStates(host: Host, sh: Sh, token: string, input: Option<seq<Base64.Byte>>, merge: bool): seq<Sh>
    requires Prepared(host, sh, token, input)
  {
    var m, b := MarkersOf(token), Behaves(host, sh, input);
    var s1 := sh.(vars := sh.vars[Var(token) + "s" := Saved(sh.tty)], status := 0);
    var s2 := s1.(tty := s1.tty.(opost := false), status := 0);
    var s3 := s2.(screen := s2.screen + m.start, status := 0);
    var s4 := AfterEval(host, s3, input, merge);
    var s5 := s4.(vars := s4.vars[Var(token) + "r" := Decimal(s4.status)], status := 0);
    var s6 := s5.(screen := s5.screen + m.mid, status := 0);
    var s7 := s6.(screen := s6.screen + ErrOf(host, sh, input, merge), status := if merge then 1 else 0);
    var s8 := s7.(files := Removed(s7.files, host.temp), status := 0);
    var s9 := s8.(tty := sh.tty, status := 0);
    var s10 := s9.(screen := s9.screen + EndMarker(m, Decimal(b.status)), status := 0);
    var s11 := s10.(vars := Without(s10.vars, OwnVars(token)), status := 0);
    [sh, s1, s2, s3, s4, s5, s6, s7, s8, s9, s10, s11]
  }

  lemma {:induction false} MainTexts(token: string, input: Option<seq<Base64.Byte>>, merge: bool)
    ensures var texts := MainCommands(token, input, merge);
            |texts| == 11
            && texts[0] == Var(token) + "s=$(stty -g 2>/dev/null)"
            && texts[1] == "stty -opost 2>/dev/null"
            && texts[2] == Halves(["__ST", token + "__"])
            && texts[3] == EvalText(token, input, merge)
            && texts[4] == Var(token) + "r=$?"
            && texts[5] == Halves(["__OUT", token + "__"])
            && texts[6] == "cat " + (Tmp(token) + "/e 2>/dev/null")
            && texts[7] == "rm -rf " + Tmp(token)
            && texts[8] == "stty \"$" + (Var(token) + "s\" 2>/dev/null")
            && texts[9] == Halves(["__EN", token + "_", "$" + (Var(token) + "r"), "_EN__"])
            && texts[10] == "unset " + (Var(token) + ("d " + (Var(token) + ("r " + (Var(token) + "s")))))
  {
    hide Halves, EvalText, Tmp, Var;
  }

  lemma {:induction false} MainBegins(host: Host, sh: Sh, token: string, input: Option<seq<Base64.Byte>>, merge: bool)
    requires Prepared(host, sh, token, input)
    ensures var states := MainStates(host, sh, token, input, merge);
            Does(host, states[0], Var(token) + "s=$(stty -g 2>/dev/null)", states[1])
            && Does(host, states[1], "stty -opost 2>/dev/null", states[2])
            && Does(host, states[2], Halves(["__ST", token + "__"]), states[3])
  {
    hide Does, Halves, Saved, AfterEval, Behaves, EndMarker, Decimal, OutOf, ErrOf, Removed, Without, Var;
    var states := MainStates(host, sh, token, input, merge);
    DoesSave(host, states[0], token);
    DoesRaw(host, states[1]);
    DoesStart(host, states[2], token);
  }

  lemma {:induction false} FetchIgnores(host: Host, sh: Sh, raw: Sh)
    requires raw.files == sh.files && raw.tty == sh.tty.(opost := false)
    ensures Fetched(host, raw) == RawFetch(host, sh)
  {
  }

  /** When the command is evaluated, its files are those at the beginning, and the terminal is raw. */
  lemma {:induction false} EvaluatedIs(host: Host, sh: Sh, token: string, input: Option<seq<Base64.Byte>>, merge: bool)
    requires Prepared(host, sh, token, input)
    ensures var s3 := MainStates(host, sh, token, input, merge)[3];
            s3.files == sh.files && s3.tty == sh.tty.(opost := false) && Knows(host, s3, token)
            && Fetched(host, s3) == RawFetch(host, sh) && Evaluated(host, s3, input) == Behaves(host, sh, input)
  {
    hide Saved, AfterEval, EndMarker, Decimal, OutOf, ErrOf, Removed, Without, Fetched;
    var s3 := MainStates(host, sh, token, input, merge)[3];
    OwnName(token);
    FetchIgnores(host, sh, s3);
  }

  lemma {:induction false} MainEvaluates(host: Host, sh: Sh, token: string, input: Option<seq<Base64.Byte>>, merge: bool)
    requires Prepared(host, sh, token, input)
    ensures var states := MainStates(host, sh, token, input, merge);
            Does(host, states[3], EvalText(token, input, merge), states[4])
            && Does(host, states[4], Var(token) + "r=$?", states[5])
            && Does(host, states[5], Halves(["__OUT", token + "__"]), states[6])
  {
    hide Does, Halves, Saved, EvalText, EndMarker, Decimal, OutOf, ErrOf, Removed, Without, Fetched, Behaves, Evaluated, Var;
    var states := MainStates(host, sh, token, input, merge);
    EvaluatedIs(host, sh, token, input, merge);
    DoesEval(host, states[3], token, input, merge);
    DoesKeep(host, states[4], token);
    DoesStart(host, states[5], token);
  }

  /** Behind the command its stderr is in the run's file, or there is none. */
  lemma {:induction false} Behind(host: Host, sh: Sh, token: string, input: Option<seq<Base64.Byte>>, merge: bool)
    requires Prepared(host, sh, token, input)
    ensures var states := MainStates(host, sh, token, input, merge); var path := host.temp + "/e";
            states[6].files == (if merge then sh.files else sh.files[path := ErrOf(host, sh, input, merge)])
            && states[6].tty == sh.tty.(opost := false) && Knows(host, states[6], token)
            && Knows(host, states[7], token) && states[4].status == Behaves(host, sh, input).status
            && Var(token) + "s" in states[8].vars && states[8].vars[Var(token) + "s"] == Saved(sh.tty)
            && Var(token) + "r" in states[9].vars
            && states[9].vars[Var(token) + "r"] == Decimal(Behaves(host, sh, input).status)
  {
    hide Saved, EndMarker, Decimal, Removed, Without, Fetched, Behaves, Evaluated;
    OwnName(token);
    EvaluatedIs(host, sh, token, input, merge);
  }

  lemma {:induction false} MainCollects(host: Host, sh: Sh, token: string, input: Option<seq<Base64.Byte>>, merge: bool)
    requires Prepared(host, sh, token, input)
    ensures var states := MainStates(host, sh, token, input, merge);
            Does(host, states[6], "cat " + (Tmp(token) + "/e 2>/dev/null"), states[7])
            && Does(host, states[7], "rm -rf " + Tmp(token), states[8])
  {
    hide Does, Saved, EndMarker, Decimal, OutOf, Removed, Without, Fetched, Behaves, Evaluated, Tmp, AfterEval, Rendered, Var;
    var states := MainStates(host, sh, token, input, merge);
    Behind(host, sh, token, input, merge);
    DoesCat(host, states[6], token);
    RenderedRaw(states[6].tty, ErrOf(host, sh, input, merge));
    DoesRemove(host, states[7], token);
  }

  lemma {:induction false} MainEnds(host: Host, sh: Sh, token: string, input: Option<seq<Base64.Byte>>, merge: bool)
    requires Prepared(host, sh, token, input)
    ensures var states := MainStates(host, sh, token, input, merge);
            Does(host, states[8], "stty \"$" + (Var(token) + "s\" 2>/dev/null"), states[9])
            && Does(host, states[9], Halves(["__EN", token + "_", "$" + (Var(token) + "r"), "_EN__"]), states[10])
            && Does(host, states[10], "unset " + (Var(token) + ("d " + (Var(token) + ("r " + (Var(token) + "s"))))), states[11])
  {
    hide Does, Saved, EndMarker, Decimal, OutOf, ErrOf, Removed, Fetched, Behaves, Evaluated, AfterEval, Halves, Var;
    var states := MainStates(host, sh, token, input, merge);
    Behind(host, sh, token, input, merge);
    DoesRestore(host, states[8], token, sh.tty);
    DoesEnd(host, states[9], token, Behaves(host, sh, input).status);
    DoesUnset(host, states[10], token);
  }

  /** The main line, on one shell. */
  lemma {:induction false} MainLineRuns(host: Host, sh: Sh, token: string, input: Option<seq<Base64.Byte>>, merge: bool)
    requires Prepared(host, sh, token, input)
    ensures RunLine(host, sh, MainLine(token, input, merge)) == Some(MainStates(host, sh, token, input, merge)[11])
  {
    hide Does, Saved, EndMarker, Decimal, OutOf, ErrOf, Removed, Fetched, Behaves, Evaluated, AfterEval, Halves, RunLine,
         MainCommands, Semicolons, Without, EvalText, Tmp, Var;
    var states, texts := MainStates(host, sh, token, input, merge), MainCommands(token, input, merge);
    MainTexts(token, input, merge);
    MainBegins(host, sh, token, input, merge);
    MainEvaluates(host, sh, token, input, merge);
    MainCollects(host, sh, token, input, merge);
    MainEnds(host, sh, token, input, merge);
    assert Chain(host, texts, states);
    ChainRuns(host, texts, states);
  }

  lemma {:induction false} OwnIsUnder(dir: string, name: string)
    requires name in ["/c", "/i", "/f", "/e"]
    ensures Under(dir, dir + name) && dir + name != NULL
  {
    var path := dir + name;
    assert path[|path| - 1] == name[1] && NULL[|NULL| - 1] == 'l';
    assert path[..|dir| + 1] == dir + "/";
  }

  lemma {:induction false} OwnFilesAre(host: Host)
    ensures OwnFiles(host)
  {
    OwnIsUnder(host.temp, "/c");
    OwnIsUnder(host.temp, "/i");
    OwnIsUnder(host.temp, "/f");
    OwnIsUnder(host.temp, "/e");
  }

  lemma {:induction false} RemovedTakesOwn(files: map<string, string>, dir: string, name: string, text: string)
    requires name in ["/c", "/i", "/f", "/e"]
    ensures Removed(files[dir + name := text], dir) == Removed(files, dir)
  {
    hide Under;
    OwnIsUnder(dir, name);
    var a, b := Removed(files[dir + name := text], dir), Removed(files, dir);
    forall path ensures path in a <==> path in b {}
    forall path | path in a ensures a[path] == b[path] {}
  }

  lemma {:induction false} MainScreen(screen: string, start: string, noise: string, out: string, mid: string, err: string, end: string)
    ensures screen + start + noise + out + mid + err + end == screen + (start + ((noise + out) + (mid + (err + (end + "")))))
  {
    FramesJoin(screen, start, noise + out, mid, err, end, "");
    assert screen + start + noise + out == screen + start + (noise + out);
    assert screen + start + (noise + out) + mid + err + end + "" == screen + start + (noise + out) + mid + err + end;
  }

  /** What the main line does: it prints exactly the frames around what the command wrote, and leaves the terminal as it
      was, and neither its variables nor its files. */
  lemma {:induction false} MainEffect(host: Host, sh: Sh, token: string, input: Option<seq<Base64.Byte>>, merge: bool)
    requires Prepared(host, sh, token, input)
    ensures var after := MainStates(host, sh, token, input, merge)[11];
            after.screen == sh.screen + Frames(token, OutOf(host, sh, input, merge), ErrOf(host, sh, input, merge),
                                               Behaves(host, sh, input).status, "")
            && after.tty == sh.tty && after.files == Removed(sh.files, host.temp) && after.vars == Without(sh.vars, OwnVars(token))
  {
    hide Saved, EndMarker, Decimal, Removed, Fetched, Evaluated, Both, Stream, MarkersOf, Behaves, RawFetch;
    var states, b := MainStates(host, sh, token, input, merge), Behaves(host, sh, input);
    var m, err := MarkersOf(token), ErrOf(host, sh, input, merge);
    var noise, out := RawFetch(host, sh).noise, if merge then Both(b.writes) else Stream(b.writes, false);
    EvaluatedIs(host, sh, token, input, merge);
    Behind(host, sh, token, input, merge);
    assert states[4].screen == sh.screen + m.start + noise + out;
    assert states[10].screen == sh.screen + m.start + noise + out + m.mid + err + EndMarker(m, Decimal(b.status));
    MainScreen(sh.screen, m.start, noise, out, m.mid, err, EndMarker(m, Decimal(b.status)));
    if !merge { RemovedTakesOwn(sh.files, host.temp, "/e", err); }
    UnsetAll(sh.vars, token, Saved(sh.tty), Decimal(b.status));
  }

  lemma {:induction false} MainDoes(host: Host, sh: Sh, token: string, input: Option<seq<Base64.Byte>>, merge: bool)
    returns (after: Sh)
    requires Prepared(host, sh, token, input)
    ensures RunLine(host, sh, MainLine(token, input, merge)) == Some(after)
    ensures after.screen == sh.screen + Frames(token, OutOf(host, sh, input, merge), ErrOf(host, sh, input, merge),
                                               Behaves(host, sh, input).status, "")
    ensures after.tty == sh.tty && after.files == Removed(sh.files, host.temp) && after.vars == Without(sh.vars, OwnVars(token))
  {
    hide RunLine, MainLine, Frames, Removed, Without, OutOf, ErrOf, Behaves, Saved, AfterEval, Decimal;
    MainLineRuns(host, sh, token, input, merge);
    MainEffect(host, sh, token, input, merge);
    after := MainStates(host, sh, token, input, merge)[11];
  }

  lemma {:induction false} UnsetAll(vars: map<string, string>, token: string, saved: string, status: string)
    ensures Without(vars[Var(token) + "s" := saved][Var(token) + "r" := status], OwnVars(token)) == Without(vars, OwnVars(token))
  {
    hide Var;
    var own := OwnVars(token);
    assert own[2] == Var(token) + "s" && own[1] == Var(token) + "r";
    var a, b := Without(vars[Var(token) + "s" := saved][Var(token) + "r" := status], own), Without(vars, own);
    forall name ensures name in a <==> name in b {}
    forall name | name in a ensures a[name] == b[name] {}
  }

  // ------------------------------------------------------------------------------------ the setup lines

  /** What the shell is like before a run: `mktemp` will make a new directory. */
  predicate Ready(host: Host, sh: Sh) {
    && host.temp != "" && '\0' !in host.temp && '\n' !in host.temp
    && '\0' !in sh.tty.others && '\n' !in sh.tty.others
    && forall path :: path in sh.files ==> path != host.temp && !Under(host.temp, path)
  }

  function Pieces(data: seq<Base64.Byte>): seq<string> { Chunks(Base64.Encode(data)) }

  /** A file with its first `n` pieces. */
  function Fill(files: map<string, string>, path: string, pieces: seq<string>, n: nat): map<string, string>
    requires n <= |pieces|
  {
    if n == 0 then files else files[path := Concat(pieces[..n])]
  }

  /** How many of the `n` lines from line `from` on are among the first `k`. */
  function Count(k: nat, from: nat, n: nat): (r: nat)
    ensures r <= n
  {
    if k <= from then 0 else if k - from < n then k - from else n
  }

  /** The files after `k` setup lines. */
  function FilesAt(host: Host, files: map<string, string>, command: seq<Base64.Byte>, input: Option<seq<Base64.Byte>>, k: nat)
    : map<string, string>
  {
    var c := Pieces(command);
    var some := Fill(files, host.temp + "/c", c, Count(k, 1, |c|));
    if !HasInput(input) then some
    else
      var i := Pieces(input.value);
      var more := Fill(some, host.temp + "/i", i, Count(k, 1 + |c|, |i|));
      if k > 1 + |c| + |i| then more[host.temp + "/f" := input.value] else more
  }

  /** The shell after `k` setup lines, whatever else was printed. */
  predicate SetUp(host: Host, start: Sh, sh: Sh, token: string, command: seq<Base64.Byte>, input: Option<seq<Base64.Byte>>, k: nat) {
    && sh.tty == start.tty
    && sh.vars == (if k == 0 then start.vars else start.vars[Dir(token) := host.temp])
    && sh.files == FilesAt(host, start.files, command, input, k)
  }

  lemma {:induction false} OwnDiffer(dir: string)
    ensures dir + "/c" != dir + "/i" && dir + "/c" != dir + "/f" && dir + "/i" != dir + "/f"
    ensures dir + "/c" != dir + "/e" && dir + "/i" != dir + "/e" && dir + "/f" != dir + "/e"
  {
    var n := |dir| + 1;
    assert (dir + "/c")[n] == 'c' && (dir + "/i")[n] == 'i' && (dir + "/f")[n] == 'f' && (dir + "/e")[n] == 'e';
  }

  lemma {:induction false} NoneOfOwn(host: Host, sh: Sh)
    requires Ready(host, sh)
    ensures host.temp + "/c" !in sh.files && host.temp + "/i" !in sh.files && host.temp + "/f" !in sh.files
    ensures host.temp + "/e" !in sh.files
  {
    hide Under;
    OwnIsUnder(host.temp, "/c");
    OwnIsUnder(host.temp, "/i");
    OwnIsUnder(host.temp, "/f");
    OwnIsUnder(host.temp, "/e");
  }

  lemma {:induction false} FillMore(files: map<string, string>, path: string, pieces: seq<string>, n: nat)
    requires n < |pieces| && path !in files
    ensures var some := Fill(files, path, pieces, n);
            some[path := Content(some, path) + pieces[n]] == Fill(files, path, pieces, n + 1)
  {
    hide Concat;
    assert pieces[..n + 1] == pieces[..n] + [pieces[n]];
    ConcatPush(pieces[..n], pieces[n]);
    ConcatNothing();
    assert pieces[..0] == [];
  }

  lemma {:induction false} SetupAt(command: seq<Base64.Byte>, token: string, input: Option<seq<Base64.Byte>>, k: nat)
    requires k < |SetupLines(command, token, input)|
    ensures var lines, c := SetupLines(command, token, input), Pieces(command);
            if k == 0 then lines[k] == Var(token) + "d=$(mktemp -d)"
            else if k <= |c| then lines[k] == AppendLine(c[k - 1], token, "/c")
            else HasInput(input) && var i := Pieces(input.value);
                 if k <= |c| + |i| then lines[k] == AppendLine(i[k - 1 - |c|], token, "/i")
                 else k == 1 + |c| + |i| && lines[k] == "base64 -d < " + (Tmp(token) + ("/i > " + (Tmp(token) + "/f")))
  {
    hide Chunks, Base64.Encode, AppendLine, Tmp, Var;
  }

  lemma {:induction false} PieceIsPlain(data: seq<Base64.Byte>, k: nat)
    requires k < |Pieces(data)|
    ensures LoginShell.NoQuoteNoSlash(Pieces(data)[k])
  {
    hide LoginShell.NoQuoteNoSlash, Chunks, Base64.Encode;
    NoQuotes(data);
    ChunkWithin(Base64.Encode(data), k);
  }

  /** One line more; nothing is printed. */
  lemma {:induction false} SetupStep(host: Host, start: Sh, sh: Sh, token: string, command: seq<Base64.Byte>,
                                     input: Option<seq<Base64.Byte>>, k: nat) returns (after: Sh)
    requires IsToken(token) && Ready(host, start) && k < |SetupLines(command, token, input)|
    requires SetUp(host, start, sh, token, command, input, k)
    ensures Does(host, sh, SetupLines(command, token, input)[k], after) && after.screen == sh.screen
    ensures SetUp(host, start, after, token, command, input, k + 1)
  {
    hide Does, SetupLines, Pieces, AppendLine, Tmp, Fill, IsToken, Ready;
    SetupAt(command, token, input, k);
    var c := |Pieces(command)|;
    if k == 0 {
      after := FirstLine(host, start, sh, token, command, input);
    } else if k <= c {
      after := CommandLine(host, start, sh, token, command, input, k);
    } else if k <= c + |Pieces(input.value)| {
      after := InputLine(host, start, sh, token, command, input, k);
    } else {
      after := DecodeLine(host, start, sh, token, command, input, k);
    }
  }

  lemma {:induction false} FirstLine(host: Host, start: Sh, sh: Sh, token: string, command: seq<Base64.Byte>,
                                     input: Option<seq<Base64.Byte>>) returns (after: Sh)
    requires IsToken(token) && Ready(host, start) && SetUp(host, start, sh, token, command, input, 0)
    ensures Does(host, sh, Var(token) + "d=$(mktemp -d)", after) && after.screen == sh.screen
    ensures SetUp(host, start, after, token, command, input, 1)
  {
    hide Does, Pieces;
    DoesTemp(host, sh, token);
    after := sh.(vars := sh.vars[Dir(token) := host.temp], status := 0);
  }

  lemma {:induction false} KnowsThen(host: Host, start: Sh, sh: Sh, token: string, command: seq<Base64.Byte>,
                                     input: Option<seq<Base64.Byte>>, k: nat)
    requires IsToken(token) && Ready(host, start) && SetUp(host, start, sh, token, command, input, k) && k > 0
    ensures Knows(host, sh, token) && OwnFiles(host)
  {
    hide FilesAt;
    OwnFilesAre(host);
  }

  lemma {:induction false} CommandLine(host: Host, start: Sh, sh: Sh, token: string, command: seq<Base64.Byte>,
                                       input: Option<seq<Base64.Byte>>, k: nat) returns (after: Sh)
    requires IsToken(token) && Ready(host, start) && SetUp(host, start, sh, token, command, input, k)
    requires 0 < k <= |Pieces(command)|
    ensures Does(host, sh, AppendLine(Pieces(command)[k - 1], token, "/c"), after) && after.screen == sh.screen
    ensures SetUp(host, start, after, token, command, input, k + 1)
  {
    hide Does, Pieces, AppendLine, LoginShell.NoQuoteNoSlash, Fill, Knows, OwnFiles, Ready;
    var c, path := Pieces(command), host.temp + "/c";
    KnowsThen(host, start, sh, token, command, input, k);
    PieceIsPlain(command, k - 1);
    DoesAppend(host, sh, token, c[k - 1], "/c");
    after := sh.(files := sh.files[path := Content(sh.files, path) + c[k - 1]], status := 0);
    NoneOfOwn(host, start);
    FillMore(start.files, path, c, k - 1);
    if HasInput(input) { NoFill(Fill(start.files, path, c, k - 1), host.temp + "/i", Pieces(input.value)); }
    if HasInput(input) { NoFill(Fill(start.files, path, c, k), host.temp + "/i", Pieces(input.value)); }
  }

  lemma {:induction false} NoFill(files: map<string, string>, path: string, pieces: seq<string>)
    ensures Fill(files, path, pieces, 0) == files
  {
  }

  lemma {:induction false} FillElsewhere(files: map<string, string>, path: string, pieces: seq<string>, n: nat, other: string)
    requires n <= |pieces| && path != other
    ensures other in Fill(files, path, pieces, n) <==> other in files
  {
  }

  lemma {:induction false} InputLine(host: Host, start: Sh, sh: Sh, token: string, command: seq<Base64.Byte>,
                                     input: Option<seq<Base64.Byte>>, k: nat) returns (after: Sh)
    requires IsToken(token) && Ready(host, start) && SetUp(host, start, sh, token, command, input, k)
    requires HasInput(input) && |Pieces(command)| < k <= |Pieces(command)| + |Pieces(input.value)|
    ensures Does(host, sh, AppendLine(Pieces(input.value)[k - 1 - |Pieces(command)|], token, "/i"), after)
    ensures after.screen == sh.screen && SetUp(host, start, after, token, command, input, k + 1)
  {
    hide Does, Pieces, AppendLine, LoginShell.NoQuoteNoSlash, Fill, Knows, OwnFiles, Ready;
    var c, i, path := Pieces(command), Pieces(input.value), host.temp + "/i";
    var n := k - 1 - |c|;
    KnowsThen(host, start, sh, token, command, input, k);
    PieceIsPlain(input.value, n);
    DoesAppend(host, sh, token, i[n], "/i");
    after := sh.(files := sh.files[path := Content(sh.files, path) + i[n]], status := 0);
    NoneOfOwn(host, start);
    OwnDiffer(host.temp);
    FillElsewhere(start.files, host.temp + "/c", c, |c|, path);
    FillMore(Fill(start.files, host.temp + "/c", c, |c|), path, i, n);
  }

  lemma {:induction false} DecodeLine(host: Host, start: Sh, sh: Sh, token: string, command: seq<Base64.Byte>,
                                      input: Option<seq<Base64.Byte>>, k: nat) returns (after: Sh)
    requires IsToken(token) && Ready(host, start) && SetUp(host, start, sh, token, command, input, k)
    requires HasInput(input) && k == 1 + |Pieces(command)| + |Pieces(input.value)|
    ensures Does(host, sh, "base64 -d < " + (Tmp(token) + ("/i > " + (Tmp(token) + "/f"))), after)
    ensures after.screen == sh.screen && SetUp(host, start, after, token, command, input, k + 1)
  {
    hide Does, Tmp, Knows, OwnFiles, Ready, Base64.Decode, Base64.Encode, Chunks, Concat;
    var c, i := Pieces(command), Pieces(input.value);
    KnowsThen(host, start, sh, token, command, input, k);
    SomePieces(input.value);
    BytesArrive(input.value);
    assert i[..|i|] == i;
    DoesDecode(host, sh, token, input.value);
    after := sh.(files := sh.files[host.temp + "/f" := input.value], status := 0);
  }

  lemma {:induction false} SomePieces(data: seq<Base64.Byte>)
    ensures data != [] <==> Pieces(data) != []
  {
    Base64.Shape(data);
  }

  // -------------------------------------------------------------------------- the main line behind its setup

  /** The command as the shell evaluates it, with the input as its stdin. */
  function Answered(host: Host, command: seq<Base64.Byte>, input: Option<seq<Base64.Byte>>): Behaviour {
    host.behave(Substituted(host, command), if HasInput(input) then input.value else "")
  }

  /** Of an empty command nothing is typed, so its file is missed: the shell's complaint stands before its stdout. */
  function Complaint(host: Host, command: seq<Base64.Byte>): string {
    if command == [] then host.complaint(host.temp + "/c") else ""
  }

  function Stdout(host: Host, command: seq<Base64.Byte>, input: Option<seq<Base64.Byte>>, merge: bool): string {
    var b := Answered(host, command, input);
    Complaint(host, command) + (if merge then Both(b.writes) else Stream(b.writes, false))
  }

  function Stderr(host: Host, command: seq<Base64.Byte>, input: Option<seq<Base64.Byte>>, merge: bool): string {
    if merge then "" else Stream(Answered(host, command, input).writes, true)
  }

  function Status(host: Host, command: seq<Base64.Byte>, input: Option<seq<Base64.Byte>>): nat {
    Answered(host, command, input).status
  }

  lemma {:induction false} FilledFiles(host: Host, start: Sh, command: seq<Base64.Byte>, input: Option<seq<Base64.Byte>>, k: nat)
    requires Ready(host, start) && k == 1 + |Pieces(command)| + (if HasInput(input) then |Pieces(input.value)| + 1 else 0)
    ensures var files, c := FilesAt(host, start.files, command, input, k), host.temp + "/c";
            host.temp + "/e" !in files
            && (if command == [] then c !in files else c in files && files[c] == Base64.Encode(command))
            && (HasInput(input) ==> host.temp + "/f" in files && files[host.temp + "/f"] == input.value)
  {
    hide Chunks, Base64.Encode, Base64.Decode, Concat, Ready;
    NoneOfOwn(host, start);
    OwnDiffer(host.temp);
    SomePieces(command);
    BytesArrive(command);
    assert Pieces(command)[..|Pieces(command)|] == Pieces(command);
    if HasInput(input) { assert Pieces(input.value)[..|Pieces(input.value)|] == Pieces(input.value); }
  }

  lemma {:induction false} SetupCount(command: seq<Base64.Byte>, token: string, input: Option<seq<Base64.Byte>>)
    ensures |SetupLines(command, token, input)| == 1 + |Pieces(command)| + (if HasInput(input) then |Pieces(input.value)| + 1 else 0)
  {
    hide Chunks, Base64.Encode, AppendLine, Tmp, Var;
  }

  lemma {:induction false} RemovedFill(files: map<string, string>, dir: string, name: string, pieces: seq<string>, n: nat)
    requires n <= |pieces| && name in ["/c", "/i"]
    ensures Removed(Fill(files, dir + name, pieces, n), dir) == Removed(files, dir)
  {
    hide Removed;
    if n > 0 { RemovedTakesOwn(files, dir, name, Concat(pieces[..n])); }
  }

  /** Removing the directory leaves the files that were there before. */
  lemma {:induction false} RemovedAll(host: Host, start: Sh, command: seq<Base64.Byte>, input: Option<seq<Base64.Byte>>, k: nat)
    requires Ready(host, start)
    ensures Removed(FilesAt(host, start.files, command, input, k), host.temp) == start.files
  {
    hide Fill, Pieces, Under;
    var c := Pieces(command);
    var some := Fill(start.files, host.temp + "/c", c, Count(k, 1, |c|));
    RemovedFill(start.files, host.temp, "/c", c, Count(k, 1, |c|));
    if HasInput(input) {
      var i := Pieces(input.value);
      RemovedFill(some, host.temp, "/i", i, Count(k, 1 + |c|, |i|));
      RemovedTakesOwn(Fill(some, host.temp + "/i", i, Count(k, 1 + |c|, |i|)), host.temp, "/f", input.value);
    }
    assert Removed(start.files, host.temp) == start.files;
  }

  lemma {:induction false} FetchesCommand(host: Host, sh: Sh, command: seq<Base64.Byte>)
    requires var path := host.temp + "/c";
             if command == [] then path !in sh.files else path in sh.files && sh.files[path] == Base64.Encode(command)
    ensures RawFetch(host, sh) == Got(Substituted(host, command), Complaint(host, command))
  {
    hide Base64.Decode, Base64.Encode;
    NothingCaught(host);
    if command == [] {
      RenderedRaw(sh.tty.(opost := false), host.complaint(host.temp + "/c"));
    } else {
      Base64.RoundTrip(command);
    }
  }

  lemma {:induction false} WithoutOwn(vars: map<string, string>, token: string, dir: string)
    ensures Without(vars[Dir(token) := dir], OwnVars(token)) == Without(vars, OwnVars(token))
  {
    hide Var;
    var own := OwnVars(token);
    assert own[0] == Dir(token);
    var a, b := Without(vars[Dir(token) := dir], own), Without(vars, own);
    forall name ensures name in a <==> name in b {}
    forall name | name in a ensures a[name] == b[name] {}
  }

  /** What the whole run leaves: the shell as it was, without the run's own variables. */
  predicate Cleaned(start: Sh, after: Sh, token: string) {
    after.tty == start.tty && after.files == start.files && after.vars == Without(start.vars, OwnVars(token))
  }

  /** Behind its setup the main line prints exactly the frames of the command's own answer, and cleans up. */
  lemma {:induction false} MainAnswers(host: Host, start: Sh, sh: Sh, token: string, command: seq<Base64.Byte>,
                                       input: Option<seq<Base64.Byte>>, merge: bool) returns (after: Sh)
    requires IsToken(token) && Ready(host, start)
    requires SetUp(host, start, sh, token, command, input, |SetupLines(command, token, input)|)
    ensures RunLine(host, sh, MainLine(token, input, merge)) == Some(after) && Cleaned(start, after, token)
    ensures after.screen == sh.screen + Frames(token, Stdout(host, command, input, merge), Stderr(host, command, input, merge),
                                               Status(host, command, input), "")
  {
    hide SetupLines, MainLine, RunLine, Frames, Both, Stream, FilesAt, Removed, Without, Pieces, MainStates, Under, Var;
    var k := |SetupLines(command, token, input)|;
    SetupCount(command, token, input);
    KnowsThen(host, start, sh, token, command, input, k);
    FilledFiles(host, start, command, input, k);
    after := MainDoes(host, sh, token, input, merge);
    FetchesCommand(host, sh, command);
    RemovedAll(host, start, command, input, k);
    WithoutOwn(start.vars, token, host.temp);
  }

  // ------------------------------------------------------------------------------------- whole batches

  lemma {:induction false} RunLinesMore(host: Host, sh: Sh, lines: seq<string>, line: string)
    ensures RunLines(host, sh, lines + [line]) ==
            var before := RunLines(host, sh, lines); if before.None? then None else RunLine(host, before.value, line)
    decreases |lines|
  {
    hide RunLine;
    if lines == [] {
      assert lines + [line] == [line] && [line][1..] == [];
    } else {
      assert (lines + [line])[1..] == lines[1..] + [line];
      var next := RunLine(host, sh, lines[0]);
      if next.Some? { RunLinesMore(host, next.value, lines[1..], line); }
    }
  }

  lemma {:induction false} NoLines(host: Host, sh: Sh)
    ensures RunLines(host, sh, []) == Some(sh)
  {
  }

  /** A line that is one command and the acknowledgement behind it. */
  lemma {:induction false} AckLine(host: Host, sh: Sh, line: string, mid: Sh, token: string, number: nat) returns (after: Sh)
    requires Does(host, sh, line, mid) && IsToken(token)
    ensures RunLine(host, sh, line + AckSuffix(token, number)) == Some(after)
    ensures after == mid.(screen := mid.screen + AckMarker(token, number), status := 0)
  {
    hide Does, RunLine, Halves, Decimal, IsPlain, Concat, Yields, Quoted;
    var tail := "_" + Decimal(number) + "__";
    var parts, e := ["__AK", token + tail], EnvOf(host, mid);
    AckIsPlain();
    NumberIsPlain(number);
    TokenIsPlain(token, tail);
    QuotedYields(e, false, "__AK");
    QuotedYields(e, false, token + tail);
    DoesPrint(host, mid, parts, parts);
    ConcatTwo("__AK", token + tail);
    AckHasNoLineEnd(token, number);
    RenderedRaw(mid.tty, AckMarker(token, number));
    after := mid.(screen := mid.screen + AckMarker(token, number), status := 0);
    DoesStarts(host, mid, Halves(parts), after);
    LineLast(host, mid, Halves(parts), after);
    LineStep(host, sh, line, mid, Halves(parts));
  }

  lemma {:induction false} AckHasNoLineEnd(token: string, number: nat)
    requires IsToken(token)
    ensures '\n' !in AckMarker(token, number)
  {
    DecimalDigits(number);
    forall i | 0 <= i < |token| ensures token[i] != '\n' { assert IsHex(token[i]); }
  }

  /** Setup lines without an acknowledgement. */
  lemma {:induction false} SetupRuns(host: Host, start: Sh, sh: Sh, token: string, command: seq<Base64.Byte>,
                                     input: Option<seq<Base64.Byte>>, a: nat, b: nat) returns (after: Sh)
    requires IsToken(token) && Ready(host, start) && a <= b <= |SetupLines(command, token, input)|
    requires SetUp(host, start, sh, token, command, input, a)
    ensures RunLines(host, sh, SetupLines(command, token, input)[a..b]) == Some(after)
    ensures SetUp(host, start, after, token, command, input, b) && after.screen == sh.screen
    decreases b - a
  {
    hide SetupLines, SetUp, Ready, RunLines, RunLine, Does;
    var lines := SetupLines(command, token, input);
    if a == b {
      assert lines[a..b] == [];
      NoLines(host, sh);
      after := sh;
    } else {
      var before := SetupRuns(host, start, sh, token, command, input, a, b - 1);
      after := SetupStep(host, start, before, token, command, input, b - 1);
      LineLast(host, before, lines[b - 1], after);
      assert lines[a..b] == lines[a..b - 1] + [lines[b - 1]];
      RunLinesMore(host, sh, lines[a..b - 1], lines[b - 1]);
    }
  }

  lemma {:induction false} SetUpIgnores(host: Host, start: Sh, sh: Sh, other: Sh, token: string, command: seq<Base64.Byte>,
                                        input: Option<seq<Base64.Byte>>, k: nat)
    requires SetUp(host, start, sh, token, command, input, k)
    requires other.tty == sh.tty && other.vars == sh.vars && other.files == sh.files
    ensures SetUp(host, start, other, token, command, input, k)
  {
    hide FilesAt;
  }

  /** An acknowledged batch of setup lines prints its acknowledgement and nothing else. */
  lemma {:induction false} BatchAcks(host: Host, start: Sh, sh: Sh, token: string, command: seq<Base64.Byte>,
                                     input: Option<seq<Base64.Byte>>, a: nat, b: nat, number: nat) returns (after: Sh)
    requires IsToken(token) && Ready(host, start) && a < b <= |SetupLines(command, token, input)|
    requires SetUp(host, start, sh, token, command, input, a)
    ensures RunLines(host, sh, WithAck(SetupLines(command, token, input)[a..b], token, number)) == Some(after)
    ensures SetUp(host, start, after, token, command, input, b) && after.screen == sh.screen + AckMarker(token, number)
  {
    hide SetupLines, SetUp, Ready, RunLines, RunLine, Does, AckSuffix, AckMarker;
    var lines := SetupLines(command, token, input);
    var before := SetupRuns(host, start, sh, token, command, input, a, b - 1);
    var mid := SetupStep(host, start, before, token, command, input, b - 1);
    after := AckLine(host, before, lines[b - 1], mid, token, number);
    SetUpIgnores(host, start, mid, after, token, command, input, b);
    var group := lines[a..b];
    assert group[..|group| - 1] == lines[a..b - 1] && group[|group| - 1] == lines[b - 1];
    RunLinesMore(host, sh, lines[a..b - 1], lines[b - 1] + AckSuffix(token, number));
  }

  /** The last batch prints exactly the frames. */
  lemma {:induction false} LastBatch(host: Host, start: Sh, sh: Sh, token: string, command: seq<Base64.Byte>,
                                     input: Option<seq<Base64.Byte>>, merge: bool, a: nat) returns (after: Sh)
    requires IsToken(token) && Ready(host, start) && a <= |SetupLines(command, token, input)|
    requires SetUp(host, start, sh, token, command, input, a)
    ensures RunLines(host, sh, SetupLines(command, token, input)[a..] + [MainLine(token, input, merge)]) == Some(after)
    ensures Cleaned(start, after, token)
    ensures after.screen == sh.screen + Frames(token, Stdout(host, command, input, merge), Stderr(host, command, input, merge),
                                               Status(host, command, input), "")
  {
    hide SetupLines, SetUp, Ready, RunLines, RunLine, MainLine, Frames, Stdout, Stderr, Status, Cleaned;
    var lines := SetupLines(command, token, input);
    assert lines[a..|lines|] == lines[a..];
    var before := SetupRuns(host, start, sh, token, command, input, a, |lines|);
    after := MainAnswers(host, start, before, token, command, input, merge);
    RunLinesMore(host, sh, lines[a..], MainLine(token, input, merge));
  }

  // ------------------------------------------------------------------------------- what the batches answer

  /** How many lines the first groups hold. */
  function Before(groups: seq<seq<string>>, g: nat): nat
    requires g <= |groups|
  {
    |Flatten(groups[..g])|
  }

  lemma {:induction false} GroupIs(groups: seq<seq<string>>, g: nat)
    requires g < |groups| && forall k :: 0 <= k < |groups| ==> groups[k] != []
    ensures Before(groups, g + 1) == Before(groups, g) + |groups[g]| <= |Flatten(groups)|
    ensures groups[g] == Flatten(groups)[Before(groups, g)..Before(groups, g + 1)]
    ensures Before(groups, g + 1) == |Flatten(groups)| <==> g + 1 == |groups|
    decreases |groups|
  {
    var n := |groups| - 1;
    assert groups[..|groups|] == groups;
    FlattenNext(groups, g);
    if g < n {
      var less := groups[..n];
      assert less[..g] == groups[..g] && less[..g + 1] == groups[..g + 1];
      GroupIs(less, g);
      var all := Flatten(less) + groups[n];
      assert all[Before(groups, g)..Before(groups, g + 1)] == Flatten(less)[Before(groups, g)..Before(groups, g + 1)];
    } else {
      assert (Flatten(groups[..n]) + groups[n])[|Flatten(groups[..n])|..] == groups[n];
      assert groups[..g + 1] == groups;
    }
  }

  /** The shell behind the first batches. */
  function StateAt(host: Host, sh: Sh, batches: seq<seq<string>>, n: nat): Option<Sh>
    requires n <= |batches|
  {
    if n == 0 then Some(sh)
    else
      var before := StateAt(host, sh, batches, n - 1);
      if before.None? then None else RunLines(host, before.value, batches[n - 1])
  }

  /** What each batch makes the shell print. */
  predicate Answers(host: Host, sh: Sh, batches: seq<seq<string>>, answers: seq<string>) {
    |answers| == |batches| && forall n :: 0 <= n < |batches| ==> Adds(host, sh, batches, n, answers[n])
  }

  /** One batch, run behind those before it, prints this. */
  predicate Adds(host: Host, sh: Sh, batches: seq<seq<string>>, n: nat, answer: string)
    requires n < |batches|
  {
    var before, after := StateAt(host, sh, batches, n), StateAt(host, sh, batches, n + 1);
    before.Some? && after.Some? && after.value.screen == before.value.screen + answer
  }

  /** The acknowledgements in turn and then the frames. */
  function Replies(host: Host, token: string, command: seq<Base64.Byte>, input: Option<seq<Base64.Byte>>, merge: bool, n: nat)
    : seq<string>
  {
    seq(n, k requires 0 <= k < n =>
      if k + 1 < n then AckMarker(token, k + 1)
      else Frames(token, Stdout(host, command, input, merge), Stderr(host, command, input, merge), Status(host, command, input), ""))
  }

  /** One batch, from what was set up before it. */
  lemma {:induction false} BatchAnswers(host: Host, start: Sh, sh: Sh, token: string, command: seq<Base64.Byte>,
                                        input: Option<seq<Base64.Byte>>, merge: bool, groups: seq<seq<string>>, g: nat)
    returns (after: Sh)
    requires IsToken(token) && Ready(host, start) && forall k :: 0 <= k < |groups| ==> groups[k] != []
    requires Flatten(groups) == SetupLines(command, token, input) + [MainLine(token, input, merge)] && g < |groups|
    requires SetUp(host, start, sh, token, command, input, Before(groups, g))
    ensures RunLines(host, sh, Acknowledged(groups, token)[g]) == Some(after)
    ensures after.screen == sh.screen + Replies(host, token, command, input, merge, |groups|)[g]
    ensures if g + 1 < |groups| then SetUp(host, start, after, token, command, input, Before(groups, g + 1))
            else Cleaned(start, after, token)
  {
    hide SetupLines, SetUp, Ready, RunLines, MainLine, Frames, Stdout, Stderr, Status, Cleaned, AckMarker, Flatten, WithAck, Before;
    var lines, a, b := SetupLines(command, token, input), Before(groups, g), Before(groups, g + 1);
    GroupIs(groups, g);
    assert (lines + [MainLine(token, input, merge)])[..|lines|] == lines;
    if g + 1 < |groups| {
      assert groups[g] == lines[a..b];
      after := BatchAcks(host, start, sh, token, command, input, a, b, g + 1);
    } else {
      assert groups[g] == lines[a..] + [MainLine(token, input, merge)];
      after := LastBatch(host, start, sh, token, command, input, merge, a);
    }
  }

  lemma {:induction false} StatesAre(host: Host, start: Sh, token: string, command: seq<Base64.Byte>,
                                     input: Option<seq<Base64.Byte>>, merge: bool, groups: seq<seq<string>>, n: nat)
    returns (after: Sh)
    requires IsToken(token) && Ready(host, start) && groups != [] && forall k :: 0 <= k < |groups| ==> groups[k] != []
    requires Flatten(groups) == SetupLines(command, token, input) + [MainLine(token, input, merge)] && n <= |groups|
    ensures StateAt(host, start, Acknowledged(groups, token), n) == Some(after)
    ensures if n < |groups| then SetUp(host, start, after, token, command, input, Before(groups, n)) else Cleaned(start, after, token)
    ensures n > 0 ==>
              var before := StateAt(host, start, Acknowledged(groups, token), n - 1);
              before.Some? && after.screen == before.value.screen + Replies(host, token, command, input, merge, |groups|)[n - 1]
  {
    hide SetupLines, Ready, RunLines, MainLine, Cleaned, Acknowledged, Replies, SetUp, Before;
    SameCount(groups, token);
    ReplyCount(host, token, command, input, merge, |groups|);
    if n == 0 {
      after := start;
      StartsSetUp(host, start, token, command, input, groups);
    } else {
      var before := StatesAre(host, start, token, command, input, merge, groups, n - 1);
      after := BatchAnswers(host, start, before, token, command, input, merge, groups, n - 1);
    }
  }

  lemma {:induction false} ReplyCount(host: Host, token: string, command: seq<Base64.Byte>, input: Option<seq<Base64.Byte>>,
                                      merge: bool, n: nat)
    ensures |Replies(host, token, command, input, merge, n)| == n
  {
  }

  lemma {:induction false} StartsSetUp(host: Host, start: Sh, token: string, command: seq<Base64.Byte>,
                                       input: Option<seq<Base64.Byte>>, groups: seq<seq<string>>)
    ensures SetUp(host, start, start, token, command, input, Before(groups, 0))
  {
    hide Pieces;
    assert groups[..0] == [];
    NoFill(start.files, host.temp + "/c", Pieces(command));
    if HasInput(input) { NoFill(start.files, host.temp + "/i", Pieces(input.value)); }
  }

  /** What the target's shell prints for the batches, one by one: the acknowledgement of each but the last, and for the last
      exactly the frames around what the command itself wrote, stderr apart or merged as asked, with its own status. At
      the end the terminal, the files and the variables are what they were before. */
  lemma {:induction false} BatchesAnswer(host: Host, start: Sh, token: string, command: seq<Base64.Byte>,
                                         input: Option<seq<Base64.Byte>>, merge: bool, groups: seq<seq<string>>) returns (after: Sh)
    requires IsToken(token) && Ready(host, start) && groups != [] && forall k :: 0 <= k < |groups| ==> groups[k] != []
    requires Flatten(groups) == SetupLines(command, token, input) + [MainLine(token, input, merge)]
    ensures Answers(host, start, Acknowledged(groups, token), Replies(host, token, command, input, merge, |groups|))
    ensures StateAt(host, start, Acknowledged(groups, token), |groups|) == Some(after) && Cleaned(start, after, token)
  {
    hide SetupLines, Ready, StateAt, MainLine, Cleaned, Acknowledged, Replies, SetUp, Before, Flatten;
    var batches, replies := Acknowledged(groups, token), Replies(host, token, command, input, merge, |groups|);
    SameCount(groups, token);
    ReplyCount(host, token, command, input, merge, |groups|);
    forall n | 0 <= n < |batches| ensures Adds(host, start, batches, n, replies[n]) {
      var later := StatesAre(host, start, token, command, input, merge, groups, n + 1);
    }
    after := StatesAre(host, start, token, command, input, merge, groups, |groups|);
  }

  lemma {:induction false} SameEnd(a: string, b: string, c: string)
    requires a + b == a + c
    ensures b == c
  {
    DropPrefix(a, b);
    DropPrefix(a, c);
  }

  /** So whatever is said to be printed is just that. */
  lemma {:induction false} AnswersAreOne(host: Host, sh: Sh, batches: seq<seq<string>>, a: seq<string>, b: seq<string>)
    requires Answers(host, sh, batches, a) && Answers(host, sh, batches, b)
    ensures a == b
  {
    hide StateAt;
    forall n | 0 <= n < |batches| ensures a[n] == b[n] {
      assert Adds(host, sh, batches, n, a[n]) && Adds(host, sh, batches, n, b[n]);
      SameEnd(StateAt(host, sh, batches, n).value.screen, a[n], b[n]);
    }
  }

  /** What a console sends: before each answer what it shows, and what it sends later. */
  ghost function Dialogue(screens: seq<string>, answers: seq<string>, post: string): string
    requires |screens| == |answers|
  {
    if screens == [] then post else screens[0] + (answers[0] + Dialogue(screens[1..], answers[1..], post))
  }

  lemma {:induction false} DialogueIsSent(screens: seq<string>, token: string, replies: seq<string>, printed: string, post: string, n: nat)
    requires n < |screens| && |replies| == |screens| && replies[|replies| - 1] == printed
    requires forall k :: 0 <= k < |replies| - 1 ==> replies[k] == AckMarker(token, k + 1)
    ensures Dialogue(screens[n..], replies[n..], post) == Sent(screens, token, n, printed + post)
    decreases |screens| - n
  {
    hide AckMarker;
    assert screens[n..][1..] == screens[n + 1..] && replies[n..][1..] == replies[n + 1..];
    if n + 1 < |screens| {
      DialogueIsSent(screens, token, replies, printed, post, n + 1);
    } else {
      assert Dialogue(screens[n + 1..], replies[n + 1..], post) == post;
    }
  }

  lemma {:induction false} FramesMore(token: string, out: string, err: string, status: nat, post: string)
    ensures Frames(token, out, err, status, "") + post == Frames(token, out, err, status, post)
  {
    hide EndMarker, Decimal;
    var m := MarkersOf(token);
    var end := EndMarker(m, Decimal(status));
    assert end + "" == end;
    Assoc(err, end, post);
    Assoc(m.mid, err + end, post);
    Assoc(out, m.mid + (err + end), post);
    Assoc(m.start, out + (m.mid + (err + end)), post);
  }

  /** The whole run on a real target: the batches are typed into a console whose shell runs them, and the console sends
      what it shows and what the shell prints. Then exactly the command's own stdout, stderr and status come back. */
  method RunOnTarget(token: string, batches: seq<seq<string>>, chunks: seq<string>, drops: seq<nat>, ghost host: Host, ghost sh: Sh,
                     ghost command: seq<Base64.Byte>, ghost input: Option<seq<Base64.Byte>>, ghost merge: bool,
                     ghost groups: seq<seq<string>>, ghost screens: seq<string>, ghost answers: seq<string>, ghost post: string)
    returns (typed: seq<string>, ans: Answer, outs: seq<string>, errs: seq<string>)
    requires IsToken(token) && groups != [] && forall g :: 0 <= g < |groups| ==> groups[g] != []
    requires Flatten(groups) == SetupLines(command, token, input) + [MainLine(token, input, merge)]
    requires batches == Acknowledged(groups, token) && |screens| == |drops| == |groups| == |answers|
    requires Ready(host, sh) && Answers(host, sh, batches, answers)
    requires AllScreens(screens, groups, token) && InTurn(chunks, drops, screens, token)
    requires Concat(chunks) == Dialogue(screens, answers, post)
    requires CleanLead(chunks, drops[|drops| - 1], Until(screens, token, |screens| - 1), MarkersOf(token).start)
    requires var mid := MarkersOf(token).mid; var out := Stdout(host, command, input, merge); Find(out + mid, mid, 0) == |out|
    requires var m, err := MarkersOf(token), Stderr(host, command, input, merge);
             FindEnd(err + EndMarker(m, Decimal(Status(host, command, input))), m, 0) == |err|
    ensures typed == Flatten(batches)
    ensures ans == Answer(Done, Stdout(host, command, input, merge), Stderr(host, command, input, merge),
                          Some(Status(host, command, input)))
    ensures Concat(outs) == ans.out && Concat(errs) == ans.err
  {
    hide IsToken, Flatten, SetupLines, MainLine, Acknowledged, AllScreens, InTurn, Concat, Sent, Until, Frames, CleanLead, Find,
         FindEnd, EndMarker, MarkersOf, AckMarker, Decimal, Stdout, Stderr, Status, Answers, StateAt, Ready, Dialogue, Cleaned;
    ghost var out, err, status := Stdout(host, command, input, merge), Stderr(host, command, input, merge), Status(host, command, input);
    ghost var replies := Replies(host, token, command, input, merge, |groups|);
    ghost var after := BatchesAnswer(host, sh, token, command, input, merge, groups);
    AnswersAreOne(host, sh, batches, answers, replies);
    DialogueIsSent(screens, token, answers, Frames(token, out, err, status, ""), post, 0);
    assert screens[0..] == screens && answers[0..] == answers;
    FramesMore(token, out, err, status, post);
    typed, ans, outs, errs := RunTyped(token, batches, chunks, drops, command, input, merge, groups, screens, out, err, status, post);
  }

  // ------------------------------------------------------------------------------- what is the command's own

  /** The shell evaluates exactly the command, if that has no NUL and ends in no line end. */
  lemma {:induction false} CommandArrives(host: Host, command: seq<Base64.Byte>)
    requires '\0' !in command
    ensures Substituted(host, command) == command <==> (command == [] || command[|command| - 1] != '\n')
  {
    TrimmedIs(command);
  }

  lemma {:induction false} TrimmedIs(text: string)
    ensures |Trimmed(text)| <= |text| && (text != "" && text[|text| - 1] == '\n' ==> |Trimmed(text)| < |text|)
    decreases |text|
  {
    if text != "" { TrimmedIs(text[..|text| - 1]); }
  }

  /** What comes back is the command's own stdout exactly if there is a command, or the shell does not complain. */
  lemma {:induction false} StdoutIsOwn(host: Host, command: seq<Base64.Byte>, input: Option<seq<Base64.Byte>>)
    ensures Stdout(host, command, input, false) == Stream(Answered(host, command, input).writes, false)
            <==> (command != [] || host.complaint(host.temp + "/c") == "")
    ensures Stderr(host, command, input, false) == Stream(Answered(host, command, input).writes, true)
    ensures command != [] ==> Stdout(host, command, input, true) == Both(Answered(host, command, input).writes)
  {
    hide Stream, Both, Answered;
    var own := Stream(Answered(host, command, input).writes, false);
    assert |Complaint(host, command) + own| == |Complaint(host, command)| + |own|;
    assert "" + own == own;
    var both := Both(Answered(host, command, input).writes);
    assert "" + both == both;
  }

  /** An empty command that writes nothing and succeeds, and yet something comes back. */
  lemma {:induction false} EmptyComplains(host: Host)
    requires host.behave("", "") == Behaviour([], 0) && host.complaint(host.temp + "/c") == "sh: cannot open c\n"
    ensures Stream(Answered(host, [], None).writes, false) == "" && Status(host, [], None) == 0
    ensures Stdout(host, [], None, false) == "sh: cannot open c\n"
  {
    NothingCaught(host);
  }
}
