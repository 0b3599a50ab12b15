/** What the typed `printf` commands print: read by sh and run by its `printf` (in POSIX.1-2017: the Shell Command
    Language, sections 2.2.3 and 2.6.2, and the printf utility), each prints exactly the marker that the parser of the
    frames looks for, although no typed line holds it. */
module Printers {
  import Base64
  import Chars
  import LoginShell
  import opened Framing
  import opened Options
  import opened Search
  import opened TypedLines

  // --------------------------------------------------------------------------------- what sh does

  predicate IsNameChar(c: char) { LoginShell.IsAlnum(c) || c == '_' }

  function NameLength(s: string): (n: nat)
    ensures n <= |s|
  {
    if s != "" && IsNameChar(s[0]) then 1 + NameLength(s[1..]) else 0
  }

  /** Parameter expansion where only plain `$name` stands, each inside double quotes: the longest name counts,
      and a name that is not set gives nothing. */
  function Expanded(s: string, vars: map<string, string>): string
    decreases |s|
  {
    if s == "" then ""
    else if s[0] == '$' then
      var n := NameLength(s[1..]);
      (if n == 0 then "$" else if s[1..][..n] in vars then vars[s[1..][..n]] else "") + Expanded(s[1..][n..], vars)
    else [s[0]] + Expanded(s[1..], vars)
  }

  /** One pass over a `printf` format, and the arguments it leaves: every `%s` takes one, or prints nothing
      when there is none left. `None` for a format this text does not describe. */
  function OnePass(format: string, args: seq<string>): (r: Option<(string, seq<string>)>)
    ensures r.Some? ==> |r.value.1| <= |args|
  {
    if format == "" then Some(("", args))
    else if format[0] == '%' then
      if |format| > 1 && format[1] == 's' then
        After(if args == [] then "" else args[0], OnePass(format[2..], if args == [] then [] else args[1..]))
      else if |format| > 1 && format[1] == '%' then After("%", OnePass(format[2..], args))
      else None
    else if format[0] == '\\' then None
    else After([format[0]], OnePass(format[1..], args))
  }

  function After(text: string, more: Option<(string, seq<string>)>): (r: Option<(string, seq<string>)>)
    ensures r.Some? <==> more.Some?
    ensures r.Some? ==> r.value.1 == more.value.1
  {
    if more.None? then None else Some((text + more.value.0, more.value.1))
  }

  /** `printf`: the format is used again as long as it takes arguments and some are left. */
  function Printf(format: string, args: seq<string>): Option<string>
    decreases |args|
  {
    var pass := OnePass(format, args);
    if pass.None? then None
    else if pass.value.1 == [] || |pass.value.1| == |args| then Some(pass.value.0)
    else
      var more := Printf(format, pass.value.1);
      if more.None? then None else Some(pass.value.0 + more.value)
  }

  /** What sh prints for a line that is one `printf` command. */
  function Prints(line: string): Option<string> {
    var words := LoginShell.Words(LoginShell.Sh, line);
    if words.Some? && |words.value| >= 2 && words.value[0] == "printf" then Printf(words.value[1], words.value[2..]) else None
  }

  // ------------------------------------------------------------------------- how the line is read

  predicate IsPlain(part: string) { forall i :: 0 <= i < |part| ==> part[i] !in "$`\"\\" }

  lemma {:induction false} LexDouble(d: LoginShell.Dialect, part: string, rest: string, word: string)
    requires IsPlain(part)
    ensures LoginShell.Lex(d, part + ("\"" + rest), LoginShell.Double, word, true)
            == LoginShell.Lex(d, rest, LoginShell.Bare, word + part, true)
    decreases |part|
  {
    var s := part + ("\"" + rest);
    if part == "" {
      assert s == "\"" + rest && s[1..] == rest && word + part == word;
    } else {
      assert s[1..] == part[1..] + ("\"" + rest) && s[0] == part[0];
      assert IsPlain(part[1..]);
      LexDouble(d, part[1..], rest, word + [part[0]]);
      assert word + [part[0]] + part[1..] == word + part;
    }
  }

  lemma {:induction false} QuotedReadsAs(d: LoginShell.Dialect, part: string)
    requires IsPlain(part)
    ensures LoginShell.ReadsAs(d, Quoted(part), part)
  {
    hide IsPlain;
    forall rest | rest == "" || rest[0] == ' '
      ensures LoginShell.Lex(d, Quoted(part) + rest, LoginShell.Bare, "", false)
              == LoginShell.Lex(d, rest, LoginShell.Bare, part, true)
    {
      var s := Quoted(part) + rest;
      assert s[0] == '"' && s[1..] == part + ("\"" + rest);
      LexDouble(d, part, rest, "");
      assert "" + part == part;
    }
  }

  lemma {:induction false} BareReadsAs(d: LoginShell.Dialect, text: string)
    requires text != "" && forall i :: 0 <= i < |text| ==> LoginShell.IsBareData(d, text[i])
    ensures LoginShell.ReadsAs(d, text, text)
  {
    hide LoginShell.Lex, LoginShell.IsBareData;
    forall rest | rest == "" || rest[0] == ' '
      ensures LoginShell.Lex(d, text + rest, LoginShell.Bare, "", false)
              == LoginShell.Lex(d, rest, LoginShell.Bare, text, true)
    {
      LoginShell.LexBare(d, text, rest, "", false);
      assert "" + text == text;
    }
  }

  lemma {:induction false} TimesIsBare(n: nat)
    requires n > 0
    ensures Times("%s", n) != ""
    ensures forall i :: 0 <= i < |Times("%s", n)| ==> LoginShell.IsBareData(LoginShell.Sh, Times("%s", n)[i])
  {
    if n > 1 { TimesIsBare(n - 1); }
  }

  function AllQuoted(parts: seq<string>): seq<string> { seq(|parts|, i requires 0 <= i < |parts| => Quoted(parts[i])) }

  lemma {:induction false} WordsJoin(parts: seq<string>)
    ensures Words(parts) == Chars.Join(AllQuoted(parts))
  {
    if |parts| > 1 {
      WordsJoin(parts[1..]);
      assert AllQuoted(parts)[1..] == AllQuoted(parts[1..]);
    }
  }

  /** sh reads a typed printer as `printf`, its format and the parts. */
  lemma {:induction false} HalvesRead(parts: seq<string>)
    requires parts != [] && forall i :: 0 <= i < |parts| ==> IsPlain(parts[i])
    ensures LoginShell.Words(LoginShell.Sh, Halves(parts)) == Some(["printf", Times("%s", |parts|)] + parts)
  {
    hide LoginShell.ReadsAs, LoginShell.Words, IsPlain, Quoted, TypedLines.Words, Times, LoginShell.IsBareData;
    var words := ["printf", Times("%s", |parts|)] + AllQuoted(parts);
    var values := ["printf", Times("%s", |parts|)] + parts;
    TimesIsBare(|parts|);
    PrintfIsBare();
    BareReadsAs(LoginShell.Sh, "printf");
    BareReadsAs(LoginShell.Sh, Times("%s", |parts|));
    forall i | 0 <= i < |words| ensures LoginShell.ReadsAs(LoginShell.Sh, words[i], values[i]) {
      if i >= 2 { QuotedReadsAs(LoginShell.Sh, parts[i - 2]); }
    }
    LoginShell.SpacedReads(LoginShell.Sh, words, values);
    WordsJoin(parts);
    assert words[1..][1..] == AllQuoted(parts);
    assert Chars.Join(words[1..]) == Times("%s", |parts|) + (" " + Chars.Join(AllQuoted(parts)));
    assert Chars.Join(words) == Halves(parts);
  }

  lemma {:induction false} PrintfIsBare()
    ensures forall i :: 0 <= i < |"printf"| ==> LoginShell.IsBareData(LoginShell.Sh, "printf"[i])
  {
  }

  // ---------------------------------------------------------------------------------- what it prints

  lemma {:induction false} PassOverAll(parts: seq<string>)
    ensures OnePass(Times("%s", |parts|), parts) == Some((Concat(parts), []))
  {
    if parts == [] {
      ConcatNothing();
    } else {
      PassOverAll(parts[1..]);
      assert Times("%s", |parts|)[2..] == Times("%s", |parts| - 1);
      ConcatCons(parts[0], parts[1..]);
      assert [parts[0]] + parts[1..] == parts;
    }
  }

  /** A printer prints its parts joined. */
  lemma {:induction false} HalvesPrint(parts: seq<string>)
    requires parts != [] && forall i :: 0 <= i < |parts| ==> IsPlain(parts[i])
    ensures Prints(Halves(parts)) == Some(Concat(parts))
  {
    hide Halves, LoginShell.Words, IsPlain, OnePass, Concat, Times;
    HalvesRead(parts);
    PassOverAll(parts);
    assert (["printf", Times("%s", |parts|)] + parts)[2..] == parts;
  }

  predicate NoDollar(s: string) { forall i :: 0 <= i < |s| ==> s[i] != '$' }

  lemma {:induction false} ExpandedPlain(a: string, b: string, vars: map<string, string>)
    requires NoDollar(a)
    ensures Expanded(a + b, vars) == a + Expanded(b, vars)
    decreases |a|
  {
    if a == "" {
      assert a + b == b;
    } else {
      assert (a + b)[1..] == a[1..] + b;
      ExpandedPlain(a[1..], b, vars);
      assert [a[0]] + (a[1..] + Expanded(b, vars)) == a + Expanded(b, vars);
    }
  }

  predicate IsName(name: string) { forall i :: 0 <= i < |name| ==> IsNameChar(name[i]) }

  lemma {:induction false} NameEnds(name: string, rest: string)
    requires IsName(name) && rest != "" && !IsNameChar(rest[0])
    ensures NameLength(name + rest) == |name|
  {
    if name == "" {
      assert name + rest == rest;
    } else {
      assert (name + rest)[1..] == name[1..] + rest;
      NameEnds(name[1..], rest);
    }
  }

  lemma {:induction false} ExpandedName(pre: string, name: string, rest: string, vars: map<string, string>)
    requires NoDollar(pre) && NoDollar(rest) && IsName(name) && name in vars
    requires name != "" && rest != "" && !IsNameChar(rest[0])
    ensures Expanded(pre + ("$" + name + rest), vars) == pre + (vars[name] + rest)
  {
    hide NoDollar, IsName;
    var s := "$" + name + rest;
    ExpandedPlain(pre, s, vars);
    NameEnds(name, rest);
    assert s[1..] == name + rest;
    DropPrefix(name, rest);
    ExpandedPlain(rest, "", vars);
    assert rest + "" == rest;
  }

  /** A printer of four parts, cut around the third. */
  function Lead(a: string, b: string): string {
    "printf " + ("%s%s%s%s" + (" " + (Quoted(a) + (" " + (Quoted(b) + " \"")))))
  }

  lemma {:induction false} HalvesFour(a: string, b: string, x: string, c: string)
    ensures Halves([a, b, x, c]) == Lead(a, b) + (x + ("\" " + Quoted(c)))
  {
    hide Times;
    FourWords(a, b, x, c);
    FourTimes();
    var rest := x + ("\" " + Quoted(c));
    MiddleWord(x, Quoted(c));
    Assoc(Quoted(b), " \"", rest);
    Assoc(" ", Quoted(b) + " \"", rest);
    Assoc(Quoted(a), " " + (Quoted(b) + " \""), rest);
    Assoc(" ", Quoted(a) + (" " + (Quoted(b) + " \"")), rest);
    Assoc("%s%s%s%s", " " + (Quoted(a) + (" " + (Quoted(b) + " \""))), rest);
    Assoc("printf ", "%s%s%s%s" + (" " + (Quoted(a) + (" " + (Quoted(b) + " \"")))), rest);
  }

  lemma {:induction false} MiddleWord(x: string, last: string)
    ensures " " + (Quoted(x) + (" " + last)) == " \"" + (x + ("\" " + last))
  {
    assert " " + ("\"" + (x + "\"") + (" " + last)) == " \"" + (x + ("\" " + last));
  }

  lemma {:induction false} FourWords(a: string, b: string, x: string, c: string)
    ensures Words([a, b, x, c]) == Quoted(a) + (" " + (Quoted(b) + (" " + (Quoted(x) + (" " + Quoted(c))))))
  {
    hide Quoted;
    assert [a, b, x, c][1..] == [b, x, c] && [b, x, c][1..] == [x, c] && [x, c][1..] == [c];
    assert Words([c]) == Quoted(c);
    assert Words([x, c]) == Quoted(x) + (" " + Quoted(c));
    assert Words([b, x, c]) == Quoted(b) + (" " + Words([x, c]));
  }

  lemma {:induction false} FourTimes()
    ensures Times("%s", 4) == "%s%s%s%s"
  {
    assert Times("%s", 1) == "%s" && Times("%s", 2) == "%s%s" && Times("%s", 3) == "%s%s%s";
  }

  // -------------------------------------------------------------------------------------- the markers

  lemma {:induction false} ConcatTwo(a: string, b: string)
    ensures Concat([a, b]) == a + b
  {
    ConcatNothing();
    ConcatPush([], a);
    ConcatPush([a], b);
    assert [] + [a] == [a] && [a] + [b] == [a, b] && "" + a == a;
  }

  lemma {:induction false} ConcatFour(a: string, b: string, c: string, d: string)
    ensures Concat([a, b, c, d]) == a + b + c + d
  {
    ConcatTwo(a, b);
    ConcatPush([a, b], c);
    ConcatPush([a, b, c], d);
    assert [a, b] + [c] == [a, b, c] && [a, b, c] + [d] == [a, b, c, d];
  }

  lemma {:induction false} TokenIsPlain(token: string, tail: string)
    requires IsToken(token) && IsPlain(tail)
    ensures IsPlain(token + tail)
  {
    forall i | 0 <= i < |token + tail| ensures (token + tail)[i] !in "$`\"\\" {
      if i < |token| { assert IsHex(token[i]); } else { assert (token + tail)[i] == tail[i - |token|]; }
    }
  }

  lemma {:induction false} DigitsArePlain(digits: string)
    requires Digits(digits)
    ensures IsPlain(digits)
  {
  }

  /** The printers of the main line print the two markers before the end. */
  lemma {:induction false} FramesPrint(token: string, input: Option<seq<Base64.Byte>>, merge: bool)
    requires IsToken(token)
    ensures Prints(MainCommands(token, input, merge)[2]) == Some(MarkersOf(token).start)
    ensures Prints(MainCommands(token, input, merge)[5]) == Some(MarkersOf(token).mid)
  {
    hide Prints, Halves, EvalText;
    TokenIsPlain(token, "__");
    HalvesPrint(["__ST", token + "__"]);
    HalvesPrint(["__OUT", token + "__"]);
    ConcatTwo("__ST", token + "__");
    ConcatTwo("__OUT", token + "__");
    assert "__ST" + (token + "__") == MarkersOf(token).start && "__OUT" + (token + "__") == MarkersOf(token).mid;
  }

  /** And with the command's status in its variable, the third prints the end marker. */
  lemma {:induction false} EndPrints(token: string, input: Option<seq<Base64.Byte>>, merge: bool, digits: string,
                                     vars: map<string, string>)
    requires IsToken(token) && Digits(digits) && Var(token) + "r" in vars && vars[Var(token) + "r"] == digits
    ensures Prints(Expanded(MainCommands(token, input, merge)[9], vars)) == Some(EndMarker(MarkersOf(token), digits))
  {
    hide Prints, Halves, EvalText, Expanded, IsPlain, NoDollar, IsName;
    var a, b, name, c := "__EN", token + "_", Var(token) + "r", "_EN__";
    HalvesFour(a, b, "$" + name, c);
    HalvesFour(a, b, digits, c);
    EndParts(token);
    ExpandedName(Lead(a, b), name, "\" " + Quoted(c), vars);
    assert "$" + name + ("\" " + Quoted(c)) == ("$" + name) + ("\" " + Quoted(c));
    TokenIsPlain(token, "_");
    DigitsArePlain(digits);
    FixedArePlain();
    HalvesPrint([a, b, digits, c]);
    ConcatFour(a, b, digits, c);
    assert a + b + digits + c == EndMarker(MarkersOf(token), digits);
  }

  lemma {:induction false} EndParts(token: string)
    requires IsToken(token)
    ensures NoDollar(Lead("__EN", token + "_")) && IsName(Var(token) + "r") && NoDollar("\" " + Quoted("_EN__"))
  {
    forall i | 0 <= i < |token| ensures token[i] != '$' && IsNameChar(token[i]) { assert IsHex(token[i]); }
  }

  lemma {:induction false} FixedArePlain()
    ensures IsPlain("__EN") && IsPlain("_EN__") && IsPlain("_") && IsPlain("__")
  {
  }

  /** What is appended to a batch's last line prints that batch's acknowledgement. */
  lemma {:induction false} AckPrints(token: string, number: nat) returns (printer: string)
    requires IsToken(token)
    ensures AckSuffix(token, number) == "; " + printer
    ensures Prints(printer) == Some(AckMarker(token, number))
  {
    hide Prints, Halves, IsPlain, Decimal;
    var tail := "_" + Decimal(number) + "__";
    printer := Halves(["__AK", token + tail]);
    NumberIsPlain(number);
    TokenIsPlain(token, tail);
    AckIsPlain();
    HalvesPrint(["__AK", token + tail]);
    ConcatTwo("__AK", token + tail);
  }

  lemma {:induction false} AckIsPlain()
    ensures IsPlain("__AK")
  {
  }

  lemma {:induction false} NumberIsPlain(number: nat)
    ensures IsPlain("_" + Decimal(number) + "__")
  {
    DecimalDigits(number);
  }

  // ---------------------------------------------------------------------------------- the file lines

  lemma {:induction false} ChunkWithin(text: string, k: nat)
    requires k < |Chunks(text)| && LoginShell.NoQuoteNoSlash(text)
    ensures LoginShell.NoQuoteNoSlash(Chunks(text)[k])
  {
    if k > 0 {
      assert LoginShell.NoQuoteNoSlash(text[CHUNK..]);
      ChunkWithin(text[CHUNK..], k - 1);
    }
  }

  lemma {:induction false} SingleReadsAs(d: LoginShell.Dialect, text: string)
    requires LoginShell.NoQuoteNoSlash(text)
    ensures LoginShell.ReadsAs(d, "'" + (text + "'"), text)
  {
    hide LoginShell.Lex, LoginShell.NoQuoteNoSlash;
    forall rest | rest == "" || rest[0] == ' '
      ensures LoginShell.Lex(d, "'" + (text + "'") + rest, LoginShell.Bare, "", false)
              == LoginShell.Lex(d, rest, LoginShell.Bare, text, true)
    {
      LoginShell.LexQuotedRun(d, text, rest, "", false);
      assert "" + text == text;
    }
  }

  /** A line that appends a piece of base64 to a file appends exactly that piece: so the file holds in the end what
      `TypedLines.BytesArrive` decodes. */
  lemma {:induction false} PiecePrints(data: seq<Base64.Byte>, token: string, name: string, k: nat) returns (printer: string)
    requires k < |Chunks(Base64.Encode(data))|
    ensures AppendLine(Chunks(Base64.Encode(data))[k], token, name) == printer + (" >> " + (Tmp(token) + name))
    ensures Prints(printer) == Some(Chunks(Base64.Encode(data))[k])
  {
    hide LoginShell.ReadsAs, LoginShell.Words, LoginShell.NoQuoteNoSlash, Tmp, Chunks, Base64.Encode, OnePass;
    var piece := Chunks(Base64.Encode(data))[k];
    printer := "printf %s '" + (piece + "'");
    AppendParts(piece, Tmp(token) + name);
    NoQuotes(data);
    ChunkWithin(Base64.Encode(data), k);
    PieceReads(piece);
    PassOverOne(piece);
  }

  lemma {:induction false} PieceReads(piece: string)
    requires LoginShell.NoQuoteNoSlash(piece)
    ensures LoginShell.Words(LoginShell.Sh, "printf %s '" + (piece + "'")) == Some(["printf", "%s", piece])
  {
    hide LoginShell.ReadsAs, LoginShell.Words, LoginShell.NoQuoteNoSlash, LoginShell.IsBareData;
    var words, values := ["printf", "%s", "'" + (piece + "'")], ["printf", "%s", piece];
    PrintfIsBare();
    OneIsBare();
    BareReadsAs(LoginShell.Sh, "printf");
    BareReadsAs(LoginShell.Sh, "%s");
    SingleReadsAs(LoginShell.Sh, piece);
    LoginShell.SpacedReads(LoginShell.Sh, words, values);
    assert words[1..] == ["%s", "'" + (piece + "'")] && words[1..][1..] == ["'" + (piece + "'")];
    assert Chars.Join(words[1..]) == "%s" + (" " + ("'" + (piece + "'")));
    assert "printf" + (" " + ("%s" + (" " + ("'" + (piece + "'"))))) == "printf %s '" + (piece + "'");
  }

  lemma {:induction false} OneIsBare()
    ensures forall i :: 0 <= i < |"%s"| ==> LoginShell.IsBareData(LoginShell.Sh, "%s"[i])
  {
  }

  lemma {:induction false} PassOverOne(piece: string)
    ensures OnePass("%s", [piece]) == Some((piece, []))
  {
    assert "%s"[2..] == "" && piece + "" == piece;
  }

  lemma {:induction false} AppendParts(piece: string, rest: string)
    ensures "printf %s '" + (piece + ("' >> " + rest)) == "printf %s '" + (piece + "'") + (" >> " + rest)
  {
  }

  lemma {:induction false} NoQuotes(data: seq<Base64.Byte>)
    ensures LoginShell.NoQuoteNoSlash(Base64.Encode(data))
  {
    Base64.Shape(data);
  }
}
