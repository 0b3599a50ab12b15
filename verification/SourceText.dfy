/** The text of a script, character by character: a reader that takes it apart again into the pieces that were written, and
    the theorems of `Script` about that text.

    The reader knows the operators, the reserved words and the two builtins that a script is written with. A caller's
    command, a file name, a directory, a name or a value is one unit: it stands for itself. */
module SourceText {
  import opened Options
  import opened Script

  /** One character of the source, or a unit. */
  datatype Symbol = Char(c: char) | Unit(text: string)

  function Chars(s: string): seq<Symbol> { seq(|s|, i requires 0 <= i < |s| => Char(s[i])) }

  function Spelled(symbol: Symbol): string { if symbol.Char? then [symbol.c] else symbol.text }

  /** The text itself, the units' borders forgotten. */
  function Erase(symbols: seq<Symbol>): string {
    if symbols == [] then "" else Spelled(symbols[0]) + Erase(symbols[1..])
  }

  /** One piece with its units marked. */
  function Marked(d: Dialect, piece: Piece): seq<Symbol> {
    match piece
    case Word(text) => [Unit(text)]
    case To(append, operand) => Chars(if append then " >> " else " > ") + [Unit(operand)]
    case Cd(dir) => Chars("cd -- ") + [Unit(dir)]
    case Export(name, value) =>
      if d == Posix then Chars("export ") + [Unit(name)] + Chars("=") + [Unit(value)]
      else Chars("set -gx ") + [Unit(name)] + Chars(" ") + [Unit(value)]
    case _ => Chars(Text(d, piece))
  }

  /** The source with its units marked. */
  function Source(d: Dialect, pieces: seq<Piece>): seq<Symbol> {
    if pieces == [] then [] else Marked(d, pieces[0]) + Source(d, pieces[1..])
  }

  lemma {:induction false} EraseJoin(a: seq<Symbol>, b: seq<Symbol>)
    ensures Erase(a + b) == Erase(a) + Erase(b)
  {
    if a == [] {
      assert a + b == b;
    } else {
      assert (a + b)[1..] == a[1..] + b;
      EraseJoin(a[1..], b);
      assert Spelled(a[0]) + (Erase(a[1..]) + Erase(b)) == Spelled(a[0]) + Erase(a[1..]) + Erase(b);
    }
  }

  lemma {:induction false} EraseChars(s: string)
    ensures Erase(Chars(s)) == s
  {
    if s != "" {
      assert Chars(s)[1..] == Chars(s[1..]);
      EraseChars(s[1..]);
    }
  }

  lemma {:induction false} EraseUnit(text: string)
    ensures Erase([Unit(text)]) == text
  {
    assert [Unit(text)][1..] == [] && text + "" == text;
  }

  lemma {:induction false} EraseTwo(s: string, text: string)
    ensures Erase(Chars(s) + [Unit(text)]) == s + text
  {
    EraseJoin(Chars(s), [Unit(text)]);
    EraseChars(s);
    EraseUnit(text);
  }

  lemma {:induction false} MarkedIsText(d: Dialect, piece: Piece)
    ensures Erase(Marked(d, piece)) == Text(d, piece)
  {
    hide Chars, Erase;
    match piece
    case Word(text) => EraseUnit(text);
    case To(append, operand) => EraseTwo(if append then " >> " else " > ", operand);
    case Cd(dir) => EraseTwo("cd -- ", dir);
    case Export(name, value) =>
      var head, mid := if d == Posix then "export " else "set -gx ", if d == Posix then "=" else " ";
      EraseTwo(head, name);
      EraseTwo(mid, value);
      EraseJoin(Chars(head) + [Unit(name)], Chars(mid) + [Unit(value)]);
      assert Chars(head) + [Unit(name)] + Chars(mid) + [Unit(value)] == Chars(head) + [Unit(name)] + (Chars(mid) + [Unit(value)]);
      assert head + name + (mid + value) == head + name + mid + value;
    case _ => EraseChars(Text(d, piece));
  }

  lemma {:induction false} SourceMore(d: Dialect, pieces: seq<Piece>, piece: Piece)
    ensures Source(d, pieces + [piece]) == Source(d, pieces) + Marked(d, piece)
  {
    hide Marked;
    if pieces == [] {
      assert pieces + [piece] == [piece] && [piece][1..] == [];
    } else {
      assert (pieces + [piece])[1..] == pieces[1..] + [piece];
      SourceMore(d, pieces[1..], piece);
    }
  }

  /** Forgetting the marks gives the text that the program returns. */
  lemma {:induction false} SourceIsText(d: Dialect, pieces: seq<Piece>)
    ensures Erase(Source(d, pieces)) == Texts(d, pieces)
    decreases |pieces|
  {
    hide Marked, Text;
    if pieces != [] {
      var n := |pieces| - 1;
      assert pieces == pieces[..n] + [pieces[n]];
      SourceIsText(d, pieces[..n]);
      SourceMore(d, pieces[..n], pieces[n]);
      EraseJoin(Source(d, pieces[..n]), Marked(d, pieces[n]));
      MarkedIsText(d, pieces[n]);
    }
  }

  // ---------------------------------------------------------------------------------------- the reader

  /** An operator, or a word: symbols with no blank and no operator between them. */
  datatype Tok = Op(text: string) | Item(symbols: seq<Symbol>)

  predicate IsOperator(c: char) { c in "|&;<>()\n" }

  /** Characters that mean themselves in a word. */
  predicate IsData(c: char) { 'a' <= c <= 'z' || c in "-={}" }

  /** The longest operator at the start (sections 2.3 and 2.10.1 of the POSIX.1-2017 shell language); "" for one that no
      script is written with. */
  function Operator(symbols: seq<Symbol>): (op: string)
    ensures |op| <= |symbols| && |op| <= 2
  {
    if symbols == [] || symbols[0].Unit? then ""
    else
      var c := symbols[0].c;
      if |symbols| > 1 && symbols[1] == Char(c) && c in "|&>" then [c, c] else if c in "|;>\n" then [c] else ""
  }

  function Ended(item: seq<Symbol>): seq<Tok> { if item == [] then [] else [Item(item)] }

  function Behind(toks: seq<Tok>, more: Option<seq<Tok>>): Option<seq<Tok>> {
    if more.None? then None else Some(toks + more.value)
  }

  /** The tokens; `item` is what was read of the word that is open. */
  function Lex(symbols: seq<Symbol>, item: seq<Symbol>): Option<seq<Tok>>
    decreases |symbols|
  {
    if symbols == [] then Some(Ended(item))
    else
      var s, rest := symbols[0], symbols[1..];
      if s.Unit? || IsData(s.c) then Lex(rest, item + [s])
      else if s.c == ' ' then Behind(Ended(item), Lex(rest, []))
      else
        var op := Operator(symbols);
        if op == "" then None else Behind(Ended(item) + [Op(op)], Lex(symbols[|op|..], []))
  }

  function Reserved(word: string): Tok { Item(Chars(word)) }

  predicate IsUnit(tok: Tok) { tok.Item? && |tok.symbols| == 1 && tok.symbols[0].Unit? }

  /** `NAME=value`, with both of them units. */
  predicate IsAssignment(tok: Tok) {
    tok.Item? && |tok.symbols| == 3 && tok.symbols[0].Unit? && tok.symbols[1] == Char('=') && tok.symbols[2].Unit?
  }

  function Closer(d: Dialect): Tok { Reserved(if d == Posix then "}" else "end") }

  predicate Second(toks: seq<Tok>, tok: Tok) { |toks| > 1 && toks[1] == tok }

  /** The piece that the tokens begin with, and how many of them it takes. A closing word ends a group where a command could
      begin, and so do fish's `and` and `or`. */
  function First(d: Dialect, toks: seq<Tok>): (r: Option<(Piece, nat)>)
    requires toks != []
    ensures r.Some? ==> 0 < r.value.1 <= |toks|
  {
    var t := toks[0];
    if t.Op? then
      if t.text == ">" || t.text == ">>" then
        if |toks| > 1 && IsUnit(toks[1]) then Some((To(t.text == ">>", toks[1].symbols[0].text), 2)) else None
      else if t.text == "|" then Some((Bar, 1))
      else if t.text == "&&" || t.text == "||" then
        if d == Posix then Some((if t.text == "&&" then AndIf else OrIf, 1)) else None
      else if t.text == ";" || t.text == "\n" then
        if Second(toks, Closer(d)) then Some((Close(t.text == "\n"), 2))
        else if d == FishShell && t.text == ";" && Second(toks, Reserved("and")) then Some((AndIf, 2))
        else if d == FishShell && t.text == ";" && Second(toks, Reserved("or")) then Some((OrIf, 2))
        else Some((Semi(t.text == "\n"), 1))
      else None
    else if IsUnit(t) then Some((Word(t.symbols[0].text), 1))
    else if t == Reserved("cd") then
      if |toks| > 2 && toks[1] == Reserved("--") && IsUnit(toks[2]) then Some((Cd(toks[2].symbols[0].text), 3)) else None
    else if d == Posix then
      if t == Reserved("{") then Some((Open, 1))
      else if t == Reserved("export") && |toks| > 1 && IsAssignment(toks[1]) then
        Some((Export(toks[1].symbols[0].text, toks[1].symbols[2].text), 2))
      else None
    else if t == Reserved("begin") && Second(toks, Op(";")) then Some((Open, 2))
    else if t == Reserved("set") && |toks| > 3 && toks[1] == Reserved("-gx") && IsUnit(toks[2]) && IsUnit(toks[3]) then
      Some((Export(toks[2].symbols[0].text, toks[3].symbols[0].text), 4))
    else None
  }

  function Pieces(d: Dialect, toks: seq<Tok>): Option<seq<Piece>>
    decreases |toks|
  {
    if toks == [] then Some([])
    else
      var first := First(d, toks);
      if first.None? then None
      else
        var rest := Pieces(d, toks[first.value.1..]);
        if rest.None? then None else Some([first.value.0] + rest.value)
  }

  /** The pieces that a source is read as. */
  function ReadPieces(d: Dialect, source: seq<Symbol>): Option<seq<Piece>> {
    var toks := Lex(source, []);
    if toks.None? then None else Pieces(d, toks.value)
  }

  // ------------------------------------------------------------------------------------ reading back

  /** The tokens of one piece. */
  function Toks(d: Dialect, piece: Piece): seq<Tok> {
    match piece
    case Word(text) => [Item([Unit(text)])]
    case To(append, operand) => [Op(if append then ">>" else ">"), Item([Unit(operand)])]
    case Bar => [Op("|")]
    case AndIf => if d == Posix then [Op("&&")] else [Op(";"), Reserved("and")]
    case OrIf => if d == Posix then [Op("||")] else [Op(";"), Reserved("or")]
    case Semi(newline) => [Op(if newline then "\n" else ";")]
    case Open => if d == Posix then [Reserved("{")] else [Reserved("begin"), Op(";")]
    case Close(newline) => [Op(if newline then "\n" else ";"), Closer(d)]
    case Cd(dir) => [Reserved("cd"), Reserved("--"), Item([Unit(dir)])]
    case Export(name, value) =>
      if d == Posix then [Reserved("export"), Item([Unit(name), Char('='), Unit(value)])]
      else [Reserved("set"), Reserved("-gx"), Item([Unit(name)]), Item([Unit(value)])]
  }

  function AllToks(d: Dialect, pieces: seq<Piece>): seq<Tok> {
    if pieces == [] then [] else Toks(d, pieces[0]) + AllToks(d, pieces[1..])
  }

  /** A command may not begin here without an operator. */
  predicate Leads(piece: Piece) { piece.Word? || piece.Cd? || piece.Export? || piece.Open? }

  predicate Joins(piece: Piece) { piece.Bar? || piece.AndIf? || piece.OrIf? || piece.Semi? || piece.Open? }

  /** Commands and operators take turns. */
  predicate InTurn(pieces: seq<Piece>) {
    forall i :: 0 <= i < |pieces| - 1 ==> (Joins(pieces[i]) <==> Leads(pieces[i + 1]))
  }

  /** A word ends here: nothing follows, a blank, or an operator. */
  predicate Breaks(symbols: seq<Symbol>) {
    symbols != [] ==> symbols[0].Char? && (symbols[0].c == ' ' || symbols[0].c in "|&;>\n")
  }

  /** What one more symbol of a word does. */
  lemma {:induction false} LexData(symbols: seq<Symbol>, word: string, item: seq<Symbol>, rest: seq<Symbol>)
    requires symbols == Chars(word) + rest && forall i :: 0 <= i < |word| ==> IsData(word[i])
    ensures Lex(symbols, item) == Lex(rest, item + Chars(word))
    decreases |word|
  {
    if word == "" {
      assert symbols == rest && item + Chars(word) == item;
    } else {
      assert symbols[1..] == Chars(word[1..]) + rest;
      LexData(symbols[1..], word[1..], item + [Char(word[0])], rest);
      assert item + [Char(word[0])] + Chars(word[1..]) == item + Chars(word);
    }
  }

  lemma {:induction false} BehindTwice(a: seq<Tok>, b: seq<Tok>, more: Option<seq<Tok>>)
    ensures Behind(a, Behind(b, more)) == Behind(a + b, more) && Behind([], more) == more
  {
    if more.Some? {
      assert a + (b + more.value) == a + b + more.value;
      assert [] + more.value == more.value;
    }
  }

  lemma {:induction false} LexBlank(item: seq<Symbol>, rest: seq<Symbol>)
    ensures Lex([Char(' ')] + rest, item) == Behind(Ended(item), Lex(rest, []))
  {
    assert ([Char(' ')] + rest)[1..] == rest;
  }

  lemma {:induction false} LexUnit(text: string, item: seq<Symbol>, rest: seq<Symbol>)
    ensures Lex([Unit(text)] + rest, item) == Lex(rest, item + [Unit(text)])
  {
    assert ([Unit(text)] + rest)[1..] == rest;
  }

  /** An operator of one character, where the character is not doubled. */
  lemma {:induction false} LexOne(c: char, rest: seq<Symbol>)
    requires c in "|;>\n" && (c in ";\n" || rest == [] || rest[0] != Char(c))
    ensures Lex([Char(c)] + rest, []) == Behind([Op([c])], Lex(rest, []))
  {
    var symbols := [Char(c)] + rest;
    assert symbols[1..] == rest && Operator(symbols) == [c];
    assert [] + [Op([c])] == [Op([c])];
  }

  lemma {:induction false} LexTwo(c: char, rest: seq<Symbol>)
    requires c in "|&>"
    ensures Lex([Char(c), Char(c)] + rest, []) == Behind([Op([c, c])], Lex(rest, []))
  {
    var symbols := [Char(c), Char(c)] + rest;
    assert symbols[2..] == rest && Operator(symbols) == [c, c];
    assert [] + [Op([c, c])] == [Op([c, c])];
  }

  lemma {:induction false} LexEnds(item: seq<Symbol>, rest: seq<Symbol>)
    requires item != [] && Breaks(rest)
    ensures Lex(rest, item) == Behind([Item(item)], Lex(rest, []))
  {
    if rest == [] {
      assert [Item(item)] + [] == [Item(item)];
    } else if rest[0].c == ' ' {
      assert [Char(' ')] + rest[1..] == rest;
      LexBlank(item, rest[1..]);
      LexBlank([], rest[1..]);
      BehindTwice([Item(item)], [], Lex(rest[1..], []));
      assert [Item(item)] + [] == [Item(item)];
    } else {
      var op := Operator(rest);
      if op != "" {
        BehindTwice([Item(item)], [Op(op)], Lex(rest[|op|..], []));
        assert [] + [Op(op)] == [Op(op)];
      }
    }
  }

  predicate IsWord(word: string) { word != "" && forall i :: 0 <= i < |word| ==> IsData(word[i]) }

  lemma {:induction false} LexWord(word: string, rest: seq<Symbol>)
    requires IsWord(word) && Breaks(rest)
    ensures Lex(Chars(word) + rest, []) == Behind([Reserved(word)], Lex(rest, []))
  {
    hide Lex, Breaks;
    LexData(Chars(word) + rest, word, [], rest);
    assert [] + Chars(word) == Chars(word);
    LexEnds(Chars(word), rest);
  }

  lemma {:induction false} LexItem(text: string, rest: seq<Symbol>)
    requires Breaks(rest)
    ensures Lex([Unit(text)] + rest, []) == Behind([Item([Unit(text)])], Lex(rest, []))
  {
    hide Lex, Breaks;
    LexUnit(text, [], rest);
    assert [] + [Unit(text)] == [Unit(text)];
    LexEnds([Unit(text)], rest);
  }

  lemma {:induction false} LexSpaced(word: string, rest: seq<Symbol>)
    requires IsWord(word)
    ensures Lex(Chars(word) + ([Char(' ')] + rest), []) == Behind([Reserved(word)], Lex(rest, []))
  {
    hide Lex;
    LexWord(word, [Char(' ')] + rest);
    LexBlank([], rest);
    BehindTwice([], [], Lex(rest, []));
  }

  /** What may follow a piece: a command behind an operator, anything else behind a command. */
  predicate MayFollow(piece: Piece, rest: seq<Symbol>) {
    if Joins(piece) then rest != [] ==> rest[0].Unit? || IsData(rest[0].c) else Breaks(rest)
  }

  lemma {:induction false} LexTo(d: Dialect, append: bool, operand: string, rest: seq<Symbol>)
    requires Breaks(rest)
    ensures Lex(Marked(d, To(append, operand)) + rest, []) == Behind(Toks(d, To(append, operand)), Lex(rest, []))
  {
    hide Lex, Breaks;
    var tail := [Char(' ')] + ([Unit(operand)] + rest);
    var op := if append then [Char('>'), Char('>')] else [Char('>')];
    assert Marked(d, To(append, operand)) + rest == [Char(' ')] + (op + tail);
    LexBlank([], op + tail);
    if append { LexTwo('>', tail); } else { LexOne('>', tail); }
    LexBlank([], [Unit(operand)] + rest);
    LexItem(operand, rest);
    var text := if append then ">>" else ">";
    BehindTwice([Op(text)], [Item([Unit(operand)])], Lex(rest, []));
    BehindTwice([], [], Lex([Unit(operand)] + rest, []));
    assert [Op(text)] + [Item([Unit(operand)])] == Toks(d, To(append, operand));
    BehindTwice([], [], Lex(op + tail, []));
  }

  lemma {:induction false} LexCd(d: Dialect, dir: string, rest: seq<Symbol>)
    requires Breaks(rest)
    ensures Lex(Marked(d, Cd(dir)) + rest, []) == Behind(Toks(d, Cd(dir)), Lex(rest, []))
  {
    hide Lex, Breaks;
    var last := [Unit(dir)] + rest;
    assert Marked(d, Cd(dir)) + rest == Chars("cd") + ([Char(' ')] + (Chars("--") + ([Char(' ')] + last)));
    LexSpaced("cd", Chars("--") + ([Char(' ')] + last));
    LexSpaced("--", last);
    LexItem(dir, rest);
    BehindTwice([Reserved("--")], [Item([Unit(dir)])], Lex(rest, []));
    BehindTwice([Reserved("cd")], [Reserved("--"), Item([Unit(dir)])], Lex(rest, []));
    assert [Reserved("--")] + [Item([Unit(dir)])] == [Reserved("--"), Item([Unit(dir)])];
    assert [Reserved("cd")] + [Reserved("--"), Item([Unit(dir)])] == Toks(d, Cd(dir));
  }

  lemma {:induction false} LexExport(name: string, value: string, rest: seq<Symbol>)
    requires Breaks(rest)
    ensures Lex(Marked(Posix, Export(name, value)) + rest, []) == Behind(Toks(Posix, Export(name, value)), Lex(rest, []))
  {
    hide Lex, Breaks;
    var last := [Unit(value)] + rest;
    assert Marked(Posix, Export(name, value)) + rest == Chars("export") + ([Char(' ')] + ([Unit(name)] + (Chars("=") + last)));
    LexSpaced("export", [Unit(name)] + (Chars("=") + last));
    LexUnit(name, [], Chars("=") + last);
    LexData(Chars("=") + last, "=", [Unit(name)], last);
    assert [] + [Unit(name)] == [Unit(name)] && [Unit(name)] + Chars("=") == [Unit(name), Char('=')];
    LexUnit(value, [Unit(name), Char('=')], rest);
    var item := [Unit(name), Char('='), Unit(value)];
    assert [Unit(name), Char('=')] + [Unit(value)] == item;
    LexEnds(item, rest);
    BehindTwice([Reserved("export")], [Item(item)], Lex(rest, []));
    assert [Reserved("export")] + [Item(item)] == Toks(Posix, Export(name, value));
  }

  lemma {:induction false} LexSet(name: string, value: string, rest: seq<Symbol>)
    requires Breaks(rest)
    ensures Lex(Marked(FishShell, Export(name, value)) + rest, []) == Behind(Toks(FishShell, Export(name, value)), Lex(rest, []))
  {
    hide Lex, Breaks;
    var last := [Unit(value)] + rest;
    var third := [Unit(name)] + ([Char(' ')] + last);
    assert Marked(FishShell, Export(name, value)) + rest == Chars("set") + ([Char(' ')] + (Chars("-gx") + ([Char(' ')] + third)));
    LexSpaced("set", Chars("-gx") + ([Char(' ')] + third));
    LexSpaced("-gx", third);
    BlankBreaks(last);
    LexItem(name, [Char(' ')] + last);
    LexBlank([], last);
    BehindTwice([], [], Lex(last, []));
    LexItem(value, rest);
    BehindTwice([Item([Unit(name)])], [Item([Unit(value)])], Lex(rest, []));
    BehindTwice([Reserved("-gx")], [Item([Unit(name)]), Item([Unit(value)])], Lex(rest, []));
    BehindTwice([Reserved("set")], [Reserved("-gx"), Item([Unit(name)]), Item([Unit(value)])], Lex(rest, []));
    assert [Item([Unit(name)])] + [Item([Unit(value)])] == [Item([Unit(name)]), Item([Unit(value)])];
    assert [Reserved("-gx")] + [Item([Unit(name)]), Item([Unit(value)])] == [Reserved("-gx"), Item([Unit(name)]), Item([Unit(value)])];
    assert [Reserved("set")] + [Reserved("-gx"), Item([Unit(name)]), Item([Unit(value)])] == Toks(FishShell, Export(name, value));
  }

  lemma {:induction false} BlankBreaks(rest: seq<Symbol>)
    ensures Breaks([Char(' ')] + rest)
  {
  }

  /** fish's operators and the words that open and close a group. */
  lemma {:induction false} LexClause(newline: bool, word: string, rest: seq<Symbol>)
    requires IsWord(word) && Breaks(rest)
    ensures Lex(Chars(if newline then "\n" else "; ") + Chars(word) + rest, [])
            == Behind([Op(if newline then "\n" else ";"), Reserved(word)], Lex(rest, []))
  {
    hide Lex, Breaks;
    LexWord(word, rest);
    var tail := Chars(word) + rest;
    if newline {
      assert Chars("\n") + Chars(word) + rest == [Char('\n')] + tail;
      LexOne('\n', tail);
    } else {
      assert Chars("; ") + Chars(word) + rest == [Char(';')] + ([Char(' ')] + tail);
      LexOne(';', [Char(' ')] + tail);
      LexBlank([], tail);
      BehindTwice([], [], Lex(tail, []));
    }
    var op := Op(if newline then "\n" else ";");
    BehindTwice([op], [Reserved(word)], Lex(rest, []));
    assert [op] + [Reserved(word)] == [op, Reserved(word)];
  }

  lemma {:induction false} LexWordThenOp(word: string, rest: seq<Symbol>)
    requires IsWord(word)
    ensures Lex(Chars(word) + ([Char(';')] + ([Char(' ')] + rest)), []) == Behind([Reserved(word), Op(";")], Lex(rest, []))
  {
    hide Lex;
    LexWord(word, [Char(';')] + ([Char(' ')] + rest));
    LexOne(';', [Char(' ')] + rest);
    LexBlank([], rest);
    BehindTwice([], [], Lex(rest, []));
    BehindTwice([Reserved(word)], [Op(";")], Lex(rest, []));
    assert [Reserved(word)] + [Op(";")] == [Reserved(word), Op(";")];
  }

  lemma {:induction false} LexLink(word: string, rest: seq<Symbol>)
    requires IsWord(word)
    ensures Lex(Chars("; ") + Chars(word) + ([Char(' ')] + rest), []) == Behind([Op(";"), Reserved(word)], Lex(rest, []))
  {
    hide Lex;
    BlankBreaks(rest);
    LexClause(false, word, [Char(' ')] + rest);
    LexBlank([], rest);
    BehindTwice([], [], Lex(rest, []));
  }

  lemma {:induction false} LexPosix(piece: Piece, rest: seq<Symbol>)
    requires MayFollow(piece, rest) && (Joins(piece) || piece.Close?)
    ensures Lex(Marked(Posix, piece) + rest, []) == Behind(Toks(Posix, piece), Lex(rest, []))
  {
    hide Lex;
    match piece
    case Bar =>
      assert Chars("|") == [Char('|')];
      LexOne('|', rest);
    case AndIf =>
      assert Chars("&&") == [Char('&'), Char('&')];
      LexTwo('&', rest);
    case OrIf =>
      assert Chars("||") == [Char('|'), Char('|')];
      LexTwo('|', rest);
    case Semi(newline) =>
      assert Chars("\n") == [Char('\n')] && Chars(";") == [Char(';')];
      LexOne(if newline then '\n' else ';', rest);
    case Open =>
      assert Chars("{ ") + rest == Chars("{") + ([Char(' ')] + rest);
      LexSpaced("{", rest);
    case Close(newline) =>
      assert Chars("\n}") == Chars("\n") + Chars("}") && Chars("; }") == Chars("; ") + Chars("}");
      LexClause(newline, "}", rest);
  }

  lemma {:induction false} LexFish(piece: Piece, rest: seq<Symbol>)
    requires MayFollow(piece, rest) && (Joins(piece) || piece.Close?)
    ensures Lex(Marked(FishShell, piece) + rest, []) == Behind(Toks(FishShell, piece), Lex(rest, []))
  {
    hide Lex;
    match piece
    case Bar =>
      assert Chars("|") == [Char('|')];
      LexOne('|', rest);
    case AndIf =>
      assert Chars("; and ") + rest == Chars("; ") + Chars("and") + ([Char(' ')] + rest);
      LexLink("and", rest);
    case OrIf =>
      assert Chars("; or ") + rest == Chars("; ") + Chars("or") + ([Char(' ')] + rest);
      LexLink("or", rest);
    case Semi(newline) =>
      assert Chars("\n") == [Char('\n')] && Chars(";") == [Char(';')];
      LexOne(if newline then '\n' else ';', rest);
    case Open =>
      assert Chars("begin; ") + rest == Chars("begin") + ([Char(';')] + ([Char(' ')] + rest));
      LexWordThenOp("begin", rest);
    case Close(newline) =>
      assert Chars("\nend") == Chars("\n") + Chars("end") && Chars("; end") == Chars("; ") + Chars("end");
      LexClause(newline, "end", rest);
  }

  lemma {:induction false} LexPiece(d: Dialect, piece: Piece, rest: seq<Symbol>)
    requires MayFollow(piece, rest)
    ensures Lex(Marked(d, piece) + rest, []) == Behind(Toks(d, piece), Lex(rest, []))
  {
    hide Lex, Marked, Toks;
    match piece
    case Word(text) => LexCommand(d, text, rest);
    case To(append, operand) => LexTo(d, append, operand, rest);
    case Cd(dir) => LexCd(d, dir, rest);
    case Export(name, value) => if d == Posix { LexExport(name, value, rest); } else { LexSet(name, value, rest); }
    case _ => if d == Posix { LexPosix(piece, rest); } else { LexFish(piece, rest); }
  }

  lemma {:induction false} LexCommand(d: Dialect, text: string, rest: seq<Symbol>)
    requires Breaks(rest)
    ensures Lex(Marked(d, Word(text)) + rest, []) == Behind(Toks(d, Word(text)), Lex(rest, []))
  {
    hide Lex;
    LexItem(text, rest);
  }

  lemma {:induction false} StartsAs(d: Dialect, pieces: seq<Piece>)
    requires pieces != []
    ensures var source := Source(d, pieces);
            source != [] && if Leads(pieces[0]) then source[0].Unit? || IsData(source[0].c) else Breaks(source)
  {
    StartOf(d, pieces[0]);
    assert Source(d, pieces)[0] == Marked(d, pieces[0])[0];
  }

  lemma {:induction false} StartOf(d: Dialect, piece: Piece)
    ensures var source := Marked(d, piece);
            source != [] && if Leads(piece) then source[0].Unit? || IsData(source[0].c) else Breaks(source)
  {
  }

  lemma {:induction false} TailInTurn(pieces: seq<Piece>)
    requires InTurn(pieces) && pieces != []
    ensures InTurn(pieces[1..]) && (|pieces| > 1 ==> (Joins(pieces[0]) <==> Leads(pieces[1..][0])))
  {
    assert forall i :: 0 <= i < |pieces| - 1 ==> pieces[1..][i] == pieces[i + 1];
    forall i | 0 <= i < |pieces[1..]| - 1 ensures Joins(pieces[1..][i]) <==> Leads(pieces[1..][i + 1]) {
      assert Joins(pieces[i + 1]) <==> Leads(pieces[i + 1 + 1]);
    }
  }

  lemma {:induction false} SourceLexes(d: Dialect, pieces: seq<Piece>)
    requires InTurn(pieces)
    ensures Lex(Source(d, pieces), []) == Some(AllToks(d, pieces))
  {
    hide Marked, Toks, InTurn, Joins, Leads, IsData, Breaks;
    if pieces == [] {
      LexNothing();
    } else {
      var rest := Source(d, pieces[1..]);
      TailInTurn(pieces);
      SourceLexes(d, pieces[1..]);
      FollowsOn(d, pieces);
      hide Lex;
      LexPiece(d, pieces[0], rest);
    }
  }

  lemma {:induction false} LexNothing()
    ensures Lex([], []) == Some([])
  {
  }

  lemma {:induction false} FollowsOn(d: Dialect, pieces: seq<Piece>)
    requires pieces != [] && (|pieces| > 1 ==> (Joins(pieces[0]) <==> Leads(pieces[1..][0])))
    ensures MayFollow(pieces[0], Source(d, pieces[1..]))
  {
    hide Marked, Joins, Leads;
    if |pieces| > 1 { StartsAs(d, pieces[1..]); }
  }

  // ------------------------------------------------------------------------------------ the grouping

  /** Behind a separator no closing word and no `and` or `or` follows. */
  predicate NoClause(d: Dialect, more: seq<Tok>) {
    more != [] ==> more[0] != Closer(d) && more[0] != Reserved("and") && more[0] != Reserved("or")
  }

  lemma {:induction false} ReservedIs(word: string)
    requires word != ""
    ensures var t := Reserved(word); |t.symbols| == |word| && t.symbols[0] == Char(word[0])
  {
  }

  lemma {:induction false} ReservedDiffer(a: string, b: string)
    requires a != "" && b != "" && (|a| != |b| || a[0] != b[0])
    ensures Reserved(a) != Reserved(b)
  {
    ReservedIs(a);
    ReservedIs(b);
  }

  lemma {:induction false} ToksOfLead(d: Dialect, piece: Piece, more: seq<Tok>)
    requires Leads(piece)
    ensures NoClause(d, Toks(d, piece) + more)
  {
    hide Reserved, Chars;
    assert (Toks(d, piece) + more)[0] == Toks(d, piece)[0];
    match piece
    case Word(text) =>
      UnitIsNone(text, "}");
      UnitIsNone(text, "end");
      UnitIsNone(text, "and");
      UnitIsNone(text, "or");
    case Cd(_) => NoClauseWord("cd");
    case Export(_, _) => NoClauseWord("export"); NoClauseWord("set");
    case Open => NoClauseWord("{"); NoClauseWord("begin");
  }

  lemma {:induction false} NoClauseWord(word: string)
    requires word in ["cd", "export", "set", "{", "begin"]
    ensures Reserved(word) != Reserved("}") && Reserved(word) != Reserved("end")
    ensures Reserved(word) != Reserved("and") && Reserved(word) != Reserved("or")
  {
    hide Reserved;
    ReservedDiffer(word, "}");
    ReservedDiffer(word, "end");
    ReservedDiffer(word, "and");
    ReservedDiffer(word, "or");
  }

  lemma {:induction false} UnitIsNone(text: string, word: string)
    requires word != ""
    ensures Item([Unit(text)]) != Reserved(word)
  {
    ReservedIs(word);
  }

  lemma {:induction false} NoUnit(word: string)
    requires word != ""
    ensures !IsUnit(Reserved(word)) && Reserved(word).Item?
  {
    ReservedIs(word);
  }

  lemma {:induction false} SecondIs(toks: seq<Tok>, more: seq<Tok>, tok: Tok)
    requires |toks| == 1
    ensures Second(toks + more, tok) <==> more != [] && more[0] == tok
  {
  }

  /** The tokens of a piece are read as that piece, whatever may follow it. */
  lemma {:induction false} FirstOp(d: Dialect, piece: Piece, more: seq<Tok>)
    requires piece.Bar? || piece.AndIf? || piece.OrIf? || piece.Semi? || piece.Close?
    requires piece.Semi? ==> NoClause(d, more)
    ensures First(d, Toks(d, piece) + more) == Some((piece, |Toks(d, piece)|))
  {
    hide Reserved, Chars;
    var toks := Toks(d, piece) + more;
    assert toks[0] == Toks(d, piece)[0];
    if |Toks(d, piece)| == 1 {
      SecondIs(Toks(d, piece), more, Closer(d));
      SecondIs(Toks(d, piece), more, Reserved("and"));
      SecondIs(Toks(d, piece), more, Reserved("or"));
    } else {
      assert toks[1] == Toks(d, piece)[1];
      ReservedDiffer("and", "end");
      ReservedDiffer("or", "end");
      ReservedDiffer("or", "and");
    }
  }

  lemma {:induction false} FirstWord(d: Dialect, piece: Piece, more: seq<Tok>)
    requires piece.Word? || piece.To? || piece.Cd? || piece.Open?
    ensures First(d, Toks(d, piece) + more) == Some((piece, |Toks(d, piece)|))
  {
    hide Reserved, Chars;
    var toks := Toks(d, piece) + more;
    assert forall i :: 0 <= i < |Toks(d, piece)| ==> toks[i] == Toks(d, piece)[i];
    NoUnit("cd");
    NoUnit("{");
    NoUnit("begin");
    ReservedDiffer("cd", "{");
    ReservedDiffer("cd", "begin");
  }

  lemma {:induction false} FirstExport(d: Dialect, piece: Piece, more: seq<Tok>)
    requires piece.Export?
    ensures First(d, Toks(d, piece) + more) == Some((piece, |Toks(d, piece)|))
  {
    hide Reserved, Chars;
    var toks := Toks(d, piece) + more;
    assert forall i :: 0 <= i < |Toks(d, piece)| ==> toks[i] == Toks(d, piece)[i];
    NoUnit("export");
    NoUnit("set");
    ReservedDiffer("cd", "export");
    ReservedDiffer("cd", "set");
    ReservedDiffer("{", "export");
    ReservedDiffer("begin", "set");
  }

  lemma {:induction false} FirstIs(d: Dialect, piece: Piece, more: seq<Tok>)
    requires piece.Semi? ==> NoClause(d, more)
    ensures First(d, Toks(d, piece) + more) == Some((piece, |Toks(d, piece)|))
  {
    hide First, Toks, NoClause;
    if piece.Export? {
      FirstExport(d, piece, more);
    } else if piece.Word? || piece.To? || piece.Cd? || piece.Open? {
      FirstWord(d, piece, more);
    } else {
      FirstOp(d, piece, more);
    }
  }

  lemma {:induction false} ToksGroup(d: Dialect, pieces: seq<Piece>)
    requires InTurn(pieces)
    ensures Pieces(d, AllToks(d, pieces)) == Some(pieces)
  {
    hide Toks, InTurn, Joins, Leads, First, NoClause;
    if pieces != [] {
      var more := AllToks(d, pieces[1..]);
      TailInTurn(pieces);
      ToksGroup(d, pieces[1..]);
      if pieces[0].Semi? {
        SemiJoins(pieces[0]);
        if |pieces| > 1 { ToksOfLead(d, pieces[1], AllToks(d, pieces[1..][1..])); } else { NothingIsNoClause(d); }
      }
      FirstIs(d, pieces[0], more);
      assert (Toks(d, pieces[0]) + more)[|Toks(d, pieces[0])|..] == more;
      assert [pieces[0]] + pieces[1..] == pieces;
    }
  }

  lemma {:induction false} SemiJoins(piece: Piece)
    ensures piece.Semi? ==> Joins(piece)
  {
  }

  lemma {:induction false} NothingIsNoClause(d: Dialect)
    ensures NoClause(d, [])
  {
  }

  /** The text of any pieces in which commands and operators take turns is read back as those pieces. */
  lemma {:induction false} ReadsBack(d: Dialect, pieces: seq<Piece>)
    requires InTurn(pieces)
    ensures ReadPieces(d, Source(d, pieces)) == Some(pieces)
  {
    hide Lex, Source, AllToks, Pieces, InTurn;
    SourceLexes(d, pieces);
    ToksGroup(d, pieces);
  }

  // ------------------------------------------------------------ what is written takes turns, and so reads back

  lemma {:induction false} InTurnJoin(a: seq<Piece>, b: seq<Piece>)
    requires InTurn(a) && InTurn(b) && (a != [] && b != [] ==> (Joins(a[|a| - 1]) <==> Leads(b[0])))
    ensures InTurn(a + b)
  {
    hide Joins, Leads;
    forall i | 0 <= i < |a + b| - 1 ensures Joins((a + b)[i]) <==> Leads((a + b)[i + 1]) {
      if i < |a| - 1 {
        assert (a + b)[i] == a[i] && (a + b)[i + 1] == a[i + 1];
      } else if i >= |a| {
        assert (a + b)[i] == b[i - |a|] && (a + b)[i + 1] == b[i - |a| + 1];
      }
    }
  }

  lemma {:induction false} OneInTurn(piece: Piece)
    ensures InTurn([piece]) && InTurn([])
  {
  }

  /** A piece that the grammar takes stands in its turn, and says whose turn comes next. */
  lemma {:induction false} PieceInTurn(f: Frame, piece: Piece)
    requires ParsePiece(f, piece).Some?
    ensures Leads(piece) <==> f.need != Complete
    ensures Joins(piece) <==> ParsePiece(f, piece).value.need != Complete
  {
    hide LastStages, LastCmd, WithLastCmd;
  }

  /** So the pieces of one list that the grammar takes are in turn. */
  lemma {:induction false} FlatInTurn(f: Frame, pieces: seq<Piece>)
    requires ParseFlat(f, pieces).Some?
    ensures InTurn(pieces)
    ensures pieces == [] ==> ParseFlat(f, pieces).value == f
    ensures pieces != [] ==> (Leads(pieces[0]) <==> f.need != Complete)
    ensures pieces != [] ==> (Joins(pieces[|pieces| - 1]) <==> ParseFlat(f, pieces).value.need != Complete)
    decreases |pieces|
  {
    hide ParsePiece, Joins, Leads, InTurn;
    OneInTurn(Bar);
    if pieces != [] {
      var n := |pieces| - 1;
      var before := ParseFlat(f, pieces[..n]).value;
      FlatInTurn(f, pieces[..n]);
      PieceInTurn(before, pieces[n]);
      OneInTurn(pieces[n]);
      InTurnJoin(pieces[..n], [pieces[n]]);
      assert pieces[..n] + [pieces[n]] == pieces;
    }
  }

  lemma {:induction false} JoinedInTurn(d: Dialect, tokens: seq<Token>)
    requires AreTokens(tokens) && Joined(d, tokens).Some?
    ensures var pieces := Joined(d, tokens).value;
            InTurn(pieces) && (pieces != [] ==> Leads(pieces[0]) && !Joins(pieces[|pieces| - 1]))
  {
    hide AreTokens, Joined, Kept, InTurn, Joins, Leads, ParseFlat;
    var pieces := Joined(d, tokens).value;
    JoinReads(d, tokens);
    if pieces == [] { OneInTurn(Bar); } else { FlatInTurn(EMPTY, pieces); }
  }

  /** The directory change and its group. */
  lemma {:induction false} CwdInTurn(d: Dialect, dir: string, command: seq<Piece>)
    requires InTurn(command) && (command != [] ==> Leads(command[0]) && !Joins(command[|command| - 1]))
    ensures InTurn(CwdPieces(d, dir, command)) && CwdPieces(d, dir, command) != [] && Leads(CwdPieces(d, dir, command)[0])
  {
    hide InTurn, Texts;
    OneInTurn(Cd(dir));
    if command != [] {
      var close := Close('\n' in Texts(d, command));
      OneInTurn(AndIf);
      OneInTurn(Open);
      OneInTurn(close);
      InTurnJoin([Cd(dir)], [AndIf]);
      assert [Cd(dir)] + [AndIf] == [Cd(dir), AndIf];
      InTurnJoin([Cd(dir), AndIf], [Open]);
      assert [Cd(dir), AndIf] + [Open] == [Cd(dir), AndIf, Open];
      InTurnJoin([Cd(dir), AndIf, Open], command);
      InTurnJoin([Cd(dir), AndIf, Open] + command, [close]);
    }
  }

  lemma {:induction false} AssembledInTurn(d: Dialect, tokens: seq<Token>, cwd: Option<string>, env: seq<(string, string)>)
    requires AreTokens(tokens) && Assembled(d, tokens, cwd, env).Some?
    ensures InTurn(Assembled(d, tokens, cwd, env).value)
  {
    hide AreTokens, Joined, InTurn, Joins, Leads, ParseFlat, EnvPieces, CwdPieces, WithPart, Lead;
    var command := Joined(d, tokens).value;
    var part := if cwd.Some? then CwdPieces(d, cwd.value, command) else command;
    JoinedInTurn(d, tokens);
    if cwd.Some? { CwdInTurn(d, cwd.value, command); }
    if part == [] {
      EnvReads(env);
      FlatInTurn(EMPTY, EnvPieces(env));
      NoPart(d, EnvPieces(env));
    } else {
      LeadReads(d, env);
      FlatInTurn(EMPTY, Lead(d, env));
      PartAfterLead(d, env, part);
      InTurnJoin(Lead(d, env), part);
    }
  }

  lemma {:induction false} NoPart(d: Dialect, script: seq<Piece>)
    ensures WithPart(d, script, []) == script
  {
  }

  // -------------------------------------------------------------------------------- the theorems of the text

  /** The list that a shell makes of the source text; `h` says which units need a line end behind them. */
  function ReadSource(h: string -> bool, d: Dialect, source: seq<Symbol>): Option<seq<AndOr>> {
    var pieces := ReadPieces(d, source);
    if pieces.None? then None else Read(h, pieces.value)
  }

  /** The text that joining returns reads as it was put together exactly if every command that needs a line end and is
      followed by another holds a line end and has no operator but a sequence behind it; and then it runs as the statements
      that the tokens stand for. */
  lemma {:induction false} JoinMeans(h: string -> bool, d: Dialect, tokens: seq<Token>, sh: Shell, w: World)
    returns (source: seq<Symbol>)
    requires !h("") && AreTokens(tokens) && Placed(Kept(tokens))
    ensures PlacedSoFar(Kept(tokens)) && Joined(d, tokens).Some? && source == Source(d, Joined(d, tokens).value)
    ensures TextOf(d, Joined(d, tokens)) == Some(Erase(source))
    ensures ReadPieces(d, source) == Joined(d, tokens)
    ensures ReadSource(h, d, source).Some? <==> LinesFit(h, Kept(tokens))
    ensures LinesFit(h, Kept(tokens)) ==>
      RunList(sh, ReadSource(h, d, source).value, w) == RunStatements(sh, Statements(Kept(tokens)), w)
  {
    hide AreTokens, Placed, PlacedSoFar, Kept, Joined, Read, ReadPieces, LinesFit, RunList, RunStatements, Statements, Erase,
         Source, InTurn;
    PiecesMean(h, d, tokens, sh, w);
    JoinedInTurn(d, tokens);
    source := Source(d, Joined(d, tokens).value);
    SourceIsText(d, Joined(d, tokens).value);
    ReadsBack(d, Joined(d, tokens).value);
  }

  /** The text of a script reads as it was put together exactly if the joined commands do and, with a directory, a last
      command that needs a line end stands in a text that holds one; and running it then does what it should: no payload
      command unless the directory was entered, and then exactly what the payload alone would do there. */
  lemma {:induction false} ScriptRuns(h: string -> bool, d: Dialect, tokens: seq<Token>, cwd: Option<string>, env: seq<(string, string)>, sh: Shell, w: World)
    returns (source: seq<Symbol>)
    requires !h("") && AreTokens(tokens) && Placed(Kept(tokens))
    ensures PlacedSoFar(Kept(tokens)) && Joined(d, tokens).Some? && Assembled(d, tokens, cwd, env).Some?
    ensures source == Source(d, Assembled(d, tokens, cwd, env).value)
    ensures TextOf(d, Assembled(d, tokens, cwd, env)) == Some(Erase(source))
    ensures ReadPieces(d, source) == Assembled(d, tokens, cwd, env)
    ensures ReadSource(h, d, source).Some? <==> LinesFit(h, Kept(tokens)) && (cwd.Some? ==> DirectoryFits(h, d, tokens))
    ensures LinesFit(h, Kept(tokens)) && (cwd.Some? ==> DirectoryFits(h, d, tokens)) ==>
      RunList(sh, ReadSource(h, d, source).value, w) == Intended(sh, Statements(Kept(tokens)), cwd, env, w)
  {
    hide AreTokens, Placed, PlacedSoFar, Kept, Joined, Assembled, Read, ReadPieces, LinesFit, DirectoryFits, RunList, Intended,
         Statements, Erase, Source, InTurn;
    PiecesRun(h, d, tokens, cwd, env, sh, w);
    AssembledInTurn(d, tokens, cwd, env);
    var pieces := Assembled(d, tokens, cwd, env).value;
    source := Source(d, pieces);
    SourceIsText(d, pieces);
    ReadsBack(d, pieces);
  }
}
