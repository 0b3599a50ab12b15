/** From a list of commands and operators to one guarded script, and what a shell runs when it reads that script.

    Text that a caller supplies as raw shell source is taken as one complete command; it may end in a here-document or in
    a comment, which the next line end closes and nothing else. A script is kept as the list of pieces whose texts the
    program concatenates. */
module Script {
  import opened Options

  datatype Op = Pipe | And | Or | Redirect | Append | Sequence

  /** A command with its text, and with its text as a file name after `>`; or an operator between commands. An empty
      raw text is empty either way. */
  datatype Token = Command(text: string, operand: string) | Operator(op: Op)

  predicate IsToken(t: Token) { t.Command? ==> (t.text == "" <==> t.operand == "") }

  /** One piece of a script. `newline` says that a line end separates or closes instead of a semicolon. */
  datatype Piece =
    | Word(text: string) | To(append: bool, operand: string)
    | Bar | AndIf | OrIf | Semi(newline: bool) | Open | Close(newline: bool)
    | Cd(dir: string) | Export(name: string, value: string)

  datatype Dialect = Posix | FishShell

  /** The text of one piece, apart from the quoting of values. */
  function Text(d: Dialect, piece: Piece): string {
    match piece
    case Word(text) => text
    case To(append, operand) => (if append then " >> " else " > ") + operand
    case Bar => "|"
    case AndIf => if d == Posix then "&&" else "; and "
    case OrIf => if d == Posix then "||" else "; or "
    case Semi(newline) => if newline then "\n" else ";"
    case Open => if d == Posix then "{ " else "begin; "
    case Close(newline) =>
      if d == Posix then (if newline then "\n}" else "; }") else (if newline then "\nend" else "; end")
    case Cd(dir) => "cd -- " + dir
    case Export(name, value) => if d == Posix then "export " + name + "=" + value else "set -gx " + name + " " + value
  }

  function Texts(d: Dialect, pieces: seq<Piece>): string {
    if pieces == [] then "" else Texts(d, pieces[..|pieces| - 1]) + Text(d, pieces[|pieces| - 1])
  }

  // ---------------------------------------------------------------------------------------- joining

  /** What the joining loop has so far. */
  datatype Joining = Joining(result: seq<Piece>, pending: Piece, redirecting: Option<bool>, hasCommand: bool, expecting: bool)

  const START := Joining([], Semi(false), None, false, false)

  function PieceOf(op: Op): Piece {
    match op
    case Pipe => Bar
    case And => AndIf
    case Or => OrIf
    case Redirect => To(false, "")
    case Append => To(true, "")
    case Sequence => Semi(false)
  }

  /** The separator that may follow a text without breaking a here-document in it. */
  function SeparatorAfter(text: string): Piece { Semi('\n' in text) }

  /** One token; `None` is the program's refusal of a misplaced operator. */
  function Step(d: Dialect, s: Joining, t: Token): Option<Joining> {
    match t
    case Operator(op) =>
      if !s.hasCommand || s.expecting then None
      else
        var redirecting := if op == Redirect then Some(false) else if op == Append then Some(true) else None;
        Some(s.(pending := PieceOf(op), redirecting := redirecting, expecting := true))
    case Command(text, operand) =>
      if s.redirecting.Some? then
        if operand == "" then Some(s)
        else Some(Joining(s.result + [To(s.redirecting.value, operand)], Semi(false), None, true, false))
      else if text == "" then Some(s)
      else
        var separator :=
          if !s.hasCommand || s.result == [] then []
          else if s.pending == Semi(false) then [SeparatorAfter(Text(d, s.result[|s.result| - 1]))]
          else [s.pending];
        Some(Joining(s.result + separator + [Word(text)], Semi(false), None, true, false))
  }

  function Steps(d: Dialect, tokens: seq<Token>): Option<Joining> {
    if tokens == [] then Some(START)
    else
      var before := Steps(d, tokens[..|tokens| - 1]);
      if before.None? then None else Step(d, before.value, tokens[|tokens| - 1])
  }

  function Joined(d: Dialect, tokens: seq<Token>): Option<seq<Piece>> {
    var s := Steps(d, tokens);
    if s.None? || s.value.expecting then None else Some(s.value.result)
  }

  /** What the program returns for these pieces: their texts joined. */
  function TextOf(d: Dialect, pieces: Option<seq<Piece>>): Option<string> {
    if pieces.None? then None else Some(Texts(d, pieces.value))
  }

  /** Join commands and operators, in the program's own loop. */
  method Join(d: Dialect, tokens: seq<Token>) returns (text: Option<string>, pieces: Option<seq<Piece>>)
    ensures pieces == Joined(d, tokens) && text == TextOf(d, pieces)
  {
    var result: seq<Piece> := [];
    var pending := Semi(false);
    var redirecting: Option<bool> := None;
    var hasCommand, expecting := false, false;
    for i := 0 to |tokens|
      invariant Steps(d, tokens[..i]) == Some(Joining(result, pending, redirecting, hasCommand, expecting))
      invariant hasCommand ==> result != []
    {
      assert tokens[..i + 1][..i] == tokens[..i];
      match tokens[i] {
        case Operator(op) =>
          if !hasCommand || expecting {
            StepsFail(d, tokens, i + 1);
            return None, None;
          }
          pending := PieceOf(op);
          redirecting := if op == Redirect then Some(false) else if op == Append then Some(true) else None;
          expecting := true;
        case Command(text, operand) =>
          if redirecting.Some? {
            if operand == "" { continue; }
            result := result + [To(redirecting.value, operand)];
          } else {
            if text == "" { continue; }
            assert result + [] + [Word(text)] == result + [Word(text)];
            if hasCommand {
              if pending == Semi(false) { pending := SeparatorAfter(Text(d, result[|result| - 1])); }
              assert result + [pending] + [Word(text)] == (result + [pending]) + [Word(text)];
              result := result + [pending];
            }
            result := result + [Word(text)];
          }
          hasCommand, expecting, redirecting, pending := true, false, None, Semi(false);
      }
    }
    assert tokens[..|tokens|] == tokens;
    pieces := if expecting then None else Some(result);
    text := TextOf(d, pieces);
  }

  lemma {:induction false} StepsFail(d: Dialect, tokens: seq<Token>, n: nat)
    requires n <= |tokens| && Steps(d, tokens[..n]).None?
    ensures Steps(d, tokens).None?
    decreases |tokens| - n
  {
    if n == |tokens| {
      assert tokens[..n] == tokens;
    } else {
      assert tokens[..n + 1][..n] == tokens[..n];
      StepsFail(d, tokens, n + 1);
    }
  }

  // ------------------------------------------------------------------------ what the tokens should mean

  datatype Simple = Simple(text: string, redirects: seq<(bool, string)>)

  datatype Guard = Always | IfOk | IfFailed

  /** A pipeline and when it runs: always, or depending on the status before it. */
  datatype Statement = Statement(guard: Guard, stages: seq<Simple>)

  /** The tokens without the empty texts. */
  function Kept(tokens: seq<Token>): seq<Token> {
    if tokens == [] then []
    else
      var t := tokens[|tokens| - 1];
      var before := Kept(tokens[..|tokens| - 1]);
      if t.Command? && t.text == "" then before else before + [t]
  }

  /** Every operator stands between two commands. */
  predicate Placed(kept: seq<Token>) {
    forall i :: 0 <= i < |kept| && kept[i].Operator? ==>
      0 < i < |kept| - 1 && kept[i - 1].Command? && kept[i + 1].Command?
  }

  /** Placed as far as it goes: the last one may still wait for its command. */
  predicate PlacedSoFar(kept: seq<Token>) {
    forall i :: 0 <= i < |kept| && kept[i].Operator? ==> 0 < i && kept[i - 1].Command?
  }

  function RedirectLast(stages: seq<Simple>, redirect: (bool, string)): seq<Simple>
    requires stages != []
  {
    var k := |stages| - 1;
    stages[k := Simple(stages[k].text, stages[k].redirects + [redirect])]
  }

  function WithLastStages(statements: seq<Statement>, stages: seq<Simple>): seq<Statement>
    requires statements != []
  {
    var n := |statements| - 1;
    statements[n := Statement(statements[n].guard, stages)]
  }

  function AddStage(statements: seq<Statement>, stage: Simple): seq<Statement>
    requires statements != []
  {
    WithLastStages(statements, statements[|statements| - 1].stages + [stage])
  }

  function AddRedirect(statements: seq<Statement>, redirect: (bool, string)): seq<Statement>
    requires statements != [] && statements[|statements| - 1].stages != []
  {
    WithLastStages(statements, RedirectLast(statements[|statements| - 1].stages, redirect))
  }

  /** Every statement has a stage. */
  predicate Staged(statements: seq<Statement>) {
    forall i :: 0 <= i < |statements| ==> statements[i].stages != []
  }

  /** One command after what came before, joined to it by the operator between them, or by none. */
  function Attach(statements: seq<Statement>, op: Option<Op>, t: Token): (r: seq<Statement>)
    requires t.Command? && Staged(statements) && (op.Some? && op.value != Sequence ==> statements != [])
    ensures Staged(r) && r != []
  {
    var stage := Simple(t.text, []);
    match op
    case None => statements + [Statement(Always, [stage])]
    case Some(Sequence) => statements + [Statement(Always, [stage])]
    case Some(And) => statements + [Statement(IfOk, [stage])]
    case Some(Or) => statements + [Statement(IfFailed, [stage])]
    case Some(Pipe) => AddStage(statements, stage)
    case Some(Redirect) => AddRedirect(statements, (false, t.operand))
    case Some(Append) => AddRedirect(statements, (true, t.operand))
  }

  /** The statements a placed list of tokens stands for. */
  function Statements(kept: seq<Token>): (r: seq<Statement>)
    requires PlacedSoFar(kept)
    ensures Staged(r) && (r == [] <==> kept == [])
    decreases |kept|
  {
    if kept == [] then []
    else
      var n := |kept| - 1;
      var before := kept[..n];
      if kept[n].Operator? then Statements(before)
      else if n > 0 && kept[n - 1].Operator? then Attach(Statements(before), Some(kept[n - 1].op), kept[n])
      else Attach(Statements(before), None, kept[n])
  }

  // ------------------------------------------------------------------- how a shell parses the pieces

  /** A pipeline of simple commands, a directory change, an assignment, or a group. */
  datatype Cmd = Pipeline(stages: seq<Simple>) | ChangeDir(dir: string) | Assign(name: string, value: string)
               | Group(list: seq<AndOr>)

  /** A command with the ones joined to it by `&&` and `||` (section 2.9.3 of the POSIX.1-2017 shell language). */
  datatype AndOr = AndOr(first: Cmd, rest: seq<Link>)

  datatype Link = Link(isAnd: bool, cmd: Cmd)

  /** What the parser expects next in one list. */
  datatype Need = First | AfterAnd | AfterOr | Stage | Complete

  /** One list being read, inside the groups that are open. */
  datatype Frame = Frame(list: seq<AndOr>, need: Need)

  function AddCommand(f: Frame, cmd: Cmd): Option<Frame> {
    if f.need == First then Some(Frame(f.list + [AndOr(cmd, [])], Complete))
    else if (f.need == AfterAnd || f.need == AfterOr) && f.list != [] then
      var n := |f.list| - 1;
      Some(Frame(f.list[n := f.list[n].(rest := f.list[n].rest + [Link(f.need == AfterAnd, cmd)])], Complete))
    else None
  }

  function LastCmd(a: AndOr): Cmd { if a.rest == [] then a.first else a.rest[|a.rest| - 1].cmd }

  function WithLastCmd(a: AndOr, cmd: Cmd): AndOr {
    if a.rest == [] then a.(first := cmd)
    else a.(rest := a.rest[|a.rest| - 1 := a.rest[|a.rest| - 1].(cmd := cmd)])
  }

  /** The pipeline read last, if that is what was read last. */
  function LastStages(f: Frame): seq<Simple> {
    if f.list == [] then []
    else
      var cmd := LastCmd(f.list[|f.list| - 1]);
      if cmd.Pipeline? then cmd.stages else []
  }

  function WithStages(f: Frame, stages: seq<Simple>): Frame
    requires f.list != []
  {
    var n := |f.list| - 1;
    Frame(f.list[n := WithLastCmd(f.list[n], Pipeline(stages))], Complete)
  }

  /** One piece that opens or closes no group. */
  function ParsePiece(f: Frame, piece: Piece): Option<Frame> {
    match piece
    case Word(text) =>
      var stage := Simple(text, []);
      if f.need != Stage then AddCommand(f, Pipeline([stage]))
      else if LastStages(f) == [] then None
      else Some(WithStages(f, LastStages(f) + [stage]))
    case To(append, operand) =>
      if f.need != Complete || LastStages(f) == [] then None
      else Some(WithStages(f, RedirectLast(LastStages(f), (append, operand))))
    case Cd(dir) => AddCommand(f, ChangeDir(dir))
    case Export(name, value) => AddCommand(f, Assign(name, value))
    case Bar => if f.need == Complete then Some(f.(need := Stage)) else None
    case AndIf => if f.need == Complete then Some(f.(need := AfterAnd)) else None
    case OrIf => if f.need == Complete then Some(f.(need := AfterOr)) else None
    case Semi(_) => if f.need == Complete then Some(f.(need := First)) else None
    case Open => None
    case Close(_) => None
  }

  const EMPTY := Frame([], First)

  /** The open lists, innermost last, after one more piece. */
  function ParseOne(stack: seq<Frame>, piece: Piece): (r: Option<seq<Frame>>)
    requires stack != []
    ensures r.Some? ==> r.value != []
  {
    var n := |stack| - 1;
    match piece
    case Open => Some(stack + [EMPTY])
    case Close(_) =>
      if n == 0 || stack[n].need != Complete then None
      else
        var outer := AddCommand(stack[n - 1], Group(stack[n].list));
        if outer.None? then None else Some(stack[..n - 1] + [outer.value])
    case _ =>
      var inner := ParsePiece(stack[n], piece);
      if inner.None? then None else Some(stack[..n] + [inner.value])
  }

  function ParseFrom(stack: seq<Frame>, pieces: seq<Piece>): (r: Option<seq<Frame>>)
    requires stack != []
    ensures r.Some? ==> r.value != []
    decreases |pieces|
  {
    if pieces == [] then Some(stack)
    else
      var before := ParseFrom(stack, pieces[..|pieces| - 1]);
      if before.None? then None else ParseOne(before.value, pieces[|pieces| - 1])
  }

  /** The grammar's part: the list a whole script is; `None` for a syntax error. */
  function Parse(pieces: seq<Piece>): Option<seq<AndOr>> {
    if pieces == [] then Some([])
    else
      var stack := ParseFrom([EMPTY], pieces);
      if stack.None? || |stack.value| != 1 || stack.value[0].need != Complete then None
      else Some(stack.value[0].list)
  }

  /** The text or the file name that a piece shows. */
  function Shows(piece: Piece): string {
    match piece
    case Word(text) => text
    case To(_, operand) => operand
    case _ => ""
  }

  predicate EndsLine(piece: Piece) { (piece.Semi? || piece.Close?) && piece.newline }

  /** A text that needs a line end behind it takes in what stands before that: a here-document ends only at a line that
      is its delimiter and nothing more (section 2.7.4), a comment at the end of its line (section 2.3). So the piece
      behind such a text must begin with a line end, or the text must be the last. `h` says which texts are so. */
  predicate LinesEnded(h: string -> bool, pieces: seq<Piece>) {
    forall i :: 0 <= i < |pieces| - 1 && h(Shows(pieces[i])) ==> EndsLine(pieces[i + 1])
  }

  /** The list that a shell makes of the source; `None` where it does not read the pieces as they were put together: a
      text takes in what stands behind it, or the grammar fails. */
  function Read(h: string -> bool, pieces: seq<Piece>): Option<seq<AndOr>> {
    if LinesEnded(h, pieces) then Parse(pieces) else None
  }

  // -------------------------------------------------------------------------------- what it then runs

  /** A pipeline that ran, and where. */
  datatype Ran = Ran(stages: seq<Simple>, cwd: string, env: map<string, string>)

  datatype World = World(cwd: string, env: map<string, string>, status: int, ran: seq<Ran>)

  /** The parts of the world that are not the script's: which directories can be entered, and what each pipeline does
      to the shell it runs in. */
  datatype Shell = Shell(enter: (string, string) -> Option<string>, behave: (seq<Simple>, World) -> World)

  function RunPipeline(sh: Shell, stages: seq<Simple>, w: World): World {
    sh.behave(stages, w).(ran := w.ran + [Ran(stages, w.cwd, w.env)])
  }

  function RunCmd(sh: Shell, cmd: Cmd, w: World): World
    decreases cmd, 0
  {
    match cmd
    case Pipeline(stages) => RunPipeline(sh, stages, w)
    case ChangeDir(dir) =>
      var to := sh.enter(w.cwd, dir);
      if to.None? then w.(status := 1) else w.(cwd := to.value, status := 0)
    case Assign(name, value) => w.(env := w.env[name := value], status := 0)
    case Group(list) => RunList(sh, list, w)
  }

  function RunLink(sh: Shell, link: Link, w: World): World
    decreases link, 0
  {
    if link.isAnd == (w.status == 0) then RunCmd(sh, link.cmd, w) else w
  }

  function RunLinks(sh: Shell, links: seq<Link>, w: World): World
    decreases links, 0
  {
    if links == [] then w else RunLinks(sh, links[1..], RunLink(sh, links[0], w))
  }

  /** Section 2.9.3: the commands whose condition the status before them meets. */
  function RunAndOr(sh: Shell, a: AndOr, w: World): World
    decreases a, 0
  {
    RunLinks(sh, a.rest, RunCmd(sh, a.first, w))
  }

  /** The and-or lists in turn; a group (section 2.9.4) is a list run in the shell itself. */
  function RunList(sh: Shell, list: seq<AndOr>, w: World): World
    decreases list, 0
  {
    if list == [] then w else RunList(sh, list[1..], RunAndOr(sh, list[0], w))
  }

  /** The reference: statement by statement, each guarded by the status before it - which is also how fish runs its
      `; and` and `; or`. */
  function RunStatements(sh: Shell, statements: seq<Statement>, w: World): World {
    if statements == [] then w
    else
      var before := RunStatements(sh, statements[..|statements| - 1], w);
      var s := statements[|statements| - 1];
      if s.guard == Always || (s.guard == IfOk) == (before.status == 0) then RunPipeline(sh, s.stages, before) else before
  }

  // -------------------------------------------------------------- a parsed list as guarded statements

  predicate Plain(list: seq<AndOr>) {
    forall i :: 0 <= i < |list| ==>
      list[i].first.Pipeline? && forall k :: 0 <= k < |list[i].rest| ==> list[i].rest[k].cmd.Pipeline?
  }

  function LinkStatements(links: seq<Link>): seq<Statement>
    requires forall k :: 0 <= k < |links| ==> links[k].cmd.Pipeline?
  {
    seq(|links|, k requires 0 <= k < |links| =>
      Statement(if links[k].isAnd then IfOk else IfFailed, links[k].cmd.stages))
  }

  function AndOrStatements(a: AndOr): seq<Statement>
    requires Plain([a])
  {
    assert [a][0] == a;
    [Statement(Always, a.first.stages)] + LinkStatements(a.rest)
  }

  function ListStatements(list: seq<AndOr>): seq<Statement>
    requires Plain(list)
  {
    if list == [] then []
    else
      var n := |list| - 1;
      assert forall i :: 0 <= i < n ==> list[..n][i] == list[i];
      assert [list[n]][0] == list[n];
      ListStatements(list[..n]) + AndOrStatements(list[n])
  }

  lemma {:induction false} RunAppend(sh: Shell, a: seq<Statement>, b: seq<Statement>, w: World)
    ensures RunStatements(sh, a + b, w) == RunStatements(sh, b, RunStatements(sh, a, w))
    decreases |b|
  {
    if b == [] {
      assert a + b == a;
    } else {
      var n := |b| - 1;
      assert (a + b)[..|a + b| - 1] == a + b[..n];
      assert (a + b)[|a + b| - 1] == b[n];
      RunAppend(sh, a, b[..n], w);
    }
  }

  lemma {:induction false} RunOne(sh: Shell, s: Statement, w: World)
    ensures RunStatements(sh, [s], w)
            == if s.guard == Always || (s.guard == IfOk) == (w.status == 0) then RunPipeline(sh, s.stages, w) else w
  {
    assert [s][..0] == [];
  }

  lemma {:induction false} RunLinksIs(sh: Shell, links: seq<Link>, w: World)
    requires forall k :: 0 <= k < |links| ==> links[k].cmd.Pipeline?
    ensures RunLinks(sh, links, w) == RunStatements(sh, LinkStatements(links), w)
  {
    if links != [] {
      var all := LinkStatements(links);
      assert all == [all[0]] + LinkStatements(links[1..]);
      RunAppend(sh, [all[0]], LinkStatements(links[1..]), w);
      RunOne(sh, all[0], w);
      assert RunCmd(sh, links[0].cmd, w) == RunPipeline(sh, links[0].cmd.stages, w);
      assert RunLink(sh, links[0], w) == RunStatements(sh, [all[0]], w);
      RunLinksIs(sh, links[1..], RunStatements(sh, [all[0]], w));
    }
  }

  lemma {:induction false} RunAndOrIs(sh: Shell, a: AndOr, w: World)
    requires Plain([a])
    ensures RunAndOr(sh, a, w) == RunStatements(sh, AndOrStatements(a), w)
  {
    assert [a][0] == a;
    RunAppend(sh, [Statement(Always, a.first.stages)], LinkStatements(a.rest), w);
    RunOne(sh, Statement(Always, a.first.stages), w);
    RunLinksIs(sh, a.rest, RunPipeline(sh, a.first.stages, w));
  }

  /** Nested and-or lists and guarded statements are two descriptions of the same run. */
  lemma {:induction false} RunListIs(sh: Shell, list: seq<AndOr>, w: World)
    requires Plain(list)
    ensures RunList(sh, list, w) == RunStatements(sh, ListStatements(list), w)
    decreases |list|
  {
    hide RunAndOr, AndOrStatements;
    if list != [] {
      var n := |list| - 1;
      PlainParts(list);
      RunListIs(sh, list[..n], w);
      assert list == list[..n] + [list[n]];
      RunListAppend(sh, list[..n], list[n], w);
      RunAndOrIs(sh, list[n], RunList(sh, list[..n], w));
      RunAppend(sh, ListStatements(list[..n]), AndOrStatements(list[n]), w);
    }
  }

  lemma {:induction false} PlainParts(list: seq<AndOr>)
    requires Plain(list) && list != []
    ensures Plain(list[..|list| - 1]) && Plain([list[|list| - 1]])
  {
    assert forall i :: 0 <= i < |list| - 1 ==> list[..|list| - 1][i] == list[i];
  }

  lemma {:induction false} RunListAppend(sh: Shell, list: seq<AndOr>, a: AndOr, w: World)
    ensures RunList(sh, list + [a], w) == RunAndOr(sh, a, RunList(sh, list, w))
    decreases |list|
  {
    hide RunAndOr;
    if list == [] {
      assert list + [a] == [a];
      assert [a][1..] == [];
    } else {
      assert (list + [a])[1..] == list[1..] + [a];
      RunListAppend(sh, list[1..], a, RunAndOr(sh, list[0], w));
    }
  }

  // -------------------------------------------------- what reading one more piece does to the statements

  /** A list read so far stands for these statements. */
  ghost predicate Means(list: seq<AndOr>, statements: seq<Statement>) {
    Plain(list) && Staged(statements) && ListStatements(list) == statements
  }

  lemma {:induction false} PlainAppend(list: seq<AndOr>, a: AndOr)
    requires Plain(list) && Plain([a])
    ensures Plain(list + [a]) && ListStatements(list + [a]) == ListStatements(list) + AndOrStatements(a)
  {
    assert [a][0] == a;
    assert (list + [a])[..|list|] == list;
  }

  lemma {:induction false} NewStatement(list: seq<AndOr>, statements: seq<Statement>, stage: Simple)
    requires Means(list, statements)
    ensures Means(list + [AndOr(Pipeline([stage]), [])], statements + [Statement(Always, [stage])])
  {
    var a := AndOr(Pipeline([stage]), []);
    assert [a][0] == a;
    PlainAppend(list, a);
    assert LinkStatements(a.rest) == [];
    assert AndOrStatements(a) == [Statement(Always, [stage])];
  }

  /** Replacing the last and-or list replaces its statements. */
  lemma {:induction false} ReplaceLast(list: seq<AndOr>, statements: seq<Statement>, a: AndOr)
    requires list != [] && Means(list, statements) && Plain([a])
    ensures var n := |list| - 1; var k := |ListStatements(list[..n])|;
            Plain(list[..n]) && Plain([list[n]]) && Plain(list[n := a]) && k < |statements|
            && statements == ListStatements(list[..n]) + AndOrStatements(list[n])
            && ListStatements(list[n := a]) == ListStatements(list[..n]) + AndOrStatements(a)
  {
    var n := |list| - 1;
    PlainParts(list);
    PlainAppend(list[..n], a);
    assert list[n := a] == list[..n] + [a];
  }

  lemma {:induction false} NewLink(f: Frame, statements: seq<Statement>, isAnd: bool, stage: Simple)
    requires f.list != [] && Means(f.list, statements)
    ensures var n := |f.list| - 1;
            var a := f.list[n].(rest := f.list[n].rest + [Link(isAnd, Pipeline([stage]))]);
            Means(f.list[n := a], statements + [Statement(if isAnd then IfOk else IfFailed, [stage])])
  {
    var n := |f.list| - 1;
    var b := f.list[n];
    var link := Link(isAnd, Pipeline([stage]));
    var a := b.(rest := b.rest + [link]);
    PlainParts(f.list);
    assert [b][0] == b && [a][0] == a;
    ReplaceLast(f.list, statements, a);
    var s := Statement(if isAnd then IfOk else IfFailed, [stage]);
    assert LinkStatements(a.rest) == LinkStatements(b.rest) + [s];
    assert AndOrStatements(a) == AndOrStatements(b) + [s];
    var head := ListStatements(f.list[..n]);
    assert head + AndOrStatements(b) + [s] == head + (AndOrStatements(b) + [s]);
  }

  lemma {:induction false} LastStatement(b: AndOr, stages: seq<Simple>)
    requires Plain([b]) && stages != []
    ensures Plain([WithLastCmd(b, Pipeline(stages))]) && LastCmd(b).Pipeline? && AndOrStatements(b) != []
    ensures AndOrStatements(b)[|AndOrStatements(b)| - 1].stages == LastCmd(b).stages
    ensures AndOrStatements(WithLastCmd(b, Pipeline(stages))) == WithLastStages(AndOrStatements(b), stages)
  {
    var a := WithLastCmd(b, Pipeline(stages));
    assert [b][0] == b && [a][0] == a;
    var n := |b.rest|;
    if n > 0 {
      assert LinkStatements(a.rest) == LinkStatements(b.rest)[n - 1 := Statement(LinkStatements(b.rest)[n - 1].guard, stages)];
    }
  }

  /** Changing the pipeline read last changes the last statement's stages. */
  lemma {:induction false} NewStages(f: Frame, statements: seq<Statement>, stages: seq<Simple>)
    requires f.list != [] && Means(f.list, statements) && stages != []
    ensures statements != [] && LastStages(f) == statements[|statements| - 1].stages
    ensures Means(WithStages(f, stages).list, WithLastStages(statements, stages))
  {
    hide AndOrStatements, WithLastCmd, LastCmd, Plain;
    var n := |f.list| - 1;
    var b := f.list[n];
    PlainParts(f.list);
    LastStatement(b, stages);
    ReplaceLast(f.list, statements, WithLastCmd(b, Pipeline(stages)));
    ReplaceInTail(ListStatements(f.list[..n]), AndOrStatements(b), stages);
  }

  lemma {:induction false} ReplaceInTail(head: seq<Statement>, own: seq<Statement>, stages: seq<Simple>)
    requires own != []
    ensures (head + own)[|head + own| - 1] == own[|own| - 1]
    ensures WithLastStages(head + own, stages) == head + WithLastStages(own, stages)
  {
  }

  // ------------------------------------------------------------------ reading pieces that open no group

  predicate Flat(pieces: seq<Piece>) { forall i :: 0 <= i < |pieces| ==> !pieces[i].Open? && !pieces[i].Close? }

  function ParseFlat(f: Frame, pieces: seq<Piece>): Option<Frame> {
    if pieces == [] then Some(f)
    else
      var before := ParseFlat(f, pieces[..|pieces| - 1]);
      if before.None? then None else ParsePiece(before.value, pieces[|pieces| - 1])
  }

  lemma {:induction false} FlatMore(f: Frame, pieces: seq<Piece>, piece: Piece)
    ensures ParseFlat(f, pieces + [piece])
            == if ParseFlat(f, pieces).None? then None else ParsePiece(ParseFlat(f, pieces).value, piece)
  {
    hide ParsePiece;
    assert (pieces + [piece])[..|pieces|] == pieces;
  }

  lemma {:induction false} ParseMore(stack: seq<Frame>, pieces: seq<Piece>, piece: Piece)
    requires stack != []
    ensures ParseFrom(stack, pieces + [piece])
            == if ParseFrom(stack, pieces).None? then None else ParseOne(ParseFrom(stack, pieces).value, piece)
  {
    hide ParseOne;
    assert (pieces + [piece])[..|pieces|] == pieces;
  }

  /** Reading goes on where it stopped. */
  lemma {:induction false} ParseAppend(stack: seq<Frame>, a: seq<Piece>, b: seq<Piece>)
    requires stack != []
    ensures ParseFrom(stack, a + b)
            == if ParseFrom(stack, a).None? then None else ParseFrom(ParseFrom(stack, a).value, b)
    decreases |b|
  {
    hide ParseOne;
    if b == [] {
      assert a + b == a;
    } else {
      var n := |b| - 1;
      assert a + b == (a + b[..n]) + [b[n]];
      ParseMore(stack, a + b[..n], b[n]);
      ParseAppend(stack, a, b[..n]);
    }
  }

  /** Such pieces change the innermost list only. */
  lemma {:induction false} FlatIsTop(outer: seq<Frame>, f: Frame, pieces: seq<Piece>)
    requires Flat(pieces)
    ensures ParseFrom(outer + [f], pieces)
            == if ParseFlat(f, pieces).None? then None else Some(outer + [ParseFlat(f, pieces).value])
    decreases |pieces|
  {
    hide ParsePiece;
    if pieces != [] {
      var n := |pieces| - 1;
      FlatIsTop(outer, f, pieces[..n]);
      var before := ParseFlat(f, pieces[..n]);
      if before.Some? {
        var stack := outer + [before.value];
        assert stack[..|outer|] == outer;
      }
    }
  }

  function Under(pre: seq<AndOr>, f: Frame): Frame { Frame(pre + f.list, f.need) }

  /** Nothing read yet means a command comes first. */
  predicate Started(f: Frame) { f.list == [] ==> f.need == First }

  lemma {:induction false} AddUnder(pre: seq<AndOr>, f: Frame, cmd: Cmd)
    requires Started(f) && AddCommand(f, cmd).Some?
    ensures AddCommand(Under(pre, f), cmd) == Some(Under(pre, AddCommand(f, cmd).value))
  {
    if f.need == First {
      assert pre + (f.list + [AndOr(cmd, [])]) == (pre + f.list) + [AndOr(cmd, [])];
    } else {
      var n := |f.list| - 1;
      var a := f.list[n].(rest := f.list[n].rest + [Link(f.need == AfterAnd, cmd)]);
      assert pre + f.list[n := a] == (pre + f.list)[|pre| + n := a];
    }
  }

  lemma {:induction false} StagesUnder(pre: seq<AndOr>, f: Frame, stages: seq<Simple>)
    requires f.list != []
    ensures LastStages(Under(pre, f)) == LastStages(f)
    ensures WithStages(Under(pre, f), stages) == Under(pre, WithStages(f, stages))
  {
    hide LastCmd, WithLastCmd;
    var n := |f.list| - 1;
    var a := WithLastCmd(f.list[n], Pipeline(stages));
    assert pre + f.list[n := a] == (pre + f.list)[|pre| + n := a];
  }

  lemma {:induction false} PieceUnder(pre: seq<AndOr>, f: Frame, piece: Piece)
    requires Started(f) && ParsePiece(f, piece).Some?
    ensures Started(ParsePiece(f, piece).value)
    ensures ParsePiece(Under(pre, f), piece) == Some(Under(pre, ParsePiece(f, piece).value))
  {
    hide LastCmd, WithLastCmd;
    match piece
    case Cd(dir) => AddUnder(pre, f, ChangeDir(dir));
    case Export(name, value) => AddUnder(pre, f, Assign(name, value));
    case To(append, operand) =>
      StagesUnder(pre, f, RedirectLast(LastStages(f), (append, operand)));
    case Word(text) =>
      if f.need == Stage {
        StagesUnder(pre, f, LastStages(f) + [Simple(text, [])]);
      } else {
        AddUnder(pre, f, Pipeline([Simple(text, [])]));
      }
    case _ =>
  }

  /** What is read does not depend on the commands that went before. */
  lemma {:induction false} FlatUnder(pre: seq<AndOr>, f: Frame, pieces: seq<Piece>)
    requires Started(f) && ParseFlat(f, pieces).Some?
    ensures Started(ParseFlat(f, pieces).value)
    ensures ParseFlat(Under(pre, f), pieces) == Some(Under(pre, ParseFlat(f, pieces).value))
    decreases |pieces|
  {
    hide ParsePiece, Under, Started;
    if pieces != [] {
      var n := |pieces| - 1;
      FlatUnder(pre, f, pieces[..n]);
      PieceUnder(pre, ParseFlat(f, pieces[..n]).value, pieces[n]);
    }
  }

  // --------------------------------------------------------- what the joining loop has read and written

  function RedirectOf(op: Op): Option<bool> {
    if op == Redirect then Some(false) else if op == Append then Some(true) else None
  }

  /** The loop's state after tokens that leave `kept`: what it wrote reads as the statements they stand for. */
  ghost predicate Reads(s: Joining, kept: seq<Token>) {
    && Flat(s.result) && PlacedSoFar(kept)
    && (kept == [] ==> s == START)
    && (kept != [] ==> s.hasCommand && s.result != [] && Written(s.result, Statements(kept)))
    && (kept != [] && kept[|kept| - 1].Operator? ==> Waiting(s, kept[|kept| - 1].op))
    && (kept != [] && kept[|kept| - 1].Command? ==> !s.expecting && s.pending == Semi(false) && s.redirecting == None)
  }

  ghost predicate Waiting(s: Joining, op: Op) {
    s.expecting && s.pending == PieceOf(op) && s.redirecting == RedirectOf(op)
  }

  ghost predicate Written(pieces: seq<Piece>, statements: seq<Statement>) {
    var f := ParseFlat(EMPTY, pieces);
    f.Some? && f.value.need == Complete && f.value.list != [] && Means(f.value.list, statements)
  }

  lemma {:induction false} WriteFirst(text: string)
    ensures Written([Word(text)], [Statement(Always, [Simple(text, [])])])
  {
    assert [] + [Word(text)] == [Word(text)];
    FlatMore(EMPTY, [], Word(text));
    assert Means([], []);
    NewStatement([], [], Simple(text, []));
    assert [] + [AndOr(Pipeline([Simple(text, [])]), [])] == [AndOr(Pipeline([Simple(text, [])]), [])];
    assert [] + [Statement(Always, [Simple(text, [])])] == [Statement(Always, [Simple(text, [])])];
  }

  lemma {:induction false} WriteNext(pieces: seq<Piece>, statements: seq<Statement>, newline: bool, text: string)
    requires Written(pieces, statements)
    ensures Written(pieces + [Semi(newline)] + [Word(text)], statements + [Statement(Always, [Simple(text, [])])])
  {
    hide Means;
    FlatMore(EMPTY, pieces, Semi(newline));
    FlatMore(EMPTY, pieces + [Semi(newline)], Word(text));
    NewStatement(ParseFlat(EMPTY, pieces).value.list, statements, Simple(text, []));
  }

  lemma {:induction false} WriteLink(pieces: seq<Piece>, statements: seq<Statement>, isAnd: bool, text: string)
    requires Written(pieces, statements)
    ensures Written(pieces + [if isAnd then AndIf else OrIf] + [Word(text)],
                    statements + [Statement(if isAnd then IfOk else IfFailed, [Simple(text, [])])])
  {
    hide Means;
    FlatMore(EMPTY, pieces, if isAnd then AndIf else OrIf);
    FlatMore(EMPTY, pieces + [if isAnd then AndIf else OrIf], Word(text));
    NewLink(ParseFlat(EMPTY, pieces).value, statements, isAnd, Simple(text, []));
  }

  lemma {:induction false} LastIsStaged(statements: seq<Statement>)
    requires Staged(statements) && statements != []
    ensures statements[|statements| - 1].stages != []
  {
  }

  lemma {:induction false} WriteStage(pieces: seq<Piece>, statements: seq<Statement>, text: string)
    requires Written(pieces, statements) && statements != [] && Staged(statements)
    ensures Written(pieces + [Bar] + [Word(text)], AddStage(statements, Simple(text, [])))
  {
    hide Means, LastCmd, WithLastCmd, Staged, WithLastStages;
    FlatMore(EMPTY, pieces, Bar);
    FlatMore(EMPTY, pieces + [Bar], Word(text));
    var f := ParseFlat(EMPTY, pieces).value;
    NewStages(f, statements, statements[|statements| - 1].stages + [Simple(text, [])]);
    LastIsStaged(statements);
  }

  lemma {:induction false} WriteRedirect(pieces: seq<Piece>, statements: seq<Statement>, append: bool, operand: string)
    requires Written(pieces, statements) && statements != [] && statements[|statements| - 1].stages != []
    ensures Written(pieces + [To(append, operand)], AddRedirect(statements, (append, operand)))
  {
    hide Means, LastCmd, WithLastCmd, WithLastStages;
    FlatMore(EMPTY, pieces, To(append, operand));
    var f := ParseFlat(EMPTY, pieces).value;
    NewStages(f, statements, RedirectLast(statements[|statements| - 1].stages, (append, operand)));
  }

  /** What a token adds to what it joins. */
  function StepPieces(d: Dialect, s: Joining, t: Token): seq<Piece>
    requires t.Command?
  {
    if s.redirecting.Some? then [To(s.redirecting.value, t.operand)]
    else if !s.hasCommand || s.result == [] then [Word(t.text)]
    else if s.pending == Semi(false) then [SeparatorAfter(Text(d, s.result[|s.result| - 1])), Word(t.text)]
    else [s.pending, Word(t.text)]
  }

  lemma {:induction false} StepWrites(d: Dialect, s: Joining, t: Token)
    requires IsToken(t) && t.Command? && t.text != ""
    ensures Step(d, s, t) == Some(Joining(s.result + StepPieces(d, s, t), Semi(false), None, true, false))
  {
    if s.redirecting.None? {
      assert s.result + [] + [Word(t.text)] == s.result + [Word(t.text)];
      forall p: Piece ensures s.result + [p] + [Word(t.text)] == s.result + [p, Word(t.text)] {}
    }
  }

  predicate EndsInCommand(kept: seq<Token>) { kept != [] && kept[|kept| - 1].Command? }

  lemma {:induction false} PlacedMore(kept: seq<Token>, t: Token)
    ensures PlacedSoFar(kept + [t]) <==> PlacedSoFar(kept) && (t.Operator? ==> EndsInCommand(kept))
  {
    var more := kept + [t];
    assert forall i :: 0 <= i < |kept| ==> more[i] == kept[i];
    assert more[|kept|] == t;
    if PlacedSoFar(more) {
      forall i | 0 <= i < |kept| && kept[i].Operator? ensures 0 < i && kept[i - 1].Command? {
        assert more[i].Operator?;
      }
    }
  }

  function LastOp(kept: seq<Token>): Option<Op> {
    if kept != [] && kept[|kept| - 1].Operator? then Some(kept[|kept| - 1].op) else None
  }

  lemma {:induction false} StatementsMore(kept: seq<Token>, t: Token)
    requires PlacedSoFar(kept) && PlacedSoFar(kept + [t])
    ensures t.Operator? ==> Statements(kept + [t]) == Statements(kept)
    ensures t.Command? ==> Statements(kept + [t]) == Attach(Statements(kept), LastOp(kept), t)
  {
    hide Attach, PlacedSoFar, Staged;
    assert (kept + [t])[..|kept|] == kept;
  }

  lemma {:induction false} StepOperator(d: Dialect, s: Joining, kept: seq<Token>, op: Op)
    requires Reads(s, kept)
    ensures Step(d, s, Operator(op)).None? <==> !EndsInCommand(kept)
    ensures EndsInCommand(kept) ==> Reads(Step(d, s, Operator(op)).value, kept + [Operator(op)])
  {
    hide Written, PlacedSoFar, Statements, Flat;
    if EndsInCommand(kept) {
      PlacedMore(kept, Operator(op));
      StatementsMore(kept, Operator(op));
    }
  }

  lemma {:induction false} FlatAppend(a: seq<Piece>, b: seq<Piece>)
    requires Flat(a) && Flat(b)
    ensures Flat(a + b)
  {
  }

  /** What one command adds reads as what it should mean. */
  lemma {:induction false} StepMeans(d: Dialect, s: Joining, kept: seq<Token>, t: Token)
    requires Reads(s, kept) && t.Command?
    ensures Flat(StepPieces(d, s, t)) && StepPieces(d, s, t) != []
    ensures LastOp(kept).Some? && LastOp(kept) != Some(Sequence) ==> kept != []
    ensures Written(s.result + StepPieces(d, s, t), Attach(Statements(kept), LastOp(kept), t))
  {
    hide Written, PlacedSoFar, Statements, Staged, AddStage, AddRedirect;
    var statements := Statements(kept);
    if kept == [] {
      assert [] + [Word(t.text)] == [Word(t.text)];
      assert [] + [Statement(Always, [Simple(t.text, [])])] == [Statement(Always, [Simple(t.text, [])])];
      WriteFirst(t.text);
    } else {
      forall p: Piece ensures s.result + [p] + [Word(t.text)] == s.result + [p, Word(t.text)] {}
      match LastOp(kept)
      case Some(And) => WriteLink(s.result, statements, true, t.text);
      case Some(Or) => WriteLink(s.result, statements, false, t.text);
      case Some(Pipe) => WriteStage(s.result, statements, t.text);
      case Some(Redirect) => WriteLater(s.result, statements, false, t.operand);
      case Some(Append) => WriteLater(s.result, statements, true, t.operand);
      case Some(Sequence) => WriteNext(s.result, statements, StepPieces(d, s, t)[0].newline, t.text);
      case None => WriteNext(s.result, statements, StepPieces(d, s, t)[0].newline, t.text);
    }
  }

  lemma {:induction false} WriteLater(pieces: seq<Piece>, statements: seq<Statement>, append: bool, operand: string)
    requires Written(pieces, statements) && statements != [] && Staged(statements)
    ensures Written(pieces + [To(append, operand)], AddRedirect(statements, (append, operand)))
  {
    hide Written;
    WriteRedirect(pieces, statements, append, operand);
  }

  lemma {:induction false} StepCommand(d: Dialect, s: Joining, kept: seq<Token>, t: Token)
    requires Reads(s, kept) && IsToken(t) && t.Command? && t.text != ""
    ensures Step(d, s, t).Some? && Reads(Step(d, s, t).value, kept + [t])
  {
    hide Written, PlacedSoFar, Statements, Attach, StepPieces, Step, Flat;
    StepWrites(d, s, t);
    StepMeans(d, s, kept, t);
    PlacedMore(kept, t);
    StatementsMore(kept, t);
    FlatAppend(s.result, StepPieces(d, s, t));
  }

  lemma {:induction false} NothingRead()
    ensures Reads(START, []) && PlacedSoFar([])
  {
  }

  lemma {:induction false} EmptyIsSkipped(d: Dialect, s: Joining, t: Token)
    requires IsToken(t) && t.Command? && t.text == ""
    ensures Step(d, s, t) == Some(s)
  {
  }

  lemma {:induction false} ReadIsPlaced(s: Joining, kept: seq<Token>)
    requires Reads(s, kept)
    ensures PlacedSoFar(kept)
  {
  }

  predicate AreTokens(tokens: seq<Token>) { forall i :: 0 <= i < |tokens| ==> IsToken(tokens[i]) }

  /** The loop fails exactly at a misplaced operator, and what it wrote until then reads as it should. */
  lemma {:induction false} StepsRead(d: Dialect, tokens: seq<Token>)
    requires AreTokens(tokens)
    ensures Steps(d, tokens).None? <==> !PlacedSoFar(Kept(tokens))
    ensures Steps(d, tokens).Some? ==> Reads(Steps(d, tokens).value, Kept(tokens))
    decreases |tokens|
  {
    hide Written, PlacedSoFar, Statements, Step, Flat, Reads, EndsInCommand;
    if tokens == [] {
      NothingRead();
    } else {
      var n := |tokens| - 1;
      var t := tokens[n];
      var kept := Kept(tokens[..n]);
      assert AreTokens(tokens[..n]);
      StepsRead(d, tokens[..n]);
      var before := Steps(d, tokens[..n]);
      PlacedMore(kept, t);
      if before.None? {
      } else if t.Operator? {
        StepOperator(d, before.value, kept, t.op);
      } else if t.text == "" {
        EmptyIsSkipped(d, before.value, t);
      } else {
        StepCommand(d, before.value, kept, t);
      }
      if before.Some? { ReadIsPlaced(before.value, kept); }
    }
  }

  /** A list is refused exactly when an operator does not stand between two commands. */
  lemma {:induction false} JoinRefusesMisplaced(d: Dialect, tokens: seq<Token>)
    requires AreTokens(tokens)
    ensures Joined(d, tokens).None? <==> !Placed(Kept(tokens))
  {
    hide Written, Statements, Steps, Flat, Kept;
    StepsRead(d, tokens);
    var kept := Kept(tokens);
    assert Placed(kept) ==> PlacedSoFar(kept);
    if PlacedSoFar(kept) { PlacedWhenDone(kept); }
  }

  lemma {:induction false} BeforeOperator(kept: seq<Token>, i: nat)
    requires PlacedSoFar(kept) && i < |kept| && kept[i].Operator?
    ensures 0 < i && kept[i - 1].Command?
  {
  }

  lemma {:induction false} PlacedWhenDone(kept: seq<Token>)
    requires PlacedSoFar(kept)
    ensures Placed(kept) <==> kept == [] || EndsInCommand(kept)
  {
    hide PlacedSoFar;
    if kept == [] || EndsInCommand(kept) {
      forall i | 0 <= i < |kept| && kept[i].Operator?
        ensures 0 < i < |kept| - 1 && kept[i - 1].Command? && kept[i + 1].Command?
      {
        BeforeOperator(kept, i);
        if kept[i + 1].Operator? { BeforeOperator(kept, i + 1); }
      }
    }
  }

  // ---------------------------------------------------------- line ends behind the callers' texts

  /** How a command is written: as a file name behind `>`, else as itself. */
  function Shown(kept: seq<Token>, k: nat): string
    requires k < |kept| && kept[k].Command?
  {
    if k > 0 && kept[k - 1].Operator? && RedirectOf(kept[k - 1].op).Some? then kept[k].operand else kept[k].text
  }

  /** Another command follows: at once, or behind an operator. */
  predicate Followed(kept: seq<Token>, k: nat)
    requires k < |kept|
  {
    k + 1 < |kept| && (kept[k + 1].Command? || k + 2 < |kept|)
  }

  /** If a command needs a line end and another follows, then it holds one itself, and no operator but a sequence stands
      between the two. */
  predicate FitsAt(h: string -> bool, kept: seq<Token>, k: nat)
    requires k < |kept| && kept[k].Command?
  {
    h(Shown(kept, k)) && Followed(kept, k) ==>
      '\n' in Shown(kept, k) && (kept[k + 1].Operator? ==> kept[k + 1].op == Sequence)
  }

  predicate LinesFit(h: string -> bool, kept: seq<Token>) {
    forall k :: 0 <= k < |kept| && kept[k].Command? ==> FitsAt(h, kept, k)
  }

  /** What the last command written shows. */
  function LastShown(kept: seq<Token>): string
    requires kept != [] && PlacedSoFar(kept)
  {
    var n := |kept| - 1;
    if kept[n].Command? then Shown(kept, n) else Shown(kept, n - 1)
  }

  lemma {:induction false} ShownMore(kept: seq<Token>, t: Token, k: nat)
    requires k < |kept| && kept[k].Command?
    ensures Shown(kept + [t], k) == Shown(kept, k)
  {
  }

  /** The last command may be followed by one more. */
  predicate LastFits(h: string -> bool, kept: seq<Token>)
    requires kept != [] && PlacedSoFar(kept)
  {
    h(LastShown(kept)) ==> '\n' in LastShown(kept) && (LastOp(kept).Some? ==> LastOp(kept) == Some(Sequence))
  }

  lemma {:induction false} FitStays(h: string -> bool, kept: seq<Token>, t: Token, k: nat)
    requires k < |kept| && kept[k].Command? && (Followed(kept, k) || (t.Operator? && k + 1 == |kept|))
    ensures FitsAt(h, kept + [t], k) <==> FitsAt(h, kept, k)
  {
    hide Shown;
    ShownMore(kept, t, k);
    assert forall j :: 0 <= j < |kept| ==> (kept + [t])[j] == kept[j];
  }

  lemma {:induction false} FitLast(h: string -> bool, kept: seq<Token>, t: Token, k: nat)
    requires k < |kept| && kept[k].Command? && !Followed(kept, k) && t.Command? && PlacedSoFar(kept)
    ensures FitsAt(h, kept, k) && (FitsAt(h, kept + [t], k) <==> LastFits(h, kept))
  {
    hide Shown, PlacedSoFar;
    ShownMore(kept, t, k);
    assert forall j :: 0 <= j < |kept| ==> (kept + [t])[j] == kept[j];
  }

  lemma {:induction false} FitOne(h: string -> bool, kept: seq<Token>, t: Token, k: nat)
    requires k < |kept| && kept[k].Command? && PlacedSoFar(kept) && PlacedSoFar(kept + [t])
    ensures FitsAt(h, kept + [t], k) <==> FitsAt(h, kept, k) && (t.Command? && !Followed(kept, k) ==> LastFits(h, kept))
  {
    hide FitsAt, PlacedSoFar, LastFits, Shown;
    if t.Operator? {
      BeforeOperator(kept + [t], |kept|);
      assert (kept + [t])[|kept| - 1] == kept[|kept| - 1];
      FitStays(h, kept, t, k);
    } else if Followed(kept, k) {
      FitStays(h, kept, t, k);
    } else {
      FitLast(h, kept, t, k);
    }
  }

  lemma {:induction false} LastCommand(kept: seq<Token>) returns (k: nat)
    requires PlacedSoFar(kept) && kept != []
    ensures k < |kept| && kept[k].Command? && !Followed(kept, k)
  {
    hide PlacedSoFar;
    k := |kept| - 1;
    if kept[k].Operator? {
      BeforeOperator(kept, k);
      k := k - 1;
    }
  }

  lemma {:induction false} LastIsFree(h: string -> bool, kept: seq<Token>, t: Token)
    requires t.Command?
    ensures FitsAt(h, kept + [t], |kept|)
  {
    hide Shown;
  }

  lemma {:induction false} FitMore(h: string -> bool, kept: seq<Token>, t: Token)
    requires PlacedSoFar(kept) && PlacedSoFar(kept + [t])
    ensures LinesFit(h, kept + [t]) <==> LinesFit(h, kept) && (t.Command? && kept != [] ==> LastFits(h, kept))
  {
    hide FitsAt, PlacedSoFar, LastFits, Shown, Followed;
    var more := kept + [t];
    assert forall k :: 0 <= k < |kept| ==> more[k] == kept[k];
    if t.Command? { LastIsFree(h, kept, t); }
    forall k | 0 <= k < |kept| && kept[k].Command?
      ensures FitsAt(h, more, k) <==> FitsAt(h, kept, k) && (t.Command? && !Followed(kept, k) ==> LastFits(h, kept))
    {
      FitOne(h, kept, t, k);
    }
    if LinesFit(h, more) {
      forall k | 0 <= k < |kept| && kept[k].Command? ensures FitsAt(h, kept, k) { assert more[k] == kept[k]; }
      if kept != [] { var last := LastCommand(kept); }
    }
  }

  lemma {:induction false} LastShownMore(kept: seq<Token>, t: Token)
    requires PlacedSoFar(kept) && PlacedSoFar(kept + [t])
    ensures t.Operator? ==> kept != [] && LastShown(kept + [t]) == LastShown(kept)
    ensures t.Command? ==> LastShown(kept + [t])
                           == if LastOp(kept).Some? && RedirectOf(LastOp(kept).value).Some? then t.operand else t.text
  {
    if t.Operator? {
      BeforeOperator(kept + [t], |kept|);
      assert (kept + [t])[|kept| - 1] == kept[|kept| - 1];
      ShownMore(kept, t, |kept| - 1);
    } else {
      assert (kept + [t])[|kept|] == t;
      if kept != [] { assert (kept + [t])[|kept| - 1] == kept[|kept| - 1]; }
    }
  }

  lemma {:induction false} LinesMore(h: string -> bool, a: seq<Piece>, b: seq<Piece>)
    requires a != [] && b != []
    ensures LinesEnded(h, a + b) <==>
      LinesEnded(h, a) && LinesEnded(h, b) && (h(Shows(a[|a| - 1])) ==> EndsLine(b[0]))
  {
    hide Shows, EndsLine;
    var all := a + b;
    assert forall i :: 0 <= i < |a| ==> all[i] == a[i];
    assert forall i :: 0 <= i < |b| ==> all[|a| + i] == b[i];
    if LinesEnded(h, all) {
      forall i | 0 <= i < |b| - 1 && h(Shows(b[i])) ensures EndsLine(b[i + 1]) {
        assert all[|a| + i] == b[i] && all[|a| + (i + 1)] == b[i + 1];
      }
      assert all[|a| - 1] == a[|a| - 1] && all[|a| - 1 + 1] == b[0];
    }
    if LinesEnded(h, a) && LinesEnded(h, b) && (h(Shows(a[|a| - 1])) ==> EndsLine(b[0])) {
      forall i | 0 <= i < |all| - 1 && h(Shows(all[i])) ensures EndsLine(all[i + 1]) {
        if i >= |a| { assert all[i] == b[i - |a|] && all[i + 1] == b[i - |a| + 1]; }
      }
    }
  }

  /** What was written so far has its line ends exactly if the commands so far fit. */
  ghost predicate Closes(h: string -> bool, s: Joining, kept: seq<Token>)
    requires PlacedSoFar(kept)
  {
    && (LinesEnded(h, s.result) <==> LinesFit(h, kept))
    && (kept != [] ==> s.result != [] && Shows(s.result[|s.result| - 1]) == LastShown(kept))
    && (kept != [] ==> s.result[|s.result| - 1].Word? || s.result[|s.result| - 1].To?)
  }

  lemma {:induction false} OperatorCloses(h: string -> bool, d: Dialect, s: Joining, kept: seq<Token>, op: Op)
    requires Reads(s, kept) && Closes(h, s, kept) && EndsInCommand(kept) && PlacedSoFar(kept + [Operator(op)])
    ensures Closes(h, Step(d, s, Operator(op)).value, kept + [Operator(op)])
  {
    hide Written, PlacedSoFar, Statements, Flat, LinesEnded, LinesFit, LastShown, Shows;
    FitMore(h, kept, Operator(op));
    LastShownMore(kept, Operator(op));
  }

  lemma {:induction false} NewlineShows(d: Dialect, piece: Piece)
    requires piece.Word? || piece.To?
    ensures '\n' in Text(d, piece) <==> '\n' in Shows(piece)
  {
    if piece.To? {
      var n := |Text(d, piece)| - |piece.operand|;
      if '\n' in piece.operand {
        var k :| 0 <= k < |piece.operand| && piece.operand[k] == '\n';
        assert Text(d, piece)[n + k] == '\n';
      }
      if '\n' in Text(d, piece) {
        var k :| 0 <= k < |Text(d, piece)| && Text(d, piece)[k] == '\n';
        assert piece.operand[k - n] == '\n';
      }
    }
  }

  lemma {:induction false} OneOrTwo(h: string -> bool, pieces: seq<Piece>)
    requires !h("") && 1 <= |pieces| <= 2 && (|pieces| == 2 ==> Shows(pieces[0]) == "")
    ensures LinesEnded(h, pieces)
  {
  }

  /** What a command adds begins with a line end exactly if the command before may be followed so. */
  lemma {:induction false} AddedEnds(h: string -> bool, d: Dialect, s: Joining, kept: seq<Token>, t: Token)
    requires Reads(s, kept) && Closes(h, s, kept) && t.Command? && kept != []
    ensures (h(LastShown(kept)) ==> EndsLine(StepPieces(d, s, t)[0])) <==> LastFits(h, kept)
  {
    hide Written, PlacedSoFar, Statements, Flat, LinesEnded, LinesFit, LastShown, Text, Shows;
    NewlineShows(d, s.result[|s.result| - 1]);
  }

  lemma {:induction false} CommandCloses(h: string -> bool, d: Dialect, s: Joining, kept: seq<Token>, t: Token)
    requires !h("") && Reads(s, kept) && Closes(h, s, kept)
    requires IsToken(t) && t.Command? && t.text != "" && PlacedSoFar(kept + [t])
    ensures Step(d, s, t).Some? && Closes(h, Step(d, s, t).value, kept + [t])
  {
    hide Written, PlacedSoFar, Statements, Flat, LinesEnded, LinesFit, LastShown, Step, Text, LastFits, EndsLine;
    StepWrites(d, s, t);
    FitMore(h, kept, t);
    LastShownMore(kept, t);
    var added := StepPieces(d, s, t);
    OneOrTwo(h, added);
    if kept == [] {
      assert s.result + added == added;
      NothingFits(h);
    } else {
      LinesMore(h, s.result, added);
      AddedEnds(h, d, s, kept, t);
    }
  }

  lemma {:induction false} NothingFits(h: string -> bool)
    ensures PlacedSoFar([]) && LinesFit(h, []) && LinesEnded(h, [])
  {
  }

  lemma {:induction false} StepsClose(h: string -> bool, d: Dialect, tokens: seq<Token>)
    requires !h("") && AreTokens(tokens) && Steps(d, tokens).Some?
    ensures PlacedSoFar(Kept(tokens)) && Closes(h, Steps(d, tokens).value, Kept(tokens))
    decreases |tokens|
  {
    hide Written, PlacedSoFar, Statements, Step, Flat, Reads, Closes;
    StepsRead(d, tokens);
    if tokens == [] {
      StartCloses(h);
    } else {
      var n := |tokens| - 1;
      var t := tokens[n];
      var kept := Kept(tokens[..n]);
      assert AreTokens(tokens[..n]);
      StepsClose(h, d, tokens[..n]);
      StepsRead(d, tokens[..n]);
      var before := Steps(d, tokens[..n]).value;
      if t.Operator? {
        StepOperator(d, before, kept, t.op);
        OperatorCloses(h, d, before, kept, t.op);
      } else if t.text == "" {
        EmptyIsSkipped(d, before, t);
      } else {
        CommandCloses(h, d, before, kept, t);
      }
    }
  }

  lemma {:induction false} StartCloses(h: string -> bool)
    ensures PlacedSoFar([]) && Closes(h, START, [])
  {
  }

  /** The joined pieces read as they were put together exactly if every command that needs a line end and is followed by
      another holds a line end and has no operator but a sequence behind it; and then it runs as the statements that the
      tokens stand for. */
  lemma {:induction false} PiecesMean(h: string -> bool, d: Dialect, tokens: seq<Token>, sh: Shell, w: World)
    requires !h("") && AreTokens(tokens) && Placed(Kept(tokens))
    ensures Joined(d, tokens).Some? && PlacedSoFar(Kept(tokens))
    ensures Read(h, Joined(d, tokens).value).Some? <==> LinesFit(h, Kept(tokens))
    ensures LinesFit(h, Kept(tokens)) ==>
      RunList(sh, Read(h, Joined(d, tokens).value).value, w) == RunStatements(sh, Statements(Kept(tokens)), w)
  {
    hide LinesEnded, LinesFit, Kept, Steps, Placed, PlacedSoFar, Statements, RunList, RunStatements, AreTokens, Flat;
    JoinedReads(h, d, tokens);
    GrammarMeans(d, tokens, sh, w);
  }

  lemma {:induction false} JoinedReads(h: string -> bool, d: Dialect, tokens: seq<Token>)
    requires !h("") && AreTokens(tokens) && Placed(Kept(tokens))
    ensures Joined(d, tokens).Some? && PlacedSoFar(Kept(tokens))
    ensures Read(h, Joined(d, tokens).value).Some? <==> LinesFit(h, Kept(tokens))
  {
    hide LinesEnded, LinesFit, Kept, Steps, Placed, PlacedSoFar, Statements, AreTokens, Flat, Parse;
    JoinRefusesMisplaced(d, tokens);
    StepsClose(h, d, tokens);
    JoinParses(d, tokens);
  }

  lemma {:induction false} JoinParses(d: Dialect, tokens: seq<Token>)
    requires AreTokens(tokens) && Joined(d, tokens).Some?
    ensures Parse(Joined(d, tokens).value).Some?
  {
    hide AreTokens, Kept, Joined;
    JoinReads(d, tokens);
    var pieces := Joined(d, tokens).value;
    if pieces != [] { ParsedFlat(pieces, ParseFlat(EMPTY, pieces).value); }
  }

  lemma {:induction false} GrammarMeans(d: Dialect, tokens: seq<Token>, sh: Shell, w: World)
    requires AreTokens(tokens) && Joined(d, tokens).Some?
    ensures Parse(Joined(d, tokens).value).Some? && PlacedSoFar(Kept(tokens))
    ensures RunList(sh, Parse(Joined(d, tokens).value).value, w) == RunStatements(sh, Statements(Kept(tokens)), w)
  {
    var pieces := Joined(d, tokens).value;
    JoinReads(d, tokens);
    if pieces != [] {
      var f := ParseFlat(EMPTY, pieces).value;
      FlatIsTop([], EMPTY, pieces);
      assert [] + [EMPTY] == [EMPTY] && [] + [f] == [f];
      RunListIs(sh, f.list, w);
    }
  }

  lemma {:induction false} JoinReads(d: Dialect, tokens: seq<Token>)
    requires AreTokens(tokens) && Joined(d, tokens).Some?
    ensures Flat(Joined(d, tokens).value) && PlacedSoFar(Kept(tokens))
    ensures Joined(d, tokens).value == [] <==> Kept(tokens) == []
    ensures Kept(tokens) != [] ==> Written(Joined(d, tokens).value, Statements(Kept(tokens)))
  {
    hide Written, Statements, Steps, Flat, Kept, PlacedSoFar;
    StepsRead(d, tokens);
  }

  // ---------------------------------------------------------------------------------- whole scripts

  /** The environment's assignments. */
  function EnvPieces(env: seq<(string, string)>): seq<Piece> {
    if env == [] then []
    else
      var n := |env| - 1;
      EnvPieces(env[..n]) + (if n == 0 then [] else [Semi(false)]) + [Export(env[n].0, env[n].1)]
  }

  /** A directory change and, when there is one, the payload grouped behind it. */
  function CwdPieces(d: Dialect, dir: string, command: seq<Piece>): seq<Piece> {
    if command == [] then [Cd(dir)]
    else [Cd(dir), AndIf, Open] + command + [Close('\n' in Texts(d, command))]
  }

  function WithPart(d: Dialect, script: seq<Piece>, part: seq<Piece>): seq<Piece> {
    if part == [] then script
    else if script == [] then part
    else script + [SeparatorAfter(Texts(d, script))] + part
  }

  /** The whole script: environment, then directory, then payload. */
  function Assembled(d: Dialect, tokens: seq<Token>, cwd: Option<string>, env: seq<(string, string)>): Option<seq<Piece>> {
    var command := Joined(d, tokens);
    if command.None? then None
    else
      var part := if cwd.Some? then CwdPieces(d, cwd.value, command.value) else command.value;
      Some(WithPart(d, EnvPieces(env), part))
  }

  /** Assemble a script, in the program's own order of work: the rendered parts, those that are not empty, one after
      the other with a separator that suits the text so far. */
  method Assemble(d: Dialect, tokens: seq<Token>, cwd: Option<string>, env: seq<(string, string)>)
    returns (text: Option<string>, script: Option<seq<Piece>>)
    ensures script == Assembled(d, tokens, cwd, env) && text == TextOf(d, script)
  {
    var source, joined := Join(d, tokens);
    if joined.None? { return None, None; }
    var command := joined.value;
    var changed := if cwd.Some? then [Cd(cwd.value)] else [];
    if cwd.Some? && command != [] {
      changed := CwdPieces(d, cwd.value, command);
      command := [];
    }
    var parts := [EnvPieces(env), changed, command];
    var pieces := [];
    for i := 0 to 3
      invariant i == 0 ==> pieces == []
      invariant i == 1 ==> pieces == parts[0]
      invariant i == 2 ==> pieces == WithPart(d, parts[0], parts[1])
      invariant i == 3 ==> pieces == WithPart(d, WithPart(d, parts[0], parts[1]), parts[2])
    {
      if parts[i] != [] {
        if pieces != [] { pieces := pieces + [SeparatorAfter(Texts(d, pieces))]; }
        pieces := pieces + parts[i];
      }
    }
    script := Some(pieces);
    text := TextOf(d, script);
  }

  lemma {:induction false} SomeText(d: Dialect, pieces: seq<Piece>)
    requires pieces != [] && (pieces[0].Word? ==> pieces[0].text != "")
    ensures Texts(d, pieces) != ""
    decreases |pieces|
  {
    if |pieces| > 1 { SomeText(d, pieces[..|pieces| - 1]); }
  }

  lemma {:induction false} FirstHasText(d: Dialect, tokens: seq<Token>)
    requires Steps(d, tokens).Some?
    ensures var r := Steps(d, tokens).value.result; r != [] && r[0].Word? ==> r[0].text != ""
    decreases |tokens|
  {
    if tokens != [] { FirstHasText(d, tokens[..|tokens| - 1]); }
  }

  /** The program asks for an empty text where the model asks for no pieces: the two agree. */
  lemma {:induction false} NoTextNoPieces(d: Dialect, tokens: seq<Token>)
    requires Joined(d, tokens).Some?
    ensures Texts(d, Joined(d, tokens).value) == "" <==> Joined(d, tokens).value == []
  {
    hide Steps;
    FirstHasText(d, tokens);
    if Joined(d, tokens).value != [] { SomeText(d, Joined(d, tokens).value); }
  }

  function Assigns(env: seq<(string, string)>): seq<AndOr> {
    seq(|env|, i requires 0 <= i < |env| => AndOr(Assign(env[i].0, env[i].1), []))
  }

  function WithEnv(w: World, env: seq<(string, string)>): World {
    if env == [] then w
    else
      var n := |env| - 1;
      var before := WithEnv(w, env[..n]);
      before.(env := before.env[env[n].0 := env[n].1], status := 0)
  }

  lemma {:induction false} ExportReads(list: seq<AndOr>, pieces: seq<Piece>, name: string, value: string)
    requires Flat(pieces) && ParseFlat(EMPTY, pieces) == Some(Frame(list, First))
    ensures Flat(pieces + [Export(name, value)])
    ensures ParseFlat(EMPTY, pieces + [Export(name, value)]) == Some(Frame(list + [AndOr(Assign(name, value), [])], Complete))
  {
    FlatMore(EMPTY, pieces, Export(name, value));
  }

  lemma {:induction false} AssignsMore(env: seq<(string, string)>)
    requires env != []
    ensures Assigns(env)
            == Assigns(env[..|env| - 1]) + [AndOr(Assign(env[|env| - 1].0, env[|env| - 1].1), [])]
  {
  }

  lemma {:induction false} NothingIsFlat()
    ensures Flat([])
  {
  }

  lemma {:induction false} EnvReads(env: seq<(string, string)>)
    ensures Flat(EnvPieces(env)) && (EnvPieces(env) == [] <==> env == [])
    ensures ParseFlat(EMPTY, EnvPieces(env)) == Some(Frame(Assigns(env), if env == [] then First else Complete))
    decreases |env|
  {
    hide ParsePiece, Flat;
    if env == [] {
      assert Assigns(env) == [];
      NothingIsFlat();
    } else {
      hide ParseFlat, Assigns;
      var n := |env| - 1;
      EnvReads(env[..n]);
      AssignsMore(env);
      var before := EnvPieces(env[..n]);
      if n == 0 {
        assert before + [] == before;
        ExportReads(Assigns(env[..n]), before, env[n].0, env[n].1);
      } else {
        SemiReads(Assigns(env[..n]), before, Semi(false));
        ExportReads(Assigns(env[..n]), before + [Semi(false)], env[n].0, env[n].1);
      }
    }
  }

  lemma {:induction false} SemiReads(list: seq<AndOr>, pieces: seq<Piece>, semi: Piece)
    requires Flat(pieces) && ParseFlat(EMPTY, pieces) == Some(Frame(list, Complete)) && semi.Semi?
    ensures Flat(pieces + [semi]) && ParseFlat(EMPTY, pieces + [semi]) == Some(Frame(list, First))
  {
    FlatMore(EMPTY, pieces, semi);
  }

  lemma {:induction false} RunNothing(sh: Shell, w: World)
    ensures RunList(sh, [], w) == w
  {
  }

  lemma {:induction false} AssignRuns(sh: Shell, name: string, value: string, w: World)
    ensures RunAndOr(sh, AndOr(Assign(name, value), []), w) == w.(env := w.env[name := value], status := 0)
  {
    var a := AndOr(Assign(name, value), []);
    assert RunLinks(sh, a.rest, RunCmd(sh, a.first, w)) == RunCmd(sh, a.first, w);
  }

  lemma {:induction false} AssignsRun(sh: Shell, env: seq<(string, string)>, w: World)
    ensures RunList(sh, Assigns(env), w) == WithEnv(w, env)
    decreases |env|
  {
    hide RunAndOr, RunList;
    if env == [] {
      assert Assigns(env) == [];
      RunNothing(sh, w);
    } else {
      var n := |env| - 1;
      var last := AndOr(Assign(env[n].0, env[n].1), []);
      assert Assigns(env) == Assigns(env[..n]) + [last];
      AssignsRun(sh, env[..n], w);
      RunListAppend(sh, Assigns(env[..n]), last, w);
      AssignRuns(sh, env[n].0, env[n].1, WithEnv(w, env[..n]));
    }
  }

  lemma {:induction false} FlatAppends(f: Frame, a: seq<Piece>, b: seq<Piece>)
    ensures ParseFlat(f, a + b) == if ParseFlat(f, a).None? then None else ParseFlat(ParseFlat(f, a).value, b)
    decreases |b|
  {
    hide ParsePiece;
    if b == [] {
      assert a + b == a;
    } else {
      var n := |b| - 1;
      assert a + b == (a + b[..n]) + [b[n]];
      FlatMore(f, a + b[..n], b[n]);
      FlatAppends(f, a, b[..n]);
    }
  }

  /** The environment and the separator after it leave a frame that waits for a command. */
  function Lead(d: Dialect, env: seq<(string, string)>): seq<Piece> {
    if env == [] then [] else EnvPieces(env) + [SeparatorAfter(Texts(d, EnvPieces(env)))]
  }

  lemma {:induction false} LeadReads(d: Dialect, env: seq<(string, string)>)
    ensures Flat(Lead(d, env)) && ParseFlat(EMPTY, Lead(d, env)) == Some(Frame(Assigns(env), First))
  {
    EnvReads(env);
    if env != [] { SemiReads(Assigns(env), EnvPieces(env), SeparatorAfter(Texts(d, EnvPieces(env)))); }
  }

  lemma {:induction false} PartAfterLead(d: Dialect, env: seq<(string, string)>, part: seq<Piece>)
    requires part != []
    ensures WithPart(d, EnvPieces(env), part) == Lead(d, env) + part
  {
    EnvReads(env);
  }

  lemma {:induction false} ParsedFlat(pieces: seq<Piece>, f: Frame)
    requires Flat(pieces) && ParseFlat(EMPTY, pieces) == Some(f) && f.need == Complete
    ensures Parse(pieces) == Some(f.list)
  {
    FlatIsTop([], EMPTY, pieces);
    assert [] + [EMPTY] == [EMPTY] && [] + [f] == [f];
    assert ParseFlat(EMPTY, []) == Some(EMPTY);
  }

  /** Without a directory the payload follows the assignments. */
  lemma {:induction false} PayloadAfterEnv(d: Dialect, env: seq<(string, string)>, pieces: seq<Piece>, list: seq<AndOr>)
    requires Flat(pieces) && pieces != [] && ParseFlat(EMPTY, pieces) == Some(Frame(list, Complete))
    ensures Parse(WithPart(d, EnvPieces(env), pieces)) == Some(Assigns(env) + list)
  {
    hide ParsePiece, Flat;
    var pre := Assigns(env);
    PartAfterLead(d, env, pieces);
    LeadReads(d, env);
    FlatAppend(Lead(d, env), pieces);
    FlatAppends(EMPTY, Lead(d, env), pieces);
    FlatUnder(pre, EMPTY, pieces);
    assert pre + [] == pre;
    ParsedFlat(Lead(d, env) + pieces, Frame(pre + list, Complete));
  }

  lemma {:induction false} CdAfterEnv(d: Dialect, env: seq<(string, string)>, dir: string)
    ensures Flat(Lead(d, env) + [Cd(dir)])
    ensures ParseFlat(EMPTY, Lead(d, env) + [Cd(dir)])
            == Some(Frame(Assigns(env) + [AndOr(ChangeDir(dir), [])], Complete))
  {
    LeadReads(d, env);
    FlatMore(EMPTY, Lead(d, env), Cd(dir));
  }

  lemma {:induction false} CdAlone(d: Dialect, env: seq<(string, string)>, dir: string)
    ensures Parse(WithPart(d, EnvPieces(env), [Cd(dir)])) == Some(Assigns(env) + [AndOr(ChangeDir(dir), [])])
  {
    PartAfterLead(d, env, [Cd(dir)]);
    CdAfterEnv(d, env, dir);
    ParsedFlat(Lead(d, env) + [Cd(dir)], Frame(Assigns(env) + [AndOr(ChangeDir(dir), [])], Complete));
  }

  /** With a directory the whole payload is one group behind `cd`. */
  lemma {:induction false} PayloadBehindCd(d: Dialect, env: seq<(string, string)>, dir: string, pieces: seq<Piece>, list: seq<AndOr>)
    requires Flat(pieces) && pieces != [] && ParseFlat(EMPTY, pieces) == Some(Frame(list, Complete))
    ensures Parse(WithPart(d, EnvPieces(env), CwdPieces(d, dir, pieces)))
            == Some(Assigns(env) + [AndOr(ChangeDir(dir), [Link(true, Group(list))])])
  {
    hide ParseOne, ParseFrom, ParseFlat, Flat, Texts, Lead, EnvPieces, WithPart, Assigns;
    var cd := Lead(d, env) + [Cd(dir)] + [AndIf];
    var close := Close('\n' in Texts(d, pieces));
    PartAfterLead(d, env, CwdPieces(d, dir, pieces));
    assert Lead(d, env) + CwdPieces(d, dir, pieces) == cd + [Open] + pieces + [close];
    var outer := Frame(Assigns(env) + [AndOr(ChangeDir(dir), [])], AfterAnd);
    GuardReads(d, env, dir);
    GroupReads(cd, outer, pieces, list);
    ParseMore([EMPTY], cd + [Open] + pieces, close);
    GroupCloses(Assigns(env), dir, Frame(list, Complete), close);
  }

  lemma {:induction false} GroupReads(cd: seq<Piece>, outer: Frame, pieces: seq<Piece>, list: seq<AndOr>)
    requires ParseFrom([EMPTY], cd) == Some([outer])
    requires Flat(pieces) && ParseFlat(EMPTY, pieces) == Some(Frame(list, Complete))
    ensures ParseFrom([EMPTY], cd + [Open] + pieces) == Some([outer] + [Frame(list, Complete)])
  {
    hide ParseFrom, ParseFlat, Flat;
    ParseMore([EMPTY], cd, Open);
    ParseAppend([EMPTY], cd + [Open], pieces);
    FlatIsTop([outer], EMPTY, pieces);
  }

  lemma {:induction false} GuardReads(d: Dialect, env: seq<(string, string)>, dir: string)
    ensures ParseFrom([EMPTY], Lead(d, env) + [Cd(dir)] + [AndIf])
            == Some([Frame(Assigns(env) + [AndOr(ChangeDir(dir), [])], AfterAnd)])
  {
    hide Lead;
    var before := Lead(d, env) + [Cd(dir)];
    CdAfterEnv(d, env, dir);
    FlatMore(EMPTY, before, AndIf);
    FlatIsTop([], EMPTY, before + [AndIf]);
    var f := Frame(Assigns(env) + [AndOr(ChangeDir(dir), [])], AfterAnd);
    assert [] + [EMPTY] == [EMPTY] && [] + [f] == [f];
  }

  lemma {:induction false} GroupCloses(pre: seq<AndOr>, dir: string, inner: Frame, close: Piece)
    requires close.Close? && inner.need == Complete
    ensures ParseOne([Frame(pre + [AndOr(ChangeDir(dir), [])], AfterAnd)] + [inner], close)
            == Some([Frame(pre + [AndOr(ChangeDir(dir), [Link(true, Group(inner.list))])], Complete)])
  {
    var cd := AndOr(ChangeDir(dir), []);
    var outer := Frame(pre + [cd], AfterAnd);
    var link := Link(true, Group(inner.list));
    assert [] + [link] == [link];
    assert (pre + [cd])[|pre| := cd.(rest := [link])] == pre + [cd.(rest := [link])];
    assert ([outer] + [inner])[..0] == [];
    var whole := Frame(pre + [AndOr(ChangeDir(dir), [link])], Complete);
    assert [] + [whole] == [whole];
  }

  /** What the script should do: nothing but the environment when the directory cannot be entered; otherwise exactly
      the payload's statements, in that directory and environment. */
  function Intended(sh: Shell, statements: seq<Statement>, cwd: Option<string>, env: seq<(string, string)>, w: World): World {
    var start := WithEnv(w, env);
    if cwd.None? then RunStatements(sh, statements, start)
    else
      var to := sh.enter(start.cwd, cwd.value);
      if to.None? then start.(status := 1)
      else RunStatements(sh, statements, start.(cwd := to.value, status := 0))
  }

  lemma {:induction false} RunGuarded(sh: Shell, dir: string, list: seq<AndOr>, statements: seq<Statement>, env: seq<(string, string)>, w: World)
    requires Means(list, statements)
    ensures RunAndOr(sh, AndOr(ChangeDir(dir), [Link(true, Group(list))]), WithEnv(w, env))
            == Intended(sh, statements, Some(dir), env, w)
  {
    hide RunList, RunStatements, WithEnv;
    var start := WithEnv(w, env);
    var a := AndOr(ChangeDir(dir), [Link(true, Group(list))]);
    var entered := RunCmd(sh, a.first, start);
    assert a.rest[1..] == [];
    assert RunLinks(sh, a.rest, entered) == RunLink(sh, a.rest[0], entered);
    if entered.status == 0 {
      RunListIs(sh, list, entered);
      assert RunCmd(sh, Group(list), entered) == RunList(sh, list, entered);
    }
  }

  lemma {:induction false} RunAfterEnv(sh: Shell, env: seq<(string, string)>, a: AndOr, w: World)
    ensures RunList(sh, Assigns(env) + [a], w) == RunAndOr(sh, a, WithEnv(w, env))
  {
    AssignsRun(sh, env, w);
    RunListAppend(sh, Assigns(env), a, w);
  }

  lemma {:induction false} RunConcat(sh: Shell, a: seq<AndOr>, b: seq<AndOr>, w: World)
    ensures RunList(sh, a + b, w) == RunList(sh, b, RunList(sh, a, w))
    decreases |b|
  {
    hide RunAndOr;
    if b == [] {
      assert a + b == a;
    } else {
      var n := |b| - 1;
      assert a + b == (a + b[..n]) + [b[n]] && b == b[..n] + [b[n]];
      RunListAppend(sh, a + b[..n], b[n], w);
      RunConcat(sh, a, b[..n], w);
      RunListAppend(sh, b[..n], b[n], RunList(sh, a, w));
    }
  }

  predicate ShowNothing(pieces: seq<Piece>) { forall i :: 0 <= i < |pieces| ==> Shows(pieces[i]) == "" }

  lemma {:induction false} EnvShows(env: seq<(string, string)>)
    ensures ShowNothing(EnvPieces(env))
    decreases |env|
  {
    hide Shows;
    if env != [] {
      var n := |env| - 1;
      EnvShows(env[..n]);
      ShowMore(EnvPieces(env[..n]), Semi(false));
      ShowMore(EnvPieces(env[..n]) + (if n == 0 then [] else [Semi(false)]), Export(env[n].0, env[n].1));
      assert EnvPieces(env[..n]) + [] == EnvPieces(env[..n]);
    }
  }

  lemma {:induction false} ShowMore(pieces: seq<Piece>, piece: Piece)
    requires ShowNothing(pieces) && (piece.Semi? || piece.Export?)
    ensures ShowNothing(pieces + [piece])
  {
  }

  lemma {:induction false} ShowNothingCloses(h: string -> bool, pieces: seq<Piece>)
    requires !h("") && ShowNothing(pieces)
    ensures LinesEnded(h, pieces)
  {
  }

  lemma {:induction false} EnvCloses(h: string -> bool, d: Dialect, env: seq<(string, string)>)
    requires !h("")
    ensures LinesEnded(h, EnvPieces(env)) && LinesEnded(h, Lead(d, env))
    ensures Lead(d, env) != [] ==> Shows(Lead(d, env)[|Lead(d, env)| - 1]) == ""
  {
    hide EnvPieces, LinesEnded, ShowNothing, Texts;
    EnvShows(env);
    ShowNothingCloses(h, EnvPieces(env));
    if env == [] {
      assert Lead(d, env) == [];
      NothingNeeded(h);
    } else {
      ShowMore(EnvPieces(env), SeparatorAfter(Texts(d, EnvPieces(env))));
      ShowNothingCloses(h, Lead(d, env));
    }
  }

  lemma {:induction false} TextsHave(d: Dialect, pieces: seq<Piece>)
    requires pieces != [] && '\n' in Text(d, pieces[|pieces| - 1])
    ensures '\n' in Texts(d, pieces)
  {
    hide Text;
    var last := Text(d, pieces[|pieces| - 1]);
    var k :| 0 <= k < |last| && last[k] == '\n';
    var before := Texts(d, pieces[..|pieces| - 1]);
    assert (before + last)[|before| + k] == '\n';
  }

  /** Behind its directory a payload is closed by a line end only if it holds one itself. */
  ghost predicate GroupFits(h: string -> bool, d: Dialect, command: seq<Piece>) {
    command != [] && h(Shows(command[|command| - 1])) ==> '\n' in Texts(d, command)
  }

  /** The separators leave a payload as it was, and the closing of the group asks for what the guard of its line end asks. */
  lemma {:induction false} PartCloses(h: string -> bool, d: Dialect, env: seq<(string, string)>, cwd: Option<string>, command: seq<Piece>)
    requires !h("")
    ensures var part := if cwd.Some? then CwdPieces(d, cwd.value, command) else command;
            LinesEnded(h, WithPart(d, EnvPieces(env), part)) <==>
            LinesEnded(h, command) && (cwd.Some? ==> GroupFits(h, d, command))
  {
    hide LinesEnded, EnvPieces, Lead, Texts, Text, Shows, GroupFits;
    EnvCloses(h, d, env);
    NothingNeeded(h);
    var part := if cwd.Some? then CwdPieces(d, cwd.value, command) else command;
    if cwd.Some? { GroupKeeps(h, d, cwd.value, command); }
    if part != [] {
      PartAfterLead(d, env, part);
      if Lead(d, env) == [] {
        assert Lead(d, env) + part == part;
      } else {
        LinesMore(h, Lead(d, env), part);
      }
    }
  }

  lemma {:induction false} NothingNeeded(h: string -> bool)
    ensures LinesEnded(h, [])
  {
  }

  lemma {:induction false} GroupKeeps(h: string -> bool, d: Dialect, dir: string, command: seq<Piece>)
    requires !h("")
    ensures LinesEnded(h, CwdPieces(d, dir, command)) <==> LinesEnded(h, command) && GroupFits(h, d, command)
  {
    hide Texts, LinesEnded;
    NothingNeeded(h);
    var close := Close('\n' in Texts(d, command));
    HeadCloses(h, dir, close);
    if command != [] {
      var head := [Cd(dir), AndIf, Open];
      LinesMore(h, head + command, [close]);
      LinesMore(h, head, command);
      assert (head + command)[|head + command| - 1] == command[|command| - 1];
    }
  }

  lemma {:induction false} HeadCloses(h: string -> bool, dir: string, close: Piece)
    requires !h("")
    ensures LinesEnded(h, [Cd(dir), AndIf, Open]) && LinesEnded(h, [close]) && LinesEnded(h, [Cd(dir)])
  {
  }

  /** The last command needs no line end, or the joined text, whatever command of it, holds one. */
  predicate DirectoryFits(h: string -> bool, d: Dialect, tokens: seq<Token>)
    requires Joined(d, tokens).Some? && PlacedSoFar(Kept(tokens))
  {
    Kept(tokens) != [] && h(LastShown(Kept(tokens))) ==> '\n' in Texts(d, Joined(d, tokens).value)
  }

  lemma {:induction false} LastIsShown(h: string -> bool, d: Dialect, tokens: seq<Token>)
    requires !h("") && AreTokens(tokens) && Joined(d, tokens).Some?
    ensures PlacedSoFar(Kept(tokens))
    ensures DirectoryFits(h, d, tokens) <==> GroupFits(h, d, Joined(d, tokens).value)
  {
    hide LinesEnded, LinesFit, Kept, Steps, PlacedSoFar, LastShown, Shows, Texts, AreTokens, Flat, Written, Statements;
    StepsClose(h, d, tokens);
    JoinReads(d, tokens);
  }

  /** The pieces of a script read as they were put together exactly if the joined commands do and, with a directory, a last command
      that needs a line end stands in a text that holds one; and running it then does what it should: no payload command
      unless the directory was entered, and then exactly what the payload alone would do there. */
  lemma {:induction false} PiecesRun(h: string -> bool, d: Dialect, tokens: seq<Token>, cwd: Option<string>, env: seq<(string, string)>, sh: Shell, w: World)
    requires !h("") && AreTokens(tokens) && Placed(Kept(tokens))
    ensures PlacedSoFar(Kept(tokens)) && Joined(d, tokens).Some? && Assembled(d, tokens, cwd, env).Some?
    ensures Read(h, Assembled(d, tokens, cwd, env).value).Some? <==>
      LinesFit(h, Kept(tokens)) && (cwd.Some? ==> DirectoryFits(h, d, tokens))
    ensures LinesFit(h, Kept(tokens)) && (cwd.Some? ==> DirectoryFits(h, d, tokens)) ==>
      RunList(sh, Read(h, Assembled(d, tokens, cwd, env).value).value, w)
      == Intended(sh, Statements(Kept(tokens)), cwd, env, w)
  {
    hide LinesFit, Kept, Placed, PlacedSoFar, Statements, RunList, Intended, AreTokens, Assembled, DirectoryFits, Parse;
    ScriptReads(h, d, tokens, cwd, env);
    GrammarRuns(d, tokens, cwd, env, sh, w);
  }

  lemma {:induction false} ScriptReads(h: string -> bool, d: Dialect, tokens: seq<Token>, cwd: Option<string>, env: seq<(string, string)>)
    requires !h("") && AreTokens(tokens) && Placed(Kept(tokens))
    ensures PlacedSoFar(Kept(tokens)) && Joined(d, tokens).Some? && Assembled(d, tokens, cwd, env).Some?
    ensures Read(h, Assembled(d, tokens, cwd, env).value).Some? <==>
      LinesFit(h, Kept(tokens)) && (cwd.Some? ==> DirectoryFits(h, d, tokens))
  {
    hide LinesEnded, LinesFit, Kept, Steps, Placed, PlacedSoFar, AreTokens, Flat, EnvPieces, WithPart, CwdPieces, Parse,
      DirectoryFits, GroupFits;
    JoinRefusesMisplaced(d, tokens);
    StepsClose(h, d, tokens);
    JoinReads(d, tokens);
    PartCloses(h, d, env, cwd, Joined(d, tokens).value);
    LastIsShown(h, d, tokens);
    ScriptParses(d, tokens, cwd, env);
  }

  lemma {:induction false} ScriptParses(d: Dialect, tokens: seq<Token>, cwd: Option<string>, env: seq<(string, string)>)
    requires AreTokens(tokens) && Placed(Kept(tokens))
    ensures Assembled(d, tokens, cwd, env).Some? && Parse(Assembled(d, tokens, cwd, env).value).Some?
  {
    hide Parse, ParseFlat, RunList, Statements, Kept, Placed, AreTokens, Assembled, Intended;
    GrammarRuns(d, tokens, cwd, env, Shell((at, dir) => None, (stages, w: World) => w), World("", map[], 0, []));
  }

  lemma {:induction false} GrammarRuns(d: Dialect, tokens: seq<Token>, cwd: Option<string>, env: seq<(string, string)>, sh: Shell, w: World)
    requires AreTokens(tokens) && Placed(Kept(tokens))
    ensures PlacedSoFar(Kept(tokens)) && Assembled(d, tokens, cwd, env).Some?
    ensures Parse(Assembled(d, tokens, cwd, env).value).Some?
    ensures RunList(sh, Parse(Assembled(d, tokens, cwd, env).value).value, w)
            == Intended(sh, Statements(Kept(tokens)), cwd, env, w)
  {
    hide Parse, ParseFlat, RunList, RunAndOr, WithEnv, Statements, Kept, Placed, PlacedSoFar, EnvPieces, Assigns, Flat, Plain, RunStatements,
      Joined, AreTokens, WithPart;
    JoinRefusesMisplaced(d, tokens);
    JoinReads(d, tokens);
    var command := Joined(d, tokens).value;
    if command == [] {
      EmptyPayload(d, cwd, env, sh, Statements(Kept(tokens)), w);
    } else {
      var list := ParseFlat(EMPTY, command).value.list;
      if cwd.Some? {
        PayloadBehindCd(d, env, cwd.value, command, list);
        RunAfterEnv(sh, env, AndOr(ChangeDir(cwd.value), [Link(true, Group(list))]), w);
        RunGuarded(sh, cwd.value, list, Statements(Kept(tokens)), env, w);
      } else {
        PayloadAfterEnv(d, env, command, list);
        RunConcat(sh, Assigns(env), list, w);
        AssignsRun(sh, env, w);
        RunListIs(sh, list, WithEnv(w, env));
      }
    }
  }

  lemma {:induction false} EmptyPayload(d: Dialect, cwd: Option<string>, env: seq<(string, string)>, sh: Shell, none: seq<Statement>, w: World)
    requires none == []
    ensures var part := if cwd.Some? then CwdPieces(d, cwd.value, []) else [];
            Parse(WithPart(d, EnvPieces(env), part)).Some?
            && RunList(sh, Parse(WithPart(d, EnvPieces(env), part)).value, w) == Intended(sh, none, cwd, env, w)
  {
    hide RunAndOr;
    if cwd.Some? {
      CdAlone(d, env, cwd.value);
      RunAfterEnv(sh, env, AndOr(ChangeDir(cwd.value), []), w);
      CdRuns(sh, cwd.value, env, w);
    } else {
      EnvReads(env);
      AssignsRun(sh, env, w);
      if env == [] {
        assert Assigns(env) == [];
      } else {
        ParsedFlat(EnvPieces(env), Frame(Assigns(env), Complete));
      }
    }
  }

  lemma {:induction false} CdRuns(sh: Shell, dir: string, env: seq<(string, string)>, w: World)
    ensures RunAndOr(sh, AndOr(ChangeDir(dir), []), WithEnv(w, env)) == Intended(sh, [], Some(dir), env, w)
  {
    hide WithEnv;
    var a := AndOr(ChangeDir(dir), []);
    var entered := RunCmd(sh, a.first, WithEnv(w, env));
    assert RunLinks(sh, a.rest, entered) == entered;
  }

  lemma {:induction false} KeptMore(tokens: seq<Token>, t: Token)
    requires t.Command? ==> t.text != ""
    ensures Kept(tokens + [t]) == Kept(tokens) + [t]
  {
    assert (tokens + [t])[..|tokens|] == tokens;
  }

  lemma {:induction false} CommandsArePlaced(kept: seq<Token>)
    requires forall i :: 0 <= i < |kept| ==> kept[i].Command?
    ensures Placed(kept) && PlacedSoFar(kept) && (kept != [] ==> LastShown(kept) == kept[|kept| - 1].text)
  {
  }

  lemma {:induction false} OneJoined(d: Dialect, t: Token)
    requires t.Command? && t.text != ""
    ensures Joined(d, [t]) == Some([Word(t.text)])
  {
    hide Step;
    assert [t][..0] == [];
    assert Steps(d, [t]) == Step(d, START, t);
    FirstStep(d, t);
  }

  lemma {:induction false} FirstStep(d: Dialect, t: Token)
    requires t.Command? && t.text != ""
    ensures Step(d, START, t) == Some(Joining([Word(t.text)], Semi(false), None, true, false))
  {
    assert [] + [] + [Word(t.text)] == [Word(t.text)];
  }

  lemma {:induction false} OneText(d: Dialect, text: string)
    ensures Texts(d, [Word(text)]) == text
  {
    assert [Word(text)][..0] == [] && "" + text == text;
  }

  lemma {:induction false} NoteKept(d: Dialect, text: string, operand: string)
    requires text != "" && operand != ""
    ensures var note := [Command(text, operand)];
            AreTokens(note) && Kept(note) == note && Placed(note) && PlacedSoFar(note) && LastShown(note) == text
            && Joined(d, note) == Some([Word(text)]) && Texts(d, [Word(text)]) == text
  {
    hide Placed, PlacedSoFar, LastShown, Joined, Texts;
    var t := Command(text, operand);
    assert [] + [t] == [t];
    KeptMore([], t);
    CommandsArePlaced([t]);
    OneJoined(d, t);
    OneText(d, text);
  }

  lemma {:induction false} TwoKept(d: Dialect, text: string, operand: string, next: string)
    requires text != "" && operand != "" && next != ""
    ensures var two := [Command(text, operand), Command(next, next)];
            AreTokens(two) && Kept(two) == two && Placed(two) && Shown(two, 0) == text && Joined(d, two).Some?
  {
    hide Placed, PlacedSoFar, LastShown, Joined, Texts, Kept;
    var two := [Command(text, operand), Command(next, next)];
    NoteKept(d, text, operand);
    assert [Command(text, operand)] + [Command(next, next)] == two;
    KeptMore([Command(text, operand)], Command(next, next));
    CommandsArePlaced(two);
    JoinRefusesMisplaced(d, two);
  }

  /** A text that needs a line end and holds none is fine alone, but never behind a directory or before another command. */
  lemma {:induction false} UnendedSwallows(h: string -> bool, d: Dialect, text: string, operand: string, dir: string, next: string)
    requires !h("") && h(text) && '\n' !in text && operand != "" && next != ""
    ensures var note := [Command(text, operand)]; var two := [Command(text, operand), Command(next, next)];
            Joined(d, note).Some? && Assembled(d, note, Some(dir), []).Some? && Joined(d, two).Some?
            && Read(h, Joined(d, note).value).Some? && Read(h, Assembled(d, note, Some(dir), []).value).None?
            && Read(h, Joined(d, two).value).None?
  {
    hide Kept, Placed, PlacedSoFar, LastShown, Joined, Assembled, Read, Texts, AreTokens, Shown;
    var note, two := [Command(text, operand)], [Command(text, operand), Command(next, next)];
    NoteKept(d, text, operand);
    TwoKept(d, text, operand, next);
    JoinedReads(h, d, note);
    JoinedReads(h, d, two);
    ScriptReads(h, d, note, Some(dir), []);
    assert two[0].Command? && !FitsAt(h, two, 0);
    assert !LinesFit(h, two);
  }

  /** So a raw text that ends in a comment: in `cd -- /srv&&{ ls # note; }` it takes in the end of the group, and in
      `ls # note;pwd` the second command. */
  lemma {:induction false} CommentSwallows(h: string -> bool, d: Dialect)
    requires h("ls # note") && !h("")
    ensures var note := [Command("ls # note", "x")]; var two := [Command("ls # note", "x"), Command("pwd", "pwd")];
            Joined(d, note).Some? && Assembled(d, note, Some("/srv"), []).Some? && Joined(d, two).Some?
            && Read(h, Joined(d, note).value).Some? && Read(h, Assembled(d, note, Some("/srv"), []).value).None?
            && Read(h, Joined(d, two).value).None?
  {
    UnendedSwallows(h, d, "ls # note", "x", "/srv", "pwd");
  }
}
