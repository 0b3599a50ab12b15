/** What a target's shell does with the typed lines: it reads them character by character, runs each command over its files
    and variables, and prints the frames around what the caller's command wrote.

    The part of sh is that of POSIX.1-2017: quoting (section 2.2), redirection (2.7), the order in which a simple command is
    expanded and redirected (2.9.1), and the utilities that the lines name. Whatever else a line might hold is not
    described: reading it gives `None`. */
module TypedShell {
  import Base64
  import LoginShell
  import opened Framing
  import opened Options
  import opened Printers
  import opened Search
  import opened TypedLines

  // -------------------------------------------------------------------------------------- the state

  /** A terminal's settings: whether output is processed, and all the others. */
  datatype Tty = Tty(opost: bool, others: string)

  /** One write of a command, to stdout or to stderr. */
  datatype Write = Write(toErr: bool, text: string)

  /** What a command writes, in order, and its status. */
  datatype Behaviour = Behaviour(writes: seq<Write>, status: nat)

  /** What is given: the directory that `mktemp` makes, what evaluating a command with an input does, how the shell complains
      of a file that it cannot open, and what it makes of output with a NUL in it (section 2.6.3 leaves that open). */
  datatype Host = Host(temp: string, behave: (string, string) -> Behaviour, complaint: string -> string, nuls: string -> string)

  /** The shell: its variables, the files, the terminal and all that was printed on it, and `$?`. */
  datatype Sh = Sh(vars: map<string, string>, files: map<string, string>, tty: Tty, screen: string, status: nat)

  // -------------------------------------------------------------------------------------- reading words

  /** A text that expands, and what commands in `$(...)` printed on the terminal meanwhile. */
  datatype Got = Got(text: string, noise: string)

  function More(got: Got, text: string): Got { got.(text := got.text + text) }

  function Join(got: Got, more: Got): Got { Got(got.text + more.text, got.noise + more.noise) }

  /** What expansions need to know: the variables, `$?`, and what a command in `$(...)` gives. */
  datatype Env = Env(vars: map<string, string>, status: nat, subst: string -> Option<Got>)

  function Plus(n: nat, more: Option<nat>): Option<nat> { if more.None? then None else Some(n + more.value) }

  /** Where the command in `$(...)` ends: at the first closing parenthesis outside quotes. */
  function ScriptLength(s: string, quoted: bool): (n: Option<nat>)
    ensures n.Some? ==> n.value < |s|
  {
    if s == "" || s[0] in "(\\`'" then None
    else if s[0] == ')' && !quoted then Some(0)
    else Plus(1, ScriptLength(s[1..], if s[0] == '"' then !quoted else quoted))
  }

  /** The expansion at a dollar sign, and its length. A parameter that must be set and is not ends the shell. */
  function Expansion(s: string, e: Env): (r: Option<(Got, nat)>)
    requires s != ""
    ensures r.Some? ==> 0 < r.value.1 <= |s|
  {
    var t := s[1..];
    if t == "" then None
    else if t[0] == '?' then Some((Got(Decimal(e.status), ""), 2))
    else if t[0] == '{' then
      var n := NameLength(t[1..]);
      if n + 4 <= |t| && t[n + 1..n + 4] == ":?}" && t[1..n + 1] in e.vars && e.vars[t[1..n + 1]] != "" then
        Some((Got(e.vars[t[1..n + 1]], ""), n + 5))
      else None
    else if t[0] == '(' then
      var n := ScriptLength(t[1..], false);
      if n.None? then None
      else
        var got := e.subst(t[1..][..n.value]);
        if got.None? then None else Some((got.value, n.value + 3))
    else
      var n := NameLength(t);
      if n == 0 || IsDigit(t[0]) then None
      else Some((Got(if t[..n] in e.vars then e.vars[t[..n]] else "", ""), n + 1))
  }

  datatype Mode = Bare | Single | Double

  /** One word up to where it ends, and what follows it. An expansion outside quotes is taken only where no field splitting
      applies, in an assignment. */
  function ReadWord(s: string, e: Env, assigns: bool, mode: Mode, got: Got): (r: Option<(Got, string)>)
    ensures r.Some? ==> |r.value.1| <= |s|
    decreases |s|
  {
    if s == "" then (if mode == Bare then Some((got, "")) else None)
    else
      var c, rest := s[0], s[1..];
      match mode
      case Single => if c == '\'' then ReadWord(rest, e, assigns, Bare, got) else ReadWord(rest, e, assigns, Single, More(got, [c]))
      case _ =>
        if c == '"' then ReadWord(rest, e, assigns, if mode == Bare then Double else Bare, got)
        else if c == '$' then
          var x := Expansion(s, e);
          if x.None? || (mode == Bare && !assigns) then None
          else ReadWord(s[x.value.1..], e, assigns, mode, Join(got, x.value.0))
        else if mode == Double then
          if c == '`' || c == '\\' then None else ReadWord(rest, e, assigns, Double, More(got, [c]))
        else if c in " ;<>" then Some((got, s))
        else if c == '\'' then ReadWord(rest, e, assigns, Single, got)
        else if LoginShell.IsBareData(LoginShell.Sh, c) then ReadWord(rest, e, assigns, Bare, More(got, [c]))
        else None
  }

  // ------------------------------------------------------------------------------------ reading commands

  datatype Redirect = From(path: string) | Into(path: string) | Onto(path: string) | ErrInto(path: string) | ErrDup

  /** A command, expanded: an assignment by itself, or words and redirections. */
  datatype Command = Assign(name: string, value: string, noise: string)
                   | Simple(words: seq<string>, redirects: seq<Redirect>, noise: string)

  function WithWord(c: Command, got: Got): Command
    requires c.Simple?
  {
    c.(words := c.words + [got.text], noise := c.noise + got.noise)
  }

  function WithRedirect(c: Command, redirect: Redirect, noise: string): Command
    requires c.Simple?
  {
    c.(redirects := c.redirects + [redirect], noise := c.noise + noise)
  }

  predicate HasPrefix(s: string, with: string) { |with| <= |s| && s[..|with|] == with }

  function Skip(s: string): (r: string)
    ensures |r| <= |s| && (r != "" ==> r[0] != ' ')
  {
    if s != "" && s[0] == ' ' then Skip(s[1..]) else s
  }

  /** The file name behind a redirection operator. */
  function ReadPath(s: string, e: Env): (r: Option<(Got, string)>)
    ensures r.Some? ==> |r.value.1| <= |s|
  {
    ReadWord(Skip(s), e, false, Bare, Got("", ""))
  }

  /** A word ends at a blank, a semicolon or the end of the line: no operator touches it. */
  predicate Ends(rest: string) { rest == "" || rest[0] == ' ' || rest[0] == ';' }

  /** The redirection operator here, of those that name a file, and its length. */
  function RedirectAt(s: string): (r: Option<(Redirect, nat)>)
    ensures r.Some? ==> 0 < r.value.1 <= |s| && !r.value.0.ErrDup?
  {
    if HasPrefix(s, "2>") then (if HasPrefix(s, "2>>") || HasPrefix(s, "2>&") then None else Some((ErrInto(""), 2)))
    else if HasPrefix(s, ">>") then Some((Onto(""), 2))
    else if HasPrefix(s, ">") then Some((Into(""), 1))
    else if HasPrefix(s, "<") then Some((From(""), 1))
    else None
  }

  /** The words and redirections of one command, up to the semicolon or the end. */
  function ReadArgs(s: string, e: Env, c: Command): (r: Option<(Command, string)>)
    requires c.Simple?
    ensures r.Some? ==> r.value.0.Simple? && |r.value.1| <= |s| && (r.value.1 != "" ==> r.value.1[0] == ';')
    decreases |s|
  {
    if s == "" || s[0] == ';' then Some((c, s))
    else if s[0] == ' ' then ReadArgs(s[1..], e, c)
    else if HasPrefix(s, "2>&1") then (if Ends(s[4..]) then ReadArgs(s[4..], e, WithRedirect(c, ErrDup, "")) else None)
    else
      var op := RedirectAt(s);
      if op.Some? then
        var path := ReadPath(s[op.value.1..], e);
        if path.None? || !Ends(path.value.1) then None
        else ReadArgs(path.value.1, e, WithRedirect(c, op.value.0.(path := path.value.0.text), path.value.0.noise))
      else
        var word := ReadWord(s, e, false, Bare, Got("", ""));
        if word.None? || |word.value.1| == |s| || !Ends(word.value.1) then None
        else ReadArgs(word.value.1, e, WithWord(c, word.value.0))
  }

  const NOTHING := Simple([], [], "")

  /** The next command of a line. */
  function ReadCommand(line: string, e: Env): (r: Option<(Command, string)>)
    ensures r.Some? ==> |r.value.1| <= |line| && (r.value.1 != "" ==> r.value.1[0] == ';')
  {
    var s := Skip(line);
    var n := NameLength(s);
    if 0 < n < |s| && s[n] == '=' && !IsDigit(s[0]) then
      var value := ReadWord(s[n + 1..], e, true, Bare, Got("", ""));
      if value.None? || (value.value.1 != "" && value.value.1[0] != ';') then None
      else Some((Assign(s[..n], value.value.0.text, value.value.0.noise), value.value.1))
    else ReadArgs(s, e, NOTHING)
  }

  // -------------------------------------------------------------------------------- running a command

  /** Where output goes: the terminal, a file, nowhere, or into a command substitution. */
  datatype Sink = Screen | ToFile(path: string) | Nowhere | Caught

  datatype Io = Io(stdin: string, out: Sink, err: Sink, files: map<string, string>, ready: bool, complaint: string)

  const NULL := "/dev/null"

  function Content(files: map<string, string>, path: string): string { if path in files then files[path] else "" }

  function OpenOut(path: string, io: Io, append: bool, err: bool): Io {
    var sink := if path == NULL then Nowhere else ToFile(path);
    var files := if path == NULL then io.files else io.files[path := if append then Content(io.files, path) else ""];
    if err then io.(err := sink, files := files) else io.(out := sink, files := files)
  }

  /** Redirections are made in order; at a file that cannot be read the command is given up, with a complaint on the stderr of
      that moment. */
  function Redirected(host: Host, redirects: seq<Redirect>, io: Io): Io
    decreases |redirects|
  {
    if redirects == [] || !io.ready then io
    else
      var next :=
        match redirects[0]
        case From(path) =>
          if path == NULL then io.(stdin := "")
          else if path in io.files then io.(stdin := io.files[path])
          else io.(ready := false, complaint := host.complaint(path))
        case Into(path) => OpenOut(path, io, false, false)
        case Onto(path) => OpenOut(path, io, true, false)
        case ErrInto(path) => OpenOut(path, io, false, true)
        case ErrDup => io.(err := io.out);
      Redirected(host, redirects[1..], next)
  }

  /** The terminal shows a line end as carriage return and line end while it processes output. */
  function Rendered(tty: Tty, text: string): string {
    if text == "" then ""
    else (if tty.opost && text[0] == '\n' then "\r\n" else [text[0]]) + Rendered(tty, text[1..])
  }

  /** What is behind all sinks after some writes: the files, the screen, and what was caught. */
  datatype Shown = Shown(files: map<string, string>, screen: string, caught: string)

  function Deliver(tty: Tty, sink: Sink, text: string, shown: Shown): Shown {
    match sink
    case Screen => shown.(screen := shown.screen + Rendered(tty, text))
    case ToFile(path) => shown.(files := shown.files[path := Content(shown.files, path) + text])
    case Nowhere => shown
    case Caught => shown.(caught := shown.caught + text)
  }

  function DeliverAll(tty: Tty, io: Io, writes: seq<Write>, shown: Shown): Shown {
    if writes == [] then shown
    else DeliverAll(tty, io, writes[1..], Deliver(tty, if writes[0].toErr then io.err else io.out, writes[0].text, shown))
  }

  /** The settings as `stty -g` prints them, and as `stty` takes them back. */
  function Saved(tty: Tty): string { (if tty.opost then "1" else "0") + tty.others }

  function Load(settings: string): Option<Tty> {
    if settings != "" && (settings[0] == '0' || settings[0] == '1') then Some(Tty(settings[0] == '1', settings[1..])) else None
  }

  predicate Under(dir: string, path: string) { HasPrefix(path, dir + "/") }

  function Removed(files: map<string, string>, dir: string): map<string, string> {
    map path | path in files && path != dir && !Under(dir, path) :: files[path]
  }

  /** What a utility writes, and what it does to the shell it runs in. */
  datatype Ran = Ran(writes: seq<Write>, sh: Sh)

  function Printing(sh: Sh, text: string): Ran { Ran([Write(false, text)], sh.(status := 0)) }

  function Failing(sh: Sh, text: string): Ran { Ran([Write(true, text)], sh.(status := 1)) }

  function Utility(host: Host, sh: Sh, words: seq<string>, stdin: string): Option<Ran> {
    if words == ["mktemp", "-d"] then Some(Printing(sh, host.temp + "\n"))
    else if words == ["stty", "-g"] then Some(Printing(sh, Saved(sh.tty) + "\n"))
    else if words == ["stty", "-opost"] then Some(Ran([], sh.(tty := sh.tty.(opost := false), status := 0)))
    else if |words| == 2 && words[0] == "stty" then
      var tty := Load(words[1]);
      if tty.None? then None else Some(Ran([], sh.(tty := tty.value, status := 0)))
    else if |words| > 1 && words[0] == "printf" then
      var text := Printf(words[1], words[2..]);
      if text.None? then None else Some(Printing(sh, text.value))
    else if words == ["base64", "-d"] then
      var data := Base64.Decode(stdin);
      Some(if data.None? then Failing(sh, "base64: invalid input\n") else Printing(sh, data.value))
    else if |words| == 2 && words[0] == "cat" then
      Some(if words[1] in sh.files then Printing(sh, sh.files[words[1]]) else Failing(sh, "cat: no such file\n"))
    else if |words| == 3 && words[0] == "rm" && words[1] == "-rf" then
      Some(Ran([], sh.(files := Removed(sh.files, words[2]), status := 0)))
    else if |words| > 1 && words[0] == "unset" then
      Some(Ran([], sh.(vars := map name | name in sh.vars && name !in words[1..] :: sh.vars[name], status := 0)))
    else if |words| == 2 && words[0] == "eval" then
      var b := host.behave(words[1], stdin);
      Some(Ran(b.writes, sh.(status := b.status)))
    else None
  }

  /** One simple command, its words expanded: open its files, then run it. `out` is where its stdout goes by default. */
  function Execute(host: Host, sh: Sh, words: seq<string>, redirects: seq<Redirect>, out: Sink): Option<(Sh, string)> {
    var io := Redirected(host, redirects, Io("", out, Screen, sh.files, true, ""));
    var shown := Shown(io.files, sh.screen, "");
    if !io.ready then
      var after := Deliver(sh.tty, io.err, io.complaint, shown);
      Some((sh.(files := after.files, screen := after.screen, status := 1), after.caught))
    else
      var ran := Utility(host, sh.(files := io.files), words, io.stdin);
      if ran.None? then None
      else
        var after := DeliverAll(sh.tty, io, ran.value.writes, shown.(files := ran.value.sh.files));
        Some((ran.value.sh.(files := after.files, screen := after.screen), after.caught))
  }

  /** The output of `$(...)` without its last line ends. */
  function Trimmed(text: string): string {
    if text != "" && text[|text| - 1] == '\n' then Trimmed(text[..|text| - 1]) else text
  }

  function Substituted(host: Host, out: string): string { if '\0' in out then host.nuls(out) else Trimmed(out) }

  /** A command substitution: one simple command, in a copy of the shell. What remains is its output and what it printed on
      the terminal; one that would change more is not described. */
  function Substitute(host: Host, sh: Sh, script: string): Option<Got> {
    var read := ReadCommand(script, Env(sh.vars, sh.status, (t: string) => None));
    if read.None? || read.value.1 != "" || read.value.0.Assign? then None
    else
      var ran := Execute(host, sh.(screen := ""), read.value.0.words, read.value.0.redirects, Caught);
      if ran.None? || ran.value.0.files != sh.files || ran.value.0.tty != sh.tty then None
      else Some(Got(Substituted(host, ran.value.1), ran.value.0.screen))
  }

  function EnvOf(host: Host, sh: Sh): Env { Env(sh.vars, sh.status, (script: string) => Substitute(host, sh, script)) }

  /** One command of a line, read and run. After an assignment `$?` is taken as zero. */
  function Run(host: Host, sh: Sh, c: Command): Option<Sh> {
    var noisy := sh.(screen := sh.screen + c.noise);
    match c
    case Assign(name, value, _) => Some(noisy.(vars := sh.vars[name := value], status := 0))
    case Simple(words, redirects, _) =>
      var ran := Execute(host, noisy, words, redirects, Screen);
      if ran.None? then None else Some(ran.value.0)
  }

  /** One typed line: its commands in turn. */
  function RunLine(host: Host, sh: Sh, line: string): Option<Sh>
    decreases |line|
  {
    if line == "" then Some(sh)
    else
      var read := ReadCommand(line, EnvOf(host, sh));
      if read.None? then None
      else
        var next := Run(host, sh, read.value.0);
        if next.None? then None
        else if read.value.1 == "" then next
        else RunLine(host, next.value, read.value.1[1..])
  }

  function RunLines(host: Host, sh: Sh, lines: seq<string>): Option<Sh>
    decreases |lines|
  {
    if lines == [] then Some(sh)
    else
      var next := RunLine(host, sh, lines[0]);
      if next.None? then None else RunLines(host, next.value, lines[1..])
  }
}
