/** The lines typed into a console to run one command: its bytes travel as base64 inside fixed shell
    syntax, in batches small enough for a terminal's input queue, and no typed line holds a marker. */
module TypedLines {
  import opened Base64
  import opened Framing
  import opened Options
  import opened Search

  const CHUNK: nat := 768
  const MIN_BATCH: nat := 1024
  const ACK_ROOM: nat := 64

  // ------------------------------------------------------------------------------- what is typed

  function Var(token: string): string { "__hc" + token }

  function Tmp(token: string): string { "\"${" + Var(token) + "d:?}\"" }

  function Times(text: string, n: nat): string {
    if n == 0 then "" else text + Times(text, n - 1)
  }

  function Quoted(part: string): string { "\"" + (part + "\"") }

  function Words(parts: seq<string>): string {
    if parts == [] then ""
    else if |parts| == 1 then Quoted(parts[0])
    else Quoted(parts[0]) + (" " + Words(parts[1..]))
  }

  /** A `printf` that prints the parts joined, each typed as a separate quoted word. */
  function Halves(parts: seq<string>): string {
    "printf " + (Times("%s", |parts|) + (" " + Words(parts)))
  }

  /** The text in pieces of at most `CHUNK` characters. */
  function Chunks(text: string): seq<string> {
    if text == "" then []
    else if |text| <= CHUNK then [text]
    else [text[..CHUNK]] + Chunks(text[CHUNK..])
  }

  function AppendLine(chunk: string, token: string, name: string): string {
    "printf %s '" + (chunk + ("' >> " + (Tmp(token) + name)))
  }

  function AppendLines(chunks: seq<string>, token: string, name: string): seq<string> {
    seq(|chunks|, i requires 0 <= i < |chunks| => AppendLine(chunks[i], token, name))
  }

  predicate HasInput(input: Option<seq<Byte>>) { input.Some? && input.value != [] }

  /** Every line before the one that runs the command. */
  function SetupLines(command: seq<Byte>, token: string, input: Option<seq<Byte>>): seq<string> {
    [Var(token) + "d=$(mktemp -d)"]
    + AppendLines(Chunks(Encode(command)), token, "/c")
    + (if HasInput(input) then
         AppendLines(Chunks(Encode(input.value)), token, "/i")
         + ["base64 -d < " + (Tmp(token) + ("/i > " + (Tmp(token) + "/f")))]
       else [])
  }

  function Semicolons(commands: seq<string>): string {
    if commands == [] then ""
    else if |commands| == 1 then commands[0]
    else commands[0] + ("; " + Semicolons(commands[1..]))
  }

  function EvalText(token: string, input: Option<seq<Byte>>, merge: bool): string {
    "eval \"$(base64 -d < " + (Tmp(token) + ("/c)\" < "
    + ((if HasInput(input) then Tmp(token) + "/f" else "/dev/null")
    + (if merge then " 2>&1" else " 2>" + (Tmp(token) + "/e")))))
  }

  function MainCommands(token: string, input: Option<seq<Byte>>, merge: bool): seq<string> {
    [ Var(token) + "s=$(stty -g 2>/dev/null)",
      "stty -opost 2>/dev/null",
      Halves(["__ST", token + "__"]),
      EvalText(token, input, merge),
      Var(token) + "r=$?",
      Halves(["__OUT", token + "__"]),
      "cat " + (Tmp(token) + "/e 2>/dev/null"),
      "rm -rf " + Tmp(token),
      "stty \"$" + (Var(token) + "s\" 2>/dev/null"),
      Halves(["__EN", token + "_", "$" + (Var(token) + "r"), "_EN__"]),
      "unset " + (Var(token) + ("d " + (Var(token) + ("r " + (Var(token) + "s"))))) ]
  }

  /** The line that runs the command and prints the three frames. */
  function MainLine(token: string, input: Option<seq<Byte>>, merge: bool): string {
    Semicolons(MainCommands(token, input, merge))
  }

  function AckMarker(token: string, number: nat): string { "__AK" + (token + ("_" + Decimal(number) + "__")) }

  function AckSuffix(token: string, number: nat): string {
    "; " + Halves(["__AK", token + ("_" + Decimal(number) + "__")])
  }

  /** The same batch, its last line also printing the acknowledgement. */
  function WithAck(group: seq<string>, token: string, number: nat): seq<string>
    requires group != []
  {
    group[..|group| - 1] + [group[|group| - 1] + AckSuffix(token, number)]
  }

  /** Every batch but the last is acknowledged, counting from one. */
  function Acknowledged(groups: seq<seq<string>>, token: string): (r: seq<seq<string>>)
    requires forall k :: 0 <= k < |groups| ==> groups[k] != []
    ensures |r| == |groups|
  {
    seq(|groups|, k requires 0 <= k < |groups| =>
      if k + 1 < |groups| then WithAck(groups[k], token, k + 1) else groups[k])
  }

  function Flatten(groups: seq<seq<string>>): seq<string> {
    if groups == [] then [] else Flatten(groups[..|groups| - 1]) + groups[|groups| - 1]
  }

  /** How many bytes typing these lines sends, a newline after each. */
  function TypedBytes(lines: seq<string>): nat {
    if lines == [] then 0 else TypedBytes(lines[..|lines| - 1]) + |lines[|lines| - 1]| + 1
  }

  // ---------------------------------------------------------------------------------- their size

  lemma {:induction false} ChunksBounded(text: string)
    ensures forall i :: 0 <= i < |Chunks(text)| ==> 0 < |Chunks(text)[i]| <= CHUNK
  {
    if |text| > CHUNK { ChunksBounded(text[CHUNK..]); }
  }

  lemma {:induction false} AppendLineLength(chunk: string, token: string, name: string)
    requires IsToken(token) && |chunk| <= CHUNK && |name| == 2
    ensures |AppendLine(chunk, token, name)| <= 814
  {
  }

  lemma {:induction false} HalvesLength2(a: string, b: string)
    ensures |Halves([a, b])| == |a| + |b| + 17
  {
    assert |Times("%s", 1)| == 2;
    assert |Times("%s", 2)| == 4;
    assert [a, b][1..] == [b];
    assert |Words([b])| == |b| + 2;
  }

  lemma {:induction false} HalvesLength4(a: string, b: string, c: string, d: string)
    ensures |Halves([a, b, c, d])| == |a| + |b| + |c| + |d| + 27
  {
    assert |Times("%s", 4)| == 8 by {
      assert |Times("%s", 1)| == 2;
      assert |Times("%s", 2)| == 4;
      assert |Times("%s", 3)| == 6;
    }
    var parts := [a, b, c, d];
    assert parts[1..] == [b, c, d] && parts[1..][1..] == [c, d] && parts[1..][1..][1..] == [d];
    assert |Words([d])| == |d| + 2;
    assert |Words([c, d])| == |c| + |d| + 5;
    assert |Words([b, c, d])| == |b| + |c| + |d| + 8;
  }

  lemma {:induction false} SemicolonsLength(commands: seq<string>, bounds: seq<nat>)
    requires |commands| == |bounds| && forall i :: 0 <= i < |commands| ==> |commands[i]| <= bounds[i]
    ensures |Semicolons(commands)| <= Total(bounds) + 2 * |bounds|
  {
    if |commands| > 1 {
      SemicolonsLength(commands[1..], bounds[1..]);
    }
  }

  function Total(bounds: seq<nat>): nat {
    if bounds == [] then 0 else bounds[0] + Total(bounds[1..])
  }

  lemma {:induction false} MainLineLength(token: string, input: Option<seq<Byte>>, merge: bool)
    requires IsToken(token)
    ensures |MainLine(token, input, merge)| <= 578
  {
    var commands := MainCommands(token, input, merge);
    var bounds := [44, 23, 39, 118, 24, 40, 46, 35, 41, 75, 71];
    CommandLengths(token, input, merge, bounds);
    SemicolonsLength(commands, bounds);
    TotalOf(bounds);
  }

  lemma {:induction false} CommandLengths(token: string, input: Option<seq<Byte>>, merge: bool, bounds: seq<nat>)
    requires IsToken(token) && bounds == [44, 23, 39, 118, 24, 40, 46, 35, 41, 75, 71]
    ensures var commands := MainCommands(token, input, merge);
            |commands| == |bounds| && forall i :: 0 <= i < |commands| ==> |commands[i]| <= bounds[i]
  {
    hide Halves;
    HalvesLength2("__ST", token + "__");
    HalvesLength2("__OUT", token + "__");
    HalvesLength4("__EN", token + "_", "$" + (Var(token) + "r"), "_EN__");
    assert |EvalText(token, input, merge)| <= 118;
  }

  lemma {:induction false} TotalOf(bounds: seq<nat>)
    requires bounds == [44, 23, 39, 118, 24, 40, 46, 35, 41, 75, 71]
    ensures Total(bounds) == 556
  {
    hide Total;
    TotalOfTwo(bounds, 9);
    assert bounds[11..] == [];
    TotalOfNone();
    TotalOfTwo(bounds, 7);
    TotalOfTwo(bounds, 5);
    TotalOfTwo(bounds, 3);
    TotalOfTwo(bounds, 1);
    TotalOfOne(bounds);
  }

  lemma {:induction false} TotalOfNone()
    ensures Total([]) == 0
  {
  }

  lemma {:induction false} TotalOfOne(bounds: seq<nat>)
    requires bounds != []
    ensures Total(bounds) == bounds[0] + Total(bounds[1..])
  {
  }

  lemma {:induction false} TotalOfTwo(bounds: seq<nat>, i: nat)
    requires i + 2 <= |bounds|
    ensures Total(bounds[i..]) == bounds[i] + bounds[i + 1] + Total(bounds[i + 2..])
  {
    assert bounds[i..][1..] == bounds[i + 1..] && bounds[i + 1..][1..] == bounds[i + 2..];
  }

  // ----------------------------------------------------------------- what they hold: never a marker

  /** A marker of this protocol: one of four stems and then a hexadecimal digit. */
  predicate IsStemmed(mk: string) {
    |mk| >= 6 && mk[0] == '_' && mk[1] == '_' &&
    (   (mk[2] == 'S' && mk[3] == 'T' && IsHex(mk[4]))
     || (mk[2] == 'O' && mk[3] == 'U' && mk[4] == 'T' && IsHex(mk[5]))
     || (mk[2] == 'E' && mk[3] == 'N' && IsHex(mk[4]))
     || (mk[2] == 'A' && mk[3] == 'K' && IsHex(mk[4])))
  }

  lemma {:induction false} MarkersAreStemmed(token: string, number: nat)
    requires IsToken(token)
    ensures var m := MarkersOf(token);
            IsStemmed(m.start) && IsStemmed(m.mid) && IsStemmed(m.endPrefix) && IsStemmed(AckMarker(token, number))
  {
    assert IsHex(token[0]);
    assert MarkersOf(token).start[4] == token[0] && MarkersOf(token).mid[5] == token[0];
    assert MarkersOf(token).endPrefix[4] == token[0] && AckMarker(token, number)[4] == token[0];
  }

  /** The marker neither occurs in `s` nor begins in it. */
  ghost predicate Quiet(s: string, mk: string) {
    forall i :: 0 <= i < |s| ==> !Live(s, i, mk)
  }

  lemma {:induction false} QuietJoin(a: string, b: string, mk: string)
    requires Quiet(a, mk) && Quiet(b, mk)
    ensures Quiet(a + b, mk)
  {
    hide Live;
    forall i | 0 <= i < |a + b| ensures !Live(a + b, i, mk) {
      if i < |a| {
        Extend(a, b, i, mk);
      } else {
        DropPrefix(a, b);
        Shift(a + b, |a|, i - |a|, mk);
      }
    }
  }

  ghost predicate NoUnderscore(s: string) { forall i :: 0 <= i < |s| ==> s[i] != '_' }

  lemma {:induction false} QuietPlain(s: string, mk: string)
    requires IsStemmed(mk) && NoUnderscore(s)
    ensures Quiet(s, mk)
  {
  }

  /** One wrong byte is enough. */
  lemma {:induction false} Mismatch(s: string, i: nat, mk: string, k: nat)
    requires i + k < |s| && k < |mk| && s[i + k] != mk[k]
    ensures !Live(s, i, mk)
  {
    if i + |mk| <= |s| { assert s[i..i + |mk|][k] == s[i + k]; } else { assert s[i..][k] == s[i + k]; }
  }

  /** The fixed pieces that hold an underscore. */
  lemma {:induction false} QuietPieces(mk: string)
    requires IsStemmed(mk)
    ensures Quiet("__hc", mk) && Quiet("__\"", mk) && Quiet("_\"", mk) && Quiet("_EN__\"", mk)
    ensures Quiet("__ST\"", mk) && Quiet("__OUT\"", mk) && Quiet("__EN\"", mk) && Quiet("__AK\"", mk)
  {
    hide Live;
    QuietPiece("__hc", mk, 2);
    QuietPiece("__\"", mk, 2);
    QuietPiece("__ST\"", mk, if mk[2] == 'S' then 4 else 2);
    QuietPiece("__OUT\"", mk, if mk[2] == 'O' then 5 else 2);
    QuietPiece("__EN\"", mk, if mk[2] == 'E' then 4 else 2);
    QuietPiece("__AK\"", mk, if mk[2] == 'A' then 4 else 2);
    QuietOne("_\"", mk);
    QuietOne("_E", mk);
    QuietPlain("N", mk);
    QuietJoin("_E", "N", mk);
    assert "_E" + "N" == "_EN";
    QuietJoin("_EN", "__\"", mk);
    assert "_EN" + "__\"" == "_EN__\"";
  }

  lemma {:induction false} QuietOne(s: string, mk: string)
    requires IsStemmed(mk) && |s| == 2 && s[0] == '_' && s[1] != '_'
    ensures Quiet(s, mk)
  {
    Mismatch(s, 0, mk, 1);
    Mismatch(s, 1, mk, 0);
  }

  /** Two underscores, no other, and a byte that breaks every marker that could begin at the first. */
  lemma {:induction false} QuietPiece(s: string, mk: string, k: nat)
    requires IsStemmed(mk) && 2 < |s| && s[0] == '_' && s[1] == '_' && NoUnderscore(s[2..])
    requires k < |s| && k < |mk| && s[k] != mk[k]
    ensures Quiet(s, mk)
  {
    hide Live;
    Mismatch(s, 0, mk, k);
    assert s[2] == s[2..][0] && s[1 + 1] == s[2];
    Mismatch(s, 1, mk, 1);
    forall i | 2 <= i < |s| ensures !Live(s, i, mk) {
      assert s[i] == s[2..][i - 2];
      Mismatch(s, i, mk, 0);
    }
  }

  lemma {:induction false} QuietVar(token: string, mk: string)
    requires IsToken(token) && IsStemmed(mk)
    ensures NoUnderscore(token) && Quiet(token, mk) && Quiet(Var(token), mk) && Quiet(Tmp(token), mk)
  {
    hide Quiet, IsStemmed;
    QuietPieces(mk);
    QuietPlain(token, mk);
    QuietJoin("__hc", token, mk);
    QuietPlain("\"${", mk);
    QuietPlain("d:?}\"", mk);
    QuietJoin("\"${", Var(token), mk);
    QuietJoin("\"${" + Var(token), "d:?}\"", mk);
  }

  lemma {:induction false} QuietChunk(text: string, mk: string)
    requires IsStemmed(mk) && forall i :: 0 <= i < |text| ==> InAlphabet(text[i])
    ensures forall k :: 0 <= k < |Chunks(text)| ==> Quiet(Chunks(text)[k], mk)
  {
    hide Quiet, IsStemmed;
    if text != "" {
      var first := if |text| <= CHUNK then text else text[..CHUNK];
      QuietPlain(first, mk);
      if |text| > CHUNK { QuietChunk(text[CHUNK..], mk); }
    }
  }

  lemma {:induction false} QuietAppendLine(chunk: string, token: string, name: string, mk: string)
    requires IsToken(token) && IsStemmed(mk) && Quiet(chunk, mk) && NoUnderscore(name)
    ensures Quiet(AppendLine(chunk, token, name), mk)
  {
    hide Quiet, IsStemmed, Tmp;
    QuietVar(token, mk);
    QuietPlain(name, mk);
    QuietPlain("printf %s '", mk);
    QuietPlain("' >> ", mk);
    QuietJoin(Tmp(token), name, mk);
    QuietJoin("' >> ", Tmp(token) + name, mk);
    QuietJoin(chunk, "' >> " + (Tmp(token) + name), mk);
    QuietJoin("printf %s '", chunk + ("' >> " + (Tmp(token) + name)), mk);
  }

  lemma {:induction false} QuietWords(parts: seq<string>, mk: string)
    requires IsStemmed(mk) && forall i :: 0 <= i < |parts| ==> Quiet(parts[i] + "\"", mk)
    ensures Quiet(Words(parts), mk)
  {
    hide Quiet, IsStemmed;
    if parts != [] {
      QuietPlain("\"", mk);
      QuietPlain(" ", mk);
      QuietJoin("\"", parts[0] + "\"", mk);
      QuietWords(parts[1..], mk);
      QuietJoin(" ", Words(parts[1..]), mk);
      QuietJoin(Quoted(parts[0]), " " + Words(parts[1..]), mk);
    } else {
      QuietPlain("", mk);
    }
  }

  lemma {:induction false} QuietHalves(parts: seq<string>, mk: string)
    requires IsStemmed(mk) && forall i :: 0 <= i < |parts| ==> Quiet(parts[i] + "\"", mk)
    ensures Quiet(Halves(parts), mk)
  {
    hide Quiet, IsStemmed, Words;
    QuietWords(parts, mk);
    TimesPlain("%s", |parts|);
    QuietPlain(Times("%s", |parts|), mk);
    QuietPlain(" ", mk);
    QuietPlain("printf ", mk);
    QuietJoin(" ", Words(parts), mk);
    QuietJoin(Times("%s", |parts|), " " + Words(parts), mk);
    QuietJoin("printf ", Times("%s", |parts|) + (" " + Words(parts)), mk);
  }

  lemma {:induction false} TimesPlain(text: string, n: nat)
    requires NoUnderscore(text)
    ensures NoUnderscore(Times(text, n))
  {
    if n > 0 { TimesPlain(text, n - 1); }
  }

  lemma {:induction false} QuietSemicolons(commands: seq<string>, mk: string)
    requires IsStemmed(mk) && forall i :: 0 <= i < |commands| ==> Quiet(commands[i], mk)
    ensures Quiet(Semicolons(commands), mk)
  {
    hide Quiet, IsStemmed;
    if commands != [] {
      QuietPlain("; ", mk);
      QuietSemicolons(commands[1..], mk);
      QuietJoin("; ", Semicolons(commands[1..]), mk);
      QuietJoin(commands[0], "; " + Semicolons(commands[1..]), mk);
    } else {
      QuietPlain("", mk);
    }
  }

  lemma {:induction false} QuietEval(token: string, input: Option<seq<Byte>>, merge: bool, mk: string)
    requires IsToken(token) && IsStemmed(mk)
    ensures Quiet(EvalText(token, input, merge), mk)
  {
    hide Quiet, IsStemmed, Tmp, HasInput;
    var tmp := Tmp(token);
    var stdin := if HasInput(input) then tmp + "/f" else "/dev/null";
    var stderr := if merge then " 2>&1" else " 2>" + (tmp + "/e");
    QuietVar(token, mk);
    QuietPlain("/f", mk);
    QuietPlain("/dev/null", mk);
    QuietJoin(tmp, "/f", mk);
    QuietPlain(" 2>&1", mk);
    QuietPlain(" 2>", mk);
    QuietPlain("/e", mk);
    QuietJoin(tmp, "/e", mk);
    QuietJoin(" 2>", tmp + "/e", mk);
    QuietJoin(stdin, stderr, mk);
    QuietPlain("/c)\" < ", mk);
    QuietJoin("/c)\" < ", stdin + stderr, mk);
    QuietJoin(tmp, "/c)\" < " + (stdin + stderr), mk);
    QuietPlain("eval \"$(base64 -d < ", mk);
    QuietJoin("eval \"$(base64 -d < ", tmp + ("/c)\" < " + (stdin + stderr)), mk);
  }

  lemma {:induction false} QuietPrinters(token: string, mk: string)
    requires IsToken(token) && IsStemmed(mk)
    ensures Quiet(Halves(["__ST", token + "__"]), mk) && Quiet(Halves(["__OUT", token + "__"]), mk)
    ensures Quiet(Halves(["__EN", token + "_", "$" + (Var(token) + "r"), "_EN__"]), mk)
  {
    hide Quiet, IsStemmed, Halves, Var;
    QuietVar(token, mk);
    QuietPieces(mk);
    QuietJoin(token, "__\"", mk);
    assert token + "__\"" == token + "__" + "\"";
    QuietJoin(token, "_\"", mk);
    assert token + "_\"" == token + "_" + "\"";
    QuietPlain("r\"", mk);
    QuietPlain("$", mk);
    QuietJoin(Var(token), "r\"", mk);
    QuietJoin("$", Var(token) + "r\"", mk);
    assert "$" + (Var(token) + "r\"") == "$" + (Var(token) + "r") + "\"";
    assert "__ST" + "\"" == "__ST\"" && "__OUT" + "\"" == "__OUT\"" && "__EN" + "\"" == "__EN\"";
    assert "_EN__" + "\"" == "_EN__\"";
    QuietHalves(["__ST", token + "__"], mk);
    QuietHalves(["__OUT", token + "__"], mk);
    QuietHalves(["__EN", token + "_", "$" + (Var(token) + "r"), "_EN__"], mk);
  }

  lemma {:induction false} QuietSimple(token: string, mk: string)
    requires IsToken(token) && IsStemmed(mk)
    ensures Quiet(Var(token) + "s=$(stty -g 2>/dev/null)", mk) && Quiet("stty -opost 2>/dev/null", mk)
    ensures Quiet(Var(token) + "r=$?", mk) && Quiet("cat " + (Tmp(token) + "/e 2>/dev/null"), mk)
    ensures Quiet("rm -rf " + Tmp(token), mk) && Quiet("stty \"$" + (Var(token) + "s\" 2>/dev/null"), mk)
    ensures Quiet("unset " + (Var(token) + ("d " + (Var(token) + ("r " + (Var(token) + "s"))))), mk)
    ensures Quiet(Var(token) + "d=$(mktemp -d)", mk)
  {
    hide Quiet, IsStemmed, Tmp, Var;
    var v, t := Var(token), Tmp(token);
    QuietVar(token, mk);
    QuietPlain("s=$(stty -g 2>/dev/null)", mk);
    QuietJoin(v, "s=$(stty -g 2>/dev/null)", mk);
    QuietPlain("stty -opost 2>/dev/null", mk);
    QuietPlain("r=$?", mk);
    QuietJoin(v, "r=$?", mk);
    QuietPlain("d=$(mktemp -d)", mk);
    QuietJoin(v, "d=$(mktemp -d)", mk);
    QuietPlain("/e 2>/dev/null", mk);
    QuietJoin(t, "/e 2>/dev/null", mk);
    QuietPlain("cat ", mk);
    QuietJoin("cat ", t + "/e 2>/dev/null", mk);
    QuietPlain("rm -rf ", mk);
    QuietJoin("rm -rf ", t, mk);
    QuietPlain("s\" 2>/dev/null", mk);
    QuietJoin(v, "s\" 2>/dev/null", mk);
    QuietPlain("stty \"$", mk);
    QuietJoin("stty \"$", v + "s\" 2>/dev/null", mk);
    QuietPlain("s", mk);
    QuietJoin(v, "s", mk);
    QuietPlain("r ", mk);
    QuietJoin("r ", v + "s", mk);
    QuietJoin(v, "r " + (v + "s"), mk);
    QuietPlain("d ", mk);
    QuietJoin("d ", v + ("r " + (v + "s")), mk);
    QuietJoin(v, "d " + (v + ("r " + (v + "s"))), mk);
    QuietPlain("unset ", mk);
    QuietJoin("unset ", v + ("d " + (v + ("r " + (v + "s")))), mk);
  }

  lemma {:induction false} QuietMain(token: string, input: Option<seq<Byte>>, merge: bool, mk: string)
    requires IsToken(token) && IsStemmed(mk)
    ensures Quiet(MainLine(token, input, merge), mk)
  {
    hide Quiet, IsStemmed, Tmp, Var, Halves, EvalText, Semicolons;
    QuietEval(token, input, merge, mk);
    QuietPrinters(token, mk);
    QuietSimple(token, mk);
    QuietSemicolons(MainCommands(token, input, merge), mk);
  }

  lemma {:induction false} QuietFileLines(data: seq<Byte>, token: string, name: string, mk: string)
    requires IsToken(token) && IsStemmed(mk) && NoUnderscore(name)
    ensures forall k :: 0 <= k < |AppendLines(Chunks(Encode(data)), token, name)| ==>
              Quiet(AppendLines(Chunks(Encode(data)), token, name)[k], mk)
  {
    hide Quiet, IsStemmed, AppendLine, Chunks, Encode, InAlphabet;
    Shape(data);
    QuietChunk(Encode(data), mk);
    var chunks := Chunks(Encode(data));
    forall k | 0 <= k < |chunks| ensures Quiet(AppendLine(chunks[k], token, name), mk) {
      QuietAppendLine(chunks[k], token, name, mk);
    }
  }

  lemma {:induction false} QuietSetup(command: seq<Byte>, token: string, input: Option<seq<Byte>>, mk: string)
    requires IsToken(token) && IsStemmed(mk)
    ensures forall k :: 0 <= k < |SetupLines(command, token, input)| ==>
              Quiet(SetupLines(command, token, input)[k], mk)
  {
    hide Quiet, IsStemmed, Tmp, Var, AppendLines, Chunks, Encode;
    QuietSimple(token, mk);
    QuietFileLines(command, token, "/c", mk);
    if HasInput(input) {
      QuietFileLines(input.value, token, "/i", mk);
      QuietVar(token, mk);
      var t := Tmp(token);
      QuietPlain("/f", mk);
      QuietJoin(t, "/f", mk);
      QuietPlain("/i > ", mk);
      QuietJoin("/i > ", t + "/f", mk);
      QuietJoin(t, "/i > " + (t + "/f"), mk);
      QuietPlain("base64 -d < ", mk);
      QuietJoin("base64 -d < ", t + ("/i > " + (t + "/f")), mk);
    }
  }

  lemma {:induction false} QuietAck(line: string, token: string, number: nat, mk: string)
    requires IsToken(token) && IsStemmed(mk) && Quiet(line, mk)
    ensures Quiet(line + AckSuffix(token, number), mk)
  {
    hide Quiet, Halves, Decimal;
    QuietVar(token, mk);
    QuietPieces(mk);
    QuietNumber(number, mk);
    var n := "_" + Decimal(number);
    QuietJoin(n, "__\"", mk);
    QuietJoin(token, n + "__\"", mk);
    assert token + (n + "__\"") == token + (n + "__") + "\"";
    assert "__AK" + "\"" == "__AK\"";
    QuietHalves(["__AK", token + (n + "__")], mk);
    QuietPlain("; ", mk);
    QuietJoin("; ", Halves(["__AK", token + (n + "__")]), mk);
    QuietJoin(line, AckSuffix(token, number), mk);
  }

  /** An underscore before a number. */
  lemma {:induction false} QuietNumber(number: nat, mk: string)
    requires IsStemmed(mk)
    ensures Quiet("_" + Decimal(number), mk)
  {
    DecimalDigits(number);
    var d := Decimal(number);
    QuietOne("_" + d[..1], mk);
    QuietPlain(d[1..], mk);
    QuietJoin("_" + d[..1], d[1..], mk);
    assert "_" + d[..1] + d[1..] == "_" + d;
  }

  // ------------------------------------------------------------------------------- the compiler

  lemma {:induction false} SetupLinesLength(command: seq<Byte>, token: string, input: Option<seq<Byte>>)
    requires IsToken(token)
    ensures forall k :: 0 <= k < |SetupLines(command, token, input)| ==>
              0 < |SetupLines(command, token, input)[k]| <= 814
    ensures SetupLines(command, token, input) != []
  {
    hide Chunks, Encode;
    ChunksBounded(Encode(command));
    FileLinesLength(Chunks(Encode(command)), token, "/c");
    if HasInput(input) {
      ChunksBounded(Encode(input.value));
      FileLinesLength(Chunks(Encode(input.value)), token, "/i");
    }
  }

  lemma {:induction false} FileLinesLength(chunks: seq<string>, token: string, name: string)
    requires IsToken(token) && |name| == 2 && forall k :: 0 <= k < |chunks| ==> |chunks[k]| <= CHUNK
    ensures forall k :: 0 <= k < |AppendLines(chunks, token, name)| ==>
              0 < |AppendLines(chunks, token, name)[k]| <= 814
  {
    forall k | 0 <= k < |chunks| ensures |AppendLine(chunks[k], token, name)| <= 814 {
      AppendLineLength(chunks[k], token, name);
    }
  }

  lemma {:induction false} AckSuffixLength(token: string, number: nat)
    requires IsToken(token)
    ensures |AckSuffix(token, number)| == 42 + |Decimal(number)|
  {
    hide Halves, Decimal;
    HalvesLength2("__AK", token + ("_" + Decimal(number) + "__"));
  }

  lemma {:induction false} TypedBytesPush(lines: seq<string>, line: string)
    ensures TypedBytes(lines + [line]) == TypedBytes(lines) + |line| + 1
  {
    assert (lines + [line])[..|lines|] == lines;
  }

  /** What is typed: every line and its line end. */
  function Keyed(lines: seq<string>): string {
    if lines == [] then "" else lines[0] + "\n" + Keyed(lines[1..])
  }

  lemma {:induction false} KeyedMore(lines: seq<string>, line: string)
    ensures Keyed(lines + [line]) == Keyed(lines) + (line + "\n")
  {
    if lines == [] {
      assert lines + [line] == [line] && [line][1..] == [];
    } else {
      assert (lines + [line])[1..] == lines[1..] + [line];
      KeyedMore(lines[1..], line);
    }
  }

  /** The bytes counted are those sent. */
  lemma {:induction false} TypedBytesAre(lines: seq<string>)
    ensures TypedBytes(lines) == |Keyed(lines)|
    decreases |lines|
  {
    if lines != [] {
      var n := |lines| - 1;
      assert lines == lines[..n] + [lines[n]];
      TypedBytesAre(lines[..n]);
      KeyedMore(lines[..n], lines[n]);
    }
  }

  lemma {:induction false} FlattenPush(groups: seq<seq<string>>, line: string)
    requires groups != []
    ensures var n := |groups| - 1; Flatten(groups[n := groups[n] + [line]]) == Flatten(groups) + [line]
    ensures Flatten(groups + [[line]]) == Flatten(groups) + [line]
  {
    var n := |groups| - 1;
    assert groups[n := groups[n] + [line]][..n] == groups[..n];
    assert (groups + [[line]])[..|groups|] == groups;
    assert Flatten(groups[..n]) + groups[n] + [line] == Flatten(groups[..n]) + (groups[n] + [line]);
  }

  /** Every group but the last leaves room for its acknowledgement. */
  ghost predicate Roomy(groups: seq<seq<string>>, budget: nat) {
    forall k :: 0 <= k < |groups| - 1 ==> groups[k] != [] && TypedBytes(groups[k]) <= budget
  }

  /** Group `lines` so that each group's typed bytes stay within `budget`: what the batch loop builds. */
  method Batch(lines: seq<string>, main: string, budget: nat) returns (groups: seq<seq<string>>)
    requires lines != [] && |main| + 1 <= budget
    requires forall k :: 0 <= k < |lines| ==> |lines[k]| + 1 <= budget
    ensures groups != [] && Flatten(groups) == lines + [main]
    ensures forall k :: 0 <= k < |groups| ==> groups[k] != [] && TypedBytes(groups[k]) <= budget
  {
    hide Flatten, TypedBytes;
    groups := [[]];
    var size := 0;
    OneGroup([]);
    NoBytes();
    for i := 0 to |lines|
      invariant groups != [] && Flatten(groups) == lines[..i] && Roomy(groups, budget)
      invariant size == TypedBytes(groups[|groups| - 1]) <= budget
      invariant i > 0 ==> groups[|groups| - 1] != []
    {
      var line := lines[i];
      assert lines[..i + 1] == lines[..i] + [line];
      assert [] + [line] == [line];
      if groups[|groups| - 1] != [] && size + |line| + 1 > budget {
        FlattenPush(groups, line);
        TypedBytesPush([], line);
        NoBytes();
        groups := groups + [[line]];
        size := 0;
      } else {
        var n := |groups| - 1;
        FlattenPush(groups, line);
        TypedBytesPush(groups[n], line);
        if groups[n] == [] { NoBytes(); }
        groups := groups[n := groups[n] + [line]];
      }
      size := size + |line| + 1;
    }
    var n := |groups| - 1;
    FlattenPush(groups, main);
    TypedBytesPush(groups[n], main);
    TypedBytesPush([], main);
    NoBytes();
    assert lines[..|lines|] == lines;
    assert [] + [main] == [main];
    if size + |main| + 1 > budget {
      groups := groups + [[main]];
    } else {
      groups := groups[n := groups[n] + [main]];
    }
  }

  lemma {:induction false} NoBytes()
    ensures TypedBytes([]) == 0
  {
  }

  /** Append the acknowledgement to the last line of every batch but the last. */
  method Acknowledge(groups: seq<seq<string>>, token: string) returns (batches: seq<seq<string>>)
    requires groups != [] && forall k :: 0 <= k < |groups| ==> groups[k] != []
    ensures batches == Acknowledged(groups, token)
  {
    batches := groups;
    for i := 0 to |groups| - 1
      invariant |batches| == |groups|
      invariant forall k :: 0 <= k < i ==> batches[k] == WithAck(groups[k], token, k + 1)
      invariant forall k :: i <= k < |groups| ==> batches[k] == groups[k]
    {
      var last := |batches[i]| - 1;
      batches := batches[i := batches[i][last := batches[i][last] + AckSuffix(token, i + 1)]];
    }
  }

  /** The lines typed to run `command`, grouped into acknowledged batches. Taken together and without
      their acknowledgements they are exactly the setup lines and the main line, in order; and no
      acknowledged batch, with its newlines, exceeds `batch` bytes. */
  method TypedBatches(command: seq<Byte>, token: string, input: Option<seq<Byte>>, merge: bool, batch: Option<nat>)
    returns (batches: seq<seq<string>>, ghost groups: seq<seq<string>>)
    requires IsToken(token) && (batch.Some? ==> batch.value >= MIN_BATCH)
    ensures groups != [] && forall k :: 0 <= k < |groups| ==> groups[k] != []
    ensures Flatten(groups) == SetupLines(command, token, input) + [MainLine(token, input, merge)]
    ensures batches == Acknowledged(groups, token)
    ensures batch.None? ==> |batches| == 1
    ensures batch.Some? ==> forall k :: 0 <= k < |batches| && |Decimal(k + 1)| <= 22 ==>
              TypedBytes(batches[k]) <= batch.value
  {
    hide SetupLines, MainLine, Flatten, TypedBytes, Decimal, IsToken, AckSuffix;
    var lines := SetupLines(command, token, input);
    var main := MainLine(token, input, merge);
    if batch.None? {
      groups := [lines + [main]];
      OneGroup(lines + [main]);
      return [lines + [main]], groups;
    }
    SetupLinesLength(command, token, input);
    MainLineLength(token, input, merge);
    var grouped := Batch(lines, main, batch.value - ACK_ROOM);
    groups := grouped;
    batches := Acknowledge(grouped, token);
    forall k | 0 <= k < |batches| && |Decimal(k + 1)| <= 22 ensures TypedBytes(batches[k]) <= batch.value {
      AckFits(grouped[k], token, k + 1);
    }
  }

  lemma {:induction false} OneGroup(lines: seq<string>)
    ensures Flatten([lines]) == lines
  {
    assert [lines][..0] == [];
  }

  lemma {:induction false} AckFits(group: seq<string>, token: string, number: nat)
    requires IsToken(token) && group != [] && |Decimal(number)| <= 22
    ensures TypedBytes(WithAck(group, token, number)) <= TypedBytes(group) + ACK_ROOM
  {
    hide AckSuffix, Decimal;
    var n := |group| - 1;
    AckSuffixLength(token, number);
    TypedBytesPush(group[..n], group[n] + AckSuffix(token, number));
    TypedBytesPush(group[..n], group[n]);
    assert group[..n] + [group[n]] == group;
  }

  // -------------------------------------------------------------------------------- what it gives

  lemma {:induction false} InFlatten(groups: seq<seq<string>>, k: nat, i: nat)
    requires k < |groups| && i < |groups[k]|
    ensures groups[k][i] in Flatten(groups)
  {
    var n := |groups| - 1;
    if k < n { InFlatten(groups[..n], k, i); } else { assert groups[k][i] in groups[n]; }
  }

  /** Every typed line is short enough for a line editor that drops a line of 1024 bytes, and holds no
      beginning of any of this command's markers that what follows could complete. */
  lemma {:induction false} TypedLinesAreSafe(command: seq<Byte>, token: string, input: Option<seq<Byte>>, merge: bool,
                                             groups: seq<seq<string>>, k: nat, i: nat, mk: string)
    requires IsToken(token) && IsStemmed(mk) && forall g :: 0 <= g < |groups| ==> groups[g] != []
    requires Flatten(groups) == SetupLines(command, token, input) + [MainLine(token, input, merge)]
    requires k < |groups| && i < |Acknowledged(groups, token)[k]|
    ensures Quiet(Acknowledged(groups, token)[k][i], mk)
    ensures |Decimal(k + 1)| <= 22 ==> |Acknowledged(groups, token)[k][i]| < 1024
  {
    hide SetupLines, MainLine, Flatten, IsToken, IsStemmed, Quiet, AckSuffix, Decimal;
    var line := groups[k][i];
    InFlatten(groups, k, i);
    var lines := SetupLines(command, token, input);
    SetupLinesLength(command, token, input);
    MainLineLength(token, input, merge);
    QuietSetup(command, token, input, mk);
    QuietMain(token, input, merge, mk);
    assert line in lines || line == MainLine(token, input, merge);
    QuietAck(line, token, k + 1, mk);
    AckSuffixLength(token, k + 1);
  }

  lemma {:induction false} ChunksJoin(text: string)
    ensures Concat(Chunks(text)) == text
  {
    if text == "" {
    } else if |text| <= CHUNK {
      ConcatPush([], text);
      assert [] + [text] == [text];
    } else {
      ChunksJoin(text[CHUNK..]);
      ConcatCons(text[..CHUNK], Chunks(text[CHUNK..]));
    }
  }

  lemma {:induction false} ConcatCons(first: string, rest: seq<string>)
    ensures Concat([first] + rest) == first + Concat(rest)
  {
    hide Concat;
    if rest == [] {
      ConcatNothing();
      ConcatPush([], first);
      assert [] + [first] == [first] + rest == [first];
    } else {
      var n := |rest| - 1;
      ConcatCons(first, rest[..n]);
      ConcatPush([first] + rest[..n], rest[n]);
      ConcatPush(rest[..n], rest[n]);
      assert rest == rest[..n] + [rest[n]];
      assert [first] + rest == [first] + rest[..n] + [rest[n]];
      Assoc(first, Concat(rest[..n]), rest[n]);
    }
  }

  /** The pieces typed for one file, in order, are the base64 of its bytes, and decoding them on the target
      gives those bytes back. */
  lemma {:induction false} BytesArrive(data: seq<Byte>)
    ensures Concat(Chunks(Encode(data))) == Encode(data)
    ensures Decode(Concat(Chunks(Encode(data)))) == Some(data)
  {
    ChunksJoin(Encode(data));
    RoundTrip(data);
  }

  /** What the terminal shows: noise (prompts, line ends) before every echoed line and after the last. */
  function Echo(noise: seq<string>, lines: seq<string>): string
    requires |noise| == |lines| + 1
  {
    if lines == [] then noise[0] else noise[0] + (lines[0] + Echo(noise[1..], lines[1..]))
  }

  ghost predicate AllQuiet(texts: seq<string>, mk: string) { forall i :: 0 <= i < |texts| ==> Quiet(texts[i], mk) }

  lemma {:induction false} QuietEcho(noise: seq<string>, lines: seq<string>, mk: string)
    requires |noise| == |lines| + 1 && AllQuiet(noise, mk) && AllQuiet(lines, mk)
    ensures Quiet(Echo(noise, lines), mk)
  {
    hide Quiet;
    if lines != [] {
      QuietEcho(noise[1..], lines[1..], mk);
      QuietJoin(lines[0], Echo(noise[1..], lines[1..]), mk);
      QuietJoin(noise[0], lines[0] + Echo(noise[1..], lines[1..]), mk);
    }
  }

  /** A quiet text stays quiet when its beginning is dropped. */
  lemma {:induction false} QuietEnd(s: string, from: nat, mk: string)
    requires from <= |s| && Quiet(s, mk)
    ensures Quiet(s[from..], mk)
  {
    hide Live;
    forall i | 0 <= i < |s[from..]| ensures !Live(s[from..], i, mk) { Shift(s, from, i, mk); }
  }

  /** The whole console round trip: the terminal shows anything that holds no start marker and no
      beginning of one, then the shell prints the frames. Whatever the pieces the stream arrives in
      (`Framing.FeedAll`), the parser recovers exactly stdout, stderr and the status. */
  lemma {:induction false} ConsoleRoundTrip(token: string, screen: string, out: string, err: string, status: nat,
                                            post: string)
    requires IsToken(token) && Quiet(screen, MarkersOf(token).start)
    requires var m := MarkersOf(token);
             Find(out + m.mid, m.mid, 0) == |out| && FindEnd(err + EndMarker(m, Decimal(status)), m, 0) == |err|
    ensures OneShot(MarkersOf(token), screen + Frames(token, out, err, status, post))
            == Answer(Done, out, err, Some(status))
  {
    hide MarkersOf, OneShot, EndMarker, Decimal, Find, FindEnd, Live;
    var m := MarkersOf(token);
    MarkersBordered(token);
    FindAfter(screen, m.start, "");
    assert screen + m.start + "" == screen + m.start;
    FramingRoundTrip(m, screen, out, err, status, post);
    FramesJoin(screen, m.start, out, m.mid, err, EndMarker(m, Decimal(status)), post);
  }

  /** What the shell prints for the main line, and whatever follows. */
  function Frames(token: string, out: string, err: string, status: nat, post: string): string {
    var m := MarkersOf(token);
    m.start + (out + (m.mid + (err + (EndMarker(m, Decimal(status)) + post))))
  }

  lemma {:induction false} FramesJoin(s: string, a: string, b: string, c: string, d: string, e: string, f: string)
    ensures s + (a + (b + (c + (d + (e + f))))) == s + a + b + c + d + e + f
  {
  }

  /** The text ends one of the typed lines: the whole line, or what a dropped read left of its echo. */
  ghost predicate EndsTyped(text: string, groups: seq<seq<string>>, token: string)
    requires forall g :: 0 <= g < |groups| ==> groups[g] != []
  {
    exists k, i, from ::
      0 <= k < |groups| && 0 <= i < |Acknowledged(groups, token)[k]| && 0 <= from <= |Acknowledged(groups, token)[k][i]|
      && text == Acknowledged(groups, token)[k][i][from..]
  }

  ghost predicate AllTyped(echoed: seq<string>, groups: seq<seq<string>>, token: string)
    requires forall g :: 0 <= g < |groups| ==> groups[g] != []
  {
    forall i :: 0 <= i < |echoed| ==> EndsTyped(echoed[i], groups, token)
  }

  /** A terminal shows typed lines, in any order and any number, among noise that holds no marker `mk`:
      a prompt or a line end may stand before each of them and behind the last. */
  ghost predicate IsScreen(screen: string, groups: seq<seq<string>>, token: string, mk: string)
    requires forall g :: 0 <= g < |groups| ==> groups[g] != []
  {
    exists noise, echoed ::
      |noise| == |echoed| + 1 && AllQuiet(noise, mk) && AllTyped(echoed, groups, token) && screen == Echo(noise, echoed)
  }

  /** So nothing a terminal shows holds a marker or begins one. */
  lemma {:induction false} ScreenIsQuiet(command: seq<Byte>, token: string, input: Option<seq<Byte>>, merge: bool,
                                         groups: seq<seq<string>>, screen: string, mk: string)
    requires IsToken(token) && IsStemmed(mk) && forall g :: 0 <= g < |groups| ==> groups[g] != []
    requires Flatten(groups) == SetupLines(command, token, input) + [MainLine(token, input, merge)]
    requires IsScreen(screen, groups, token, mk)
    ensures Quiet(screen, mk)
  {
    hide Echo, Quiet, IsStemmed, Flatten, SetupLines, MainLine, Acknowledged, IsToken, AllQuiet, EndsTyped;
    var noise, echoed :|
      |noise| == |echoed| + 1 && AllQuiet(noise, mk) && AllTyped(echoed, groups, token) && screen == Echo(noise, echoed);
    forall i | 0 <= i < |echoed| ensures Quiet(echoed[i], mk) {
      TypedEndIsQuiet(command, token, input, merge, groups, echoed[i], mk);
    }
    EachQuiet(echoed, mk);
    QuietEcho(noise, echoed, mk);
  }

  lemma {:induction false} EachQuiet(texts: seq<string>, mk: string)
    requires forall i :: 0 <= i < |texts| ==> Quiet(texts[i], mk)
    ensures AllQuiet(texts, mk)
  {
    hide Quiet;
  }

  lemma {:induction false} TypedEndIsQuiet(command: seq<Byte>, token: string, input: Option<seq<Byte>>, merge: bool,
                                           groups: seq<seq<string>>, text: string, mk: string)
    requires IsToken(token) && IsStemmed(mk) && forall g :: 0 <= g < |groups| ==> groups[g] != []
    requires Flatten(groups) == SetupLines(command, token, input) + [MainLine(token, input, merge)]
    requires EndsTyped(text, groups, token)
    ensures Quiet(text, mk)
  {
    hide Quiet, IsStemmed, Flatten, SetupLines, MainLine, Acknowledged, IsToken;
    var k, i, from :|
      0 <= k < |groups| && 0 <= i < |Acknowledged(groups, token)[k]| && 0 <= from <= |Acknowledged(groups, token)[k][i]|
      && text == Acknowledged(groups, token)[k][i][from..];
    TypedLinesAreSafe(command, token, input, merge, groups, k, i, mk);
    QuietEnd(Acknowledged(groups, token)[k][i], from, mk);
  }

  /** So the lines `TypedBatches` gives, echoed in any order among quiet noise, never spoil the frames. */
  lemma {:induction false} TypedRunParses(command: seq<Byte>, token: string, input: Option<seq<Byte>>, merge: bool,
                                          groups: seq<seq<string>>, screen: string,
                                          out: string, err: string, status: nat, post: string)
    requires IsToken(token) && forall g :: 0 <= g < |groups| ==> groups[g] != []
    requires Flatten(groups) == SetupLines(command, token, input) + [MainLine(token, input, merge)]
    requires IsScreen(screen, groups, token, MarkersOf(token).start)
    requires var m := MarkersOf(token);
             Find(out + m.mid, m.mid, 0) == |out| && FindEnd(err + EndMarker(m, Decimal(status)), m, 0) == |err|
    ensures OneShot(MarkersOf(token), screen + Frames(token, out, err, status, post))
            == Answer(Done, out, err, Some(status))
  {
    hide MarkersOf, OneShot, IsScreen, EndMarker, Decimal, Find, FindEnd, Quiet, IsStemmed, Flatten, SetupLines,
         MainLine, Acknowledged, IsToken, Frames;
    MarkersAreStemmed(token, 0);
    ScreenIsQuiet(command, token, input, merge, groups, screen, MarkersOf(token).start);
    ConsoleRoundTrip(token, screen, out, err, status, post);
  }

  /** Read until the shell prints `marker`, whatever pieces its output arrives in; keep only what could
      still begin the marker, and return what followed it. `None`: the stream ended first. */
  method AwaitAcknowledgement(chunks: seq<string>, marker: string) returns (rest: Option<string>, used: nat)
    requires marker != ""
    ensures used <= |chunks|
    ensures rest.Some? ==> var all := Concat(chunks[..used]); var hit := Find(all, marker, 0);
                           hit >= 0 && rest.value == all[hit + |marker|..]
                           && (used > 0 ==> Find(Concat(chunks[..used - 1]), marker, 0) < 0)
    ensures rest.None? ==> used == |chunks| && Find(Concat(chunks), marker, 0) < 0
  {
    hide Concat, Find, At, Live;
    var buffer := "";
    used := 0;
    ghost var all, base := "", 0;
    ConcatNothing();
    assert chunks[..0] == [];
    while true
      invariant used <= |chunks| && all == Concat(chunks[..used]) && base <= |all| && buffer == all[base..]
      invariant forall i :: 0 <= i < base ==> !Live(all, i, marker)
      invariant used > 0 ==> Find(Concat(chunks[..used - 1]), marker, 0) < 0
      decreases |chunks| - used
    {
      var hit := Find(buffer, marker, 0);
      FindShift(all, base, 0, marker);
      NotLiveNotAt(all, marker, 0, base);
      FindSkip(all, marker, 0, base);
      if hit >= 0 {
        DropMore(all, base, hit + |marker|);
        return Some(buffer[hit + |marker|..]), used;
      }
      var drop := if |buffer| - |marker| + 1 > 0 then |buffer| - |marker| + 1 else 0;
      DeadBefore(all, marker, base + drop);
      DropMore(all, base, drop);
      buffer := buffer[drop..];
      base := base + drop;
      if used == |chunks| {
        assert chunks[..used] == chunks;
        return None, used;
      }
      ConcatPush(chunks[..used], chunks[used]);
      assert chunks[..used + 1] == chunks[..used] + [chunks[used]];
      forall i | 0 <= i < base ensures !Live(all + chunks[used], i, marker) { Extend(all, chunks[used], i, marker); }
      TailExtend(all, chunks[used], base);
      buffer, all := buffer + chunks[used], all + chunks[used];
      used := used + 1;
    }
  }

  /** Without an occurrence, nothing that ends before the last `|marker| - 1` bytes can become one. */
  lemma {:induction false} DeadBefore(s: string, marker: string, to: nat)
    requires Find(s, marker, 0) < 0
    ensures forall i :: 0 <= i < to && i + |marker| <= |s| ==> !Live(s, i, marker)
  {
    hide Find;
    forall i | 0 <= i < to && i + |marker| <= |s| ensures !Live(s, i, marker) { assert !At(s, i, marker); }
  }

  lemma {:induction false} ConcatSplit(chunks: seq<string>, n: nat)
    requires n <= |chunks|
    ensures Concat(chunks) == Concat(chunks[..n]) + Concat(chunks[n..])
    decreases |chunks|
  {
    if n == |chunks| {
      assert chunks[..n] == chunks && chunks[n..] == [];
      assert Concat(chunks) + "" == Concat(chunks);
    } else {
      var last := |chunks| - 1;
      ConcatSplit(chunks[..last], n);
      assert chunks[..last][..n] == chunks[..n] && chunks[..last][n..] == chunks[n..][..last - n];
      Assoc(Concat(chunks[..n]), Concat(chunks[n..][..last - n]), chunks[last]);
    }
  }

  /** The terminal shows something quiet, then the marker: in whatever pieces that arrives, the wait ends with the read
      that completes the marker and returns exactly what had come behind it; nothing is lost. */
  method AwaitQuiet(chunks: seq<string>, marker: string, ghost screen: string, ghost after: string)
    returns (leftover: string, used: nat)
    requires marker != "" && Quiet(screen, marker) && Concat(chunks) == screen + marker + after
    ensures 0 < used <= |chunks| && leftover + Concat(chunks[used..]) == after
    ensures Concat(chunks[..used]) == screen + marker + leftover
    ensures |Concat(chunks[..used - 1])| < |screen| + |marker|
  {
    hide Quiet, Concat, Find;
    QuietFind(screen, marker, after);
    var rest;
    rest, used := AwaitAcknowledgement(chunks, marker);
    assert rest.Some?;
    leftover := rest.value;
    ConcatSplit(chunks, used);
    Leftover(Concat(chunks[..used]), Concat(chunks[used..]), screen, marker, after);
    LeastWait(chunks, used, screen, marker, after);
  }

  lemma {:induction false} LeastWait(chunks: seq<string>, used: nat, screen: string, marker: string, after: string)
    requires marker != "" && Concat(chunks) == screen + marker + after && used <= |chunks|
    requires |screen| + |marker| <= |Concat(chunks[..used])|
    requires used > 0 ==> Find(Concat(chunks[..used - 1]), marker, 0) < 0
    ensures used > 0 && |Concat(chunks[..used - 1])| < |screen| + |marker|
  {
    hide Concat, Find;
    if used == 0 {
      assert chunks[..0] == [];
      ConcatNothing();
      assert false;
    }
    var got := Concat(chunks[..used - 1]);
    ConcatSplit(chunks, used - 1);
    if |got| >= |screen| + |marker| {
      MarkerWithin(got, Concat(chunks[used - 1..]), screen, marker, after);
      assert false;
    }
  }

  lemma {:induction false} MarkerWithin(got: string, more: string, screen: string, marker: string, after: string)
    requires got + more == screen + marker + after && |got| >= |screen| + |marker|
    ensures Find(got, marker, 0) >= 0
  {
    hide Find;
    assert got[|screen|..|screen| + |marker|] == (got + more)[|screen|..|screen| + |marker|] == marker;
    assert At(got, |screen|, marker);
  }

  /** A batch is typed, the terminal shows typed lines among quiet noise, and the shell acknowledges it: in whatever
      pieces that arrives, the wait ends with the acknowledgement and returns exactly what had come behind it. */
  method AwaitTyped(chunks: seq<string>, token: string, number: nat, ghost command: seq<Byte>, ghost input: Option<seq<Byte>>,
                    ghost merge: bool, ghost groups: seq<seq<string>>, ghost screen: string, ghost after: string)
    returns (leftover: string, used: nat)
    requires IsToken(token) && forall g :: 0 <= g < |groups| ==> groups[g] != []
    requires Flatten(groups) == SetupLines(command, token, input) + [MainLine(token, input, merge)]
    requires IsScreen(screen, groups, token, AckMarker(token, number))
    requires Concat(chunks) == screen + AckMarker(token, number) + after
    ensures 0 < used <= |chunks| && leftover + Concat(chunks[used..]) == after
    ensures Concat(chunks[..used]) == screen + AckMarker(token, number) + leftover
    ensures |Concat(chunks[..used - 1])| < |screen| + |AckMarker(token, number)|
  {
    hide IsScreen, Quiet, IsStemmed, Flatten, SetupLines, MainLine, Acknowledged, IsToken, Concat, AckMarker;
    var marker := AckMarker(token, number);
    MarkersAreStemmed(token, number);
    NotEmptyMarker(marker);
    ScreenIsQuiet(command, token, input, merge, groups, screen, marker);
    leftover, used := AwaitQuiet(chunks, marker, screen, after);
  }

  lemma {:induction false} NotEmptyMarker(marker: string)
    requires IsStemmed(marker)
    ensures marker != ""
  {
  }

  lemma {:induction false} QuietFind(echo: string, marker: string, after: string)
    requires Quiet(echo, marker)
    ensures Find(echo + marker + after, marker, 0) == |echo|
  {
    hide Live, Find;
    FindAfter(echo, marker, after);
  }

  lemma {:induction false} Leftover(got: string, more: string, echo: string, marker: string, after: string)
    requires got + more == echo + marker + after && Find(got, marker, 0) >= 0
    requires Find(echo + marker + after, marker, 0) == |echo|
    ensures |echo| + |marker| <= |got| && Find(got, marker, 0) == |echo|
    ensures got == echo + marker + got[|echo| + |marker|..] && got[|echo| + |marker|..] + more == after
  {
    hide Find;
    FindExtend(got, more, marker, 0);
    var n := |echo| + |marker|;
    var head := echo + marker;
    assert (got + more)[..n] == head && got[..n] == (got + more)[..n];
    assert got == got[..n] + got[n..];
    assert (head + after)[n..] == after && (got + more)[n..] == got[n..] + more;
  }

  // ------------------------------------------------------------------------------ the whole command

  /** What the console sends up to the acknowledgement of the `n`-th batch. */
  ghost function Until(screens: seq<string>, token: string, n: nat): string
    requires n <= |screens|
  {
    if n == 0 then "" else Until(screens, token, n - 1) + (screens[n - 1] + AckMarker(token, n))
  }

  /** The `used`-th read is the one that brings the first `size` bytes to their end. */
  ghost predicate Completes(chunks: seq<string>, used: nat, size: nat) {
    used <= |chunks| && |Concat(chunks[..used])| >= size && (used > 0 ==> |Concat(chunks[..used - 1])| < size)
  }

  /** The console sends no acknowledgement before its batch is typed: the reads dropped while batch `k` is
      typed, which begin where the wait before it stopped, end before the acknowledgement of `k` begins. */
  ghost predicate InTurn(chunks: seq<string>, drops: seq<nat>, screens: seq<string>, token: string)
    requires |drops| == |screens|
  {
    forall k, used: nat :: 0 <= k < |screens| && Completes(chunks, used, |Until(screens, token, k)|) ==>
      DropsFit(chunks, used + drops[k], |Until(screens, token, k)| + |screens[k]|)
  }

  ghost predicate DropsFit(chunks: seq<string>, read: nat, size: nat) {
    read <= |chunks| && |Concat(chunks[..read])| <= size
  }

  /** Whatever the last wait returned, joined to what was not dropped, hides no start marker: either
      nothing was dropped, or what came with the last acknowledgement does not begin a marker. */
  ghost predicate CleanLead(chunks: seq<string>, drop: nat, before: string, mk: string) {
    drop == 0 || forall used: nat :: Completes(chunks, used, |before|) ==> Quiet(Concat(chunks[..used])[|before|..], mk)
  }

  /** Every screen is one of typed lines among noise without the marker that is waited for. */
  ghost predicate AllScreens(screens: seq<string>, groups: seq<seq<string>>, token: string)
    requires |screens| == |groups| && forall g :: 0 <= g < |groups| ==> groups[g] != []
  {
    forall k :: 0 <= k < |screens| ==>
      IsScreen(screens[k], groups, token, if k + 1 < |screens| then AckMarker(token, k + 1) else MarkersOf(token).start)
  }

  /** What the console sends from the `n`-th batch on: a screen and the acknowledgement for every batch
      but the last, and for the last its screen and then what its main line prints. */
  ghost function Sent(screens: seq<string>, token: string, n: nat, printed: string): string
    requires n < |screens|
    decreases |screens| - n
  {
    screens[n] + (if n + 1 == |screens| then printed else AckMarker(token, n + 1) + Sent(screens, token, n + 1, printed))
  }

  /** Dropping reads that end within a screen leaves the end of that screen and all that follows. */
  lemma {:induction false} DropWithin(chunks: seq<string>, used: nat, read: nat, before: string, screen: string, rest: string)
    requires used <= read && Completes(chunks, used, |before|) && DropsFit(chunks, read, |before| + |screen|)
    requires Concat(chunks) == before + (screen + rest)
    ensures |Concat(chunks[..used])| <= |Concat(chunks[..read])| <= |before| + |screen|
    ensures var at := |Concat(chunks[..read])| - |before|;
            at >= 0 && Concat(chunks[..read]) == before + screen[..at] && Concat(chunks[read..]) == screen[at..] + rest
  {
    hide Concat;
    ConcatSplit(chunks, read);
    ConcatSplit(chunks[..read], used);
    assert chunks[..read][..used] == chunks[..used];
    CutWithin(Concat(chunks[..read]), Concat(chunks[read..]), before, screen, rest);
  }

  lemma {:induction false} CutWithin(got: string, more: string, before: string, screen: string, rest: string)
    requires got + more == before + (screen + rest) && |before| <= |got| <= |before| + |screen|
    ensures got == before + screen[..|got| - |before|] && more == screen[|got| - |before|..] + rest
  {
    var at := |got| - |before|;
    assert before + (screen + rest) == (before + screen[..at]) + (screen[at..] + rest);
    assert (got + more)[..|got|] == got && (got + more)[|got|..] == more;
    DropPrefix(before + screen[..at], screen[at..] + rest);
  }

  /** After the wait, the reads so far end where the acknowledgement was completed. */
  lemma {:induction false} Waited(chunks: seq<string>, read: nat, used: nat, before: string, screen: string, at: nat,
                                  marker: string, leftover: string)
    requires read <= |chunks| && 0 < used <= |chunks| - read && at <= |screen|
    requires Concat(chunks[..read]) == before + screen[..at]
    requires Concat(chunks[read..][..used]) == screen[at..] + marker + leftover
    requires |Concat(chunks[read..][..used - 1])| < |screen| - at + |marker|
    ensures Completes(chunks, read + used, |before + (screen + marker)|)
    ensures Concat(chunks[..read + used]) == before + (screen + marker) + leftover
    ensures chunks[read..][used..] == chunks[read + used..]
  {
    hide Concat;
    ConcatSplit(chunks[..read + used], read);
    ConcatSplit(chunks[..read + used - 1], read);
    assert chunks[..read + used][..read] == chunks[..read] == chunks[..read + used - 1][..read];
    assert chunks[..read + used][read..] == chunks[read..][..used];
    assert chunks[..read + used - 1][read..] == chunks[read..][..used - 1];
    assert before + screen[..at] + (screen[at..] + marker + leftover) == before + (screen + marker) + leftover;
  }

  /** One batch is typed and acknowledged: reads are dropped while it is typed, and the wait ends with the
      read that completes the acknowledgement. */
  method AwaitTurn(chunks: seq<string>, from: nat, drop: nat, marker: string, ghost before: string, ghost screen: string,
                   ghost after: string)
    returns (leftover: string, used: nat)
    requires marker != "" && Quiet(screen, marker) && Concat(chunks) == before + (screen + (marker + after))
    requires Completes(chunks, from, |before|) && DropsFit(chunks, from + drop, |before| + |screen|)
    ensures used <= |chunks| && Completes(chunks, used, |before + (screen + marker)|)
    ensures Concat(chunks[..used]) == before + (screen + marker) + leftover
  {
    hide Quiet, Concat, Completes;
    DropWithin(chunks, from, from + drop, before, screen, marker + after);
    ghost var at := |Concat(chunks[..from + drop])| - |before|;
    QuietEnd(screen, at, marker);
    Assoc(screen[at..], marker, after);
    var more;
    leftover, more := AwaitQuiet(chunks[from + drop..], marker, screen[at..], after);
    Waited(chunks, from + drop, more, before, screen, at, marker, leftover);
    used := from + drop + more;
  }

  /** What the frame parser is fed first, and all it is fed after: a quiet screen and the frames. */
  lemma {:induction false} LastTurn(chunks: seq<string>, used: nat, drop: nat, leftover: string, before: string,
                                    screen: string, printed: string, mk: string) returns (shown: string)
    requires Quiet(screen, mk) && Concat(chunks) == before + (screen + printed)
    requires Completes(chunks, used, |before|) && DropsFit(chunks, used + drop, |before| + |screen|)
    requires Concat(chunks[..used]) == before + leftover && CleanLead(chunks, drop, before, mk)
    ensures used + drop <= |chunks| && Quiet(shown, mk)
    ensures Concat([leftover] + chunks[used + drop..]) == shown + printed
  {
    hide Quiet, Concat, Completes;
    DropWithin(chunks, used, used + drop, before, screen, printed);
    var at := |Concat(chunks[..used + drop])| - |before|;
    QuietEnd(screen, at, mk);
    ConcatCons(leftover, chunks[used + drop..]);
    Assoc(leftover, screen[at..], printed);
    DropPrefix(before, leftover);
    shown := leftover + screen[at..];
    if drop == 0 {
      DropPrefix(before, screen[..at]);
      assert leftover == screen[..at];
      assert shown == screen;
    } else {
      QuietJoin(leftover, screen[at..], mk);
    }
  }

  /** Run one command on a console: every batch is typed and, but for the last, acknowledged; the last is typed, and
      the frames are read, first from what the last wait had left over. However the reads cut what the console
      sends and however many of them are dropped in turn, all batches are typed in order, and exactly stdout,
      stderr and the status come back, the first two as they are emitted. */
  method RunTyped(token: string, batches: seq<seq<string>>, chunks: seq<string>, drops: seq<nat>,
                  ghost command: seq<Byte>, ghost input: Option<seq<Byte>>, ghost merge: bool, ghost groups: seq<seq<string>>,
                  ghost screens: seq<string>, ghost out: string, ghost err: string, ghost status: nat, ghost post: string)
    returns (typed: seq<string>, ans: Answer, outs: seq<string>, errs: seq<string>)
    requires IsToken(token) && groups != [] && forall g :: 0 <= g < |groups| ==> groups[g] != []
    requires Flatten(groups) == SetupLines(command, token, input) + [MainLine(token, input, merge)]
    requires batches == Acknowledged(groups, token) && |screens| == |drops| == |groups|
    requires AllScreens(screens, groups, token) && InTurn(chunks, drops, screens, token)
    requires Concat(chunks) == Sent(screens, token, 0, Frames(token, out, err, status, post))
    requires CleanLead(chunks, drops[|drops| - 1], Until(screens, token, |screens| - 1), MarkersOf(token).start)
    requires Find(out + MarkersOf(token).mid, MarkersOf(token).mid, 0) == |out|
    requires FindEnd(err + EndMarker(MarkersOf(token), Decimal(status)), MarkersOf(token), 0) == |err|
    ensures typed == Flatten(batches)
    ensures ans == Answer(Done, out, err, Some(status))
    ensures Concat(outs) == out && Concat(errs) == err
  {
    hide IsToken, IsStemmed, Flatten, SetupLines, MainLine, Acknowledged, AllScreens, IsScreen, InTurn, Concat, Sent, Until,
         Frames, CleanLead, Decimal, Find, FindEnd, EndMarker, MarkersOf, Quiet, Completes, DropsFit, OneShot, AckMarker;
    SameCount(groups, token);
    ghost var printed, last := Frames(token, out, err, status, post), |batches| - 1;
    var leftover := "";
    var used: nat := 0;
    typed := [];
    Begins(chunks, screens, token, printed);
    NothingTyped(batches);
    for k := 0 to |batches| - 1
      invariant typed == Flatten(batches[..k])
      invariant used <= |chunks| && Completes(chunks, used, |Until(screens, token, k)|)
      invariant Concat(chunks[..used]) == Until(screens, token, k) + leftover
      invariant Concat(chunks) == Until(screens, token, k) + Sent(screens, token, k, printed)
    {
      FlattenNext(batches, k);
      typed := typed + batches[k];
      DropsInTurn(chunks, drops, screens, token, k, used);
      ScreenInTurn(command, token, input, merge, groups, screens, k);
      SentNext(screens, token, k, printed);
      leftover, used := AwaitTurn(chunks, used, drops[k], AckMarker(token, k + 1), Until(screens, token, k), screens[k],
                                  Sent(screens, token, k + 1, printed));
    }
    FlattenNext(batches, last);
    assert batches[..last + 1] == batches;
    typed := typed + batches[|batches| - 1];
    DropsInTurn(chunks, drops, screens, token, last, used);
    ScreenInTurn(command, token, input, merge, groups, screens, last);
    SentLast(screens, token, printed);
    ghost var shown := LastTurn(chunks, used, drops[last], leftover, Until(screens, token, last), screens[last], printed,
                                MarkersOf(token).start);
    ConsoleRoundTrip(token, shown, out, err, status, post);
    ans, outs, errs := FeedAll(token, [leftover] + chunks[used + drops[|batches| - 1]..]);
  }

  lemma {:induction false} SameCount(groups: seq<seq<string>>, token: string)
    requires forall g :: 0 <= g < |groups| ==> groups[g] != []
    ensures |Acknowledged(groups, token)| == |groups|
  {
  }

  lemma {:induction false} Begins(chunks: seq<string>, screens: seq<string>, token: string, printed: string)
    requires screens != [] && Concat(chunks) == Sent(screens, token, 0, printed)
    ensures Completes(chunks, 0, |Until(screens, token, 0)|)
    ensures Concat(chunks[..0]) == Until(screens, token, 0) + ""
    ensures Concat(chunks) == Until(screens, token, 0) + Sent(screens, token, 0, printed)
  {
    hide Sent;
    assert chunks[..0] == [];
    assert "" + Sent(screens, token, 0, printed) == Sent(screens, token, 0, printed);
  }

  lemma {:induction false} NothingTyped(batches: seq<seq<string>>)
    ensures [] == Flatten(batches[..0])
  {
    assert batches[..0] == [];
  }

  lemma {:induction false} FlattenNext(batches: seq<seq<string>>, k: nat)
    requires k < |batches|
    ensures Flatten(batches[..k + 1]) == Flatten(batches[..k]) + batches[k]
  {
    assert batches[..k + 1][..k] == batches[..k];
  }

  lemma {:induction false} DropsInTurn(chunks: seq<string>, drops: seq<nat>, screens: seq<string>, token: string, k: nat,
                                       used: nat)
    requires |drops| == |screens| && k < |screens| && InTurn(chunks, drops, screens, token)
    requires Completes(chunks, used, |Until(screens, token, k)|)
    ensures DropsFit(chunks, used + drops[k], |Until(screens, token, k)| + |screens[k]|)
  {
    hide Completes, DropsFit, Until;
  }

  lemma {:induction false} ScreenInTurn(command: seq<Byte>, token: string, input: Option<seq<Byte>>, merge: bool,
                                        groups: seq<seq<string>>, screens: seq<string>, k: nat)
    requires IsToken(token) && |screens| == |groups| && forall g :: 0 <= g < |groups| ==> groups[g] != []
    requires Flatten(groups) == SetupLines(command, token, input) + [MainLine(token, input, merge)]
    requires k < |screens| && AllScreens(screens, groups, token)
    ensures var mk := if k + 1 < |screens| then AckMarker(token, k + 1) else MarkersOf(token).start;
            mk != "" && Quiet(screens[k], mk)
  {
    hide IsToken, Flatten, SetupLines, MainLine, IsScreen, MarkersOf, AckMarker, Quiet, IsStemmed;
    var mk := if k + 1 < |screens| then AckMarker(token, k + 1) else MarkersOf(token).start;
    MarkersAreStemmed(token, k + 1);
    NotEmptyMarker(mk);
    ScreenIsQuiet(command, token, input, merge, groups, screens[k], mk);
  }

  lemma {:induction false} SentNext(screens: seq<string>, token: string, k: nat, printed: string)
    requires k + 1 < |screens|
    ensures Sent(screens, token, k, printed)
            == screens[k] + (AckMarker(token, k + 1) + Sent(screens, token, k + 1, printed))
    ensures Until(screens, token, k + 1) == Until(screens, token, k) + (screens[k] + AckMarker(token, k + 1))
    ensures Until(screens, token, k) + Sent(screens, token, k, printed)
            == Until(screens, token, k + 1) + Sent(screens, token, k + 1, printed)
  {
    hide AckMarker;
    var a, b, c, d := Until(screens, token, k), screens[k], AckMarker(token, k + 1), Sent(screens, token, k + 1, printed);
    assert a + (b + (c + d)) == a + (b + c) + d;
  }

  lemma {:induction false} SentLast(screens: seq<string>, token: string, printed: string)
    requires screens != []
    ensures Sent(screens, token, |screens| - 1, printed) == screens[|screens| - 1] + printed
  {
  }

  // ----------------------------------------------------------------- a console that answers at once

  /** One read for every batch: its screen and what answers it. */
  function ByBatch(screens: seq<string>, token: string, printed: string): seq<string> {
    seq(|screens|, k requires 0 <= k < |screens| =>
      screens[k] + (if k + 1 == |screens| then printed else AckMarker(token, k + 1)))
  }

  /** Such a console takes its turns as `RunTyped` asks, whatever it shows and prints. */
  lemma {:induction false} AnswersInTurn(screens: seq<string>, token: string, printed: string, mk: string)
    requires screens != []
    ensures var chunks := ByBatch(screens, token, printed); var drops := seq(|screens|, k => 0);
            Concat(chunks) == Sent(screens, token, 0, printed) && InTurn(chunks, drops, screens, token)
            && CleanLead(chunks, drops[|drops| - 1], Until(screens, token, |screens| - 1), mk)
  {
    hide Concat, Sent, Until, Completes, ByBatch;
    var chunks, drops, n := ByBatch(screens, token, printed), seq(|screens|, k => 0), |screens|;
    ByBatchJoins(screens, token, printed, n - 1);
    ByBatchWhole(screens, token, printed);
    ByBatchCount(screens, token, printed);
    forall k, used: nat | 0 <= k < n && Completes(chunks, used, |Until(screens, token, k)|)
      ensures DropsFit(chunks, used + drops[k], |Until(screens, token, k)| + |screens[k]|)
    {
      CompletesAt(screens, token, printed, k, used);
      ByBatchJoins(screens, token, printed, k);
    }
  }

  lemma {:induction false} ByBatchJoins(screens: seq<string>, token: string, printed: string, k: nat)
    requires k < |screens|
    ensures Concat(ByBatch(screens, token, printed)[..k]) == Until(screens, token, k)
  {
    hide Concat, AckMarker;
    var chunks := ByBatch(screens, token, printed);
    if k == 0 {
      assert chunks[..0] == [];
      ConcatNothing();
    } else {
      ByBatchJoins(screens, token, printed, k - 1);
      assert chunks[..k] == chunks[..k - 1] + [chunks[k - 1]];
      ConcatPush(chunks[..k - 1], chunks[k - 1]);
    }
  }

  lemma {:induction false} ByBatchWhole(screens: seq<string>, token: string, printed: string)
    requires screens != []
    ensures Concat(ByBatch(screens, token, printed)) == Sent(screens, token, 0, printed)
  {
    hide Concat, AckMarker, Sent, Until;
    var chunks, n := ByBatch(screens, token, printed), |screens| - 1;
    ByBatchJoins(screens, token, printed, n);
    assert chunks == chunks[..n] + [chunks[n]];
    ConcatPush(chunks[..n], chunks[n]);
    SentLast(screens, token, printed);
    SentFrom(screens, token, printed, n);
  }

  lemma {:induction false} SentFrom(screens: seq<string>, token: string, printed: string, k: nat)
    requires k < |screens|
    ensures Until(screens, token, k) + Sent(screens, token, k, printed) == Sent(screens, token, 0, printed)
  {
    hide Sent;
    if k == 0 {
      assert "" + Sent(screens, token, 0, printed) == Sent(screens, token, 0, printed);
    } else {
      SentFrom(screens, token, printed, k - 1);
      SentNext(screens, token, k - 1, printed);
    }
  }

  /** Only the read that brings the acknowledgement completes it. */
  lemma {:induction false} CompletesAt(screens: seq<string>, token: string, printed: string, k: nat, used: nat)
    requires k < |screens| && Completes(ByBatch(screens, token, printed), used, |Until(screens, token, k)|)
    ensures used == k
  {
    hide Concat, Until, ByBatch;
    var chunks := ByBatch(screens, token, printed);
    ByBatchJoins(screens, token, printed, k);
    ByBatchCount(screens, token, printed);
    if used > k {
      ConcatGrows(chunks, k, used - 1);
      assert false;
    } else if used < k {
      ByBatchJoins(screens, token, printed, used);
      UntilGrows(screens, token, used, k);
      assert false;
    }
  }

  lemma {:induction false} ConcatGrows(chunks: seq<string>, i: nat, k: nat)
    requires i <= k <= |chunks|
    ensures |Concat(chunks[..i])| <= |Concat(chunks[..k])|
  {
    hide Concat;
    ConcatSplit(chunks[..k], i);
    assert chunks[..k][..i] == chunks[..i];
  }

  lemma {:induction false} ByBatchCount(screens: seq<string>, token: string, printed: string)
    ensures |ByBatch(screens, token, printed)| == |screens|
  {
  }

  lemma {:induction false} UntilGrows(screens: seq<string>, token: string, i: nat, k: nat)
    requires i < k <= |screens|
    ensures |Until(screens, token, i)| < |Until(screens, token, k)|
    decreases k
  {
    if i + 1 < k { UntilGrows(screens, token, i, k - 1); }
  }
}
