/** `_Frame` of the console protocol: an incremental parser that recovers stdout, stderr and status from
    one merged byte stream that arrives in arbitrary pieces.

    `OneShot` is the reference: it looks at everything received so far at once. `Frame.Feed` keeps only a
    tail of the stream, scans only new bytes, and is proved to agree with `OneShot` after every call. */
module Framing {
  import opened Options
  import opened Search

  const KEEP: nat := 64 * 1024
  const TOKEN_LENGTH: nat := 16
  const END_SUFFIX := "_EN__"

  datatype State = Wait | Out | Err | Done

  /** What the parser has recovered: its state, the two outputs, and the exit status once it is known. */
  datatype Answer = Answer(state: State, out: string, err: string, status: Option<nat>)

  // ---------------------------------------------------------------------------------- the markers

  predicate IsDigit(c: char) { '0' <= c <= '9' }

  predicate IsHex(c: char) { IsDigit(c) || 'a' <= c <= 'f' }

  /** The identifier of one command: sixteen lower-case hexadecimal digits. */
  predicate IsToken(token: string) {
    |token| == TOKEN_LENGTH && forall i :: 0 <= i < |token| ==> IsHex(token[i])
  }

  /** The texts that delimit one command's frames. */
  datatype Markers = Markers(start: string, mid: string, endPrefix: string)

  function MarkersOf(token: string): Markers {
    Markers("__ST" + token + "__", "__OUT" + token + "__", "__EN" + token + "_")
  }

  /** All that the parser needs of its markers: they are not empty, and the end prefix begins with the
      only `__` in it. */
  predicate Bordered(m: Markers) {
    var p := m.endPrefix;
    m.start != "" && m.mid != "" && |p| >= 2 && p[0] == '_' && p[1] == '_' &&
    forall i :: 0 < i < |p| - 1 ==> !(p[i] == '_' && p[i + 1] == '_')
  }

  lemma {:induction false} MarkersBordered(token: string)
    requires IsToken(token)
    ensures Bordered(MarkersOf(token))
  {
    var p := MarkersOf(token).endPrefix;
    assert p[1] == '_' && p[2] == 'E' && p[3] == 'N';
    forall i | 4 <= i < |p| - 1 ensures p[i] != '_' { assert p[i] == token[i - 4]; }
  }

  /** How many digits follow from position `k`. */
  function DigitRun(s: string, k: nat): (n: nat)
    requires k <= |s|
    ensures k + n <= |s|
    decreases |s| - k
  {
    if k < |s| && IsDigit(s[k]) then 1 + DigitRun(s, k + 1) else 0
  }

  /** The run is all digits, and what follows it is none. */
  lemma {:induction false} RunIsMaximal(s: string, k: nat)
    requires k <= |s|
    ensures forall i :: k <= i < k + DigitRun(s, k) ==> IsDigit(s[i])
    ensures k + DigitRun(s, k) < |s| ==> !IsDigit(s[k + DigitRun(s, k)])
    decreases |s| - k
  {
    if k < |s| && IsDigit(s[k]) { RunIsMaximal(s, k + 1); }
  }

  function Digit(c: char): nat
    requires IsDigit(c)
  {
    c as int - '0' as int
  }

  /** The number a run of decimal digits denotes. */
  function Value(digits: string): nat
    requires forall i :: 0 <= i < |digits| ==> IsDigit(digits[i])
  {
    if digits == "" then 0 else Value(digits[..|digits| - 1]) * 10 + Digit(digits[|digits| - 1])
  }

  function Pow10(n: nat): nat { if n == 0 then 1 else 10 * Pow10(n - 1) }

  predicate AllDigits(text: string) { forall i :: 0 <= i < |text| ==> IsDigit(text[i]) }

  const NUMERALS := "0123456789"

  /** The ten numerals denote zero to nine, and the first number of two numerals is ten. */
  lemma {:induction false} NumeralsDenote(k: nat)
    requires k < 10
    ensures AllDigits([NUMERALS[k]]) && Value([NUMERALS[k]]) == k && Value("10") == 10
  {
    assert [NUMERALS[k]][..0] == "" && NUMERALS[k] == '0' + k as char;
    assert "10"[..1] == "1" && "1"[..0] == "";
  }

  /** Position gives every numeral its weight. */
  lemma {:induction false} ValueJoin(a: string, b: string)
    requires AllDigits(a) && AllDigits(b)
    ensures AllDigits(a + b) && Value(a + b) == Value(a) * Pow10(|b|) + Value(b)
    decreases |b|
  {
    hide Digit;
    if b == "" {
      assert a + b == a;
    } else {
      var n := |b| - 1;
      ValueJoin(a, b[..n]);
      assert (a + b)[..|a| + n] == a + b[..n] && (a + b)[|a| + n] == b[n];
      Weigh(Value(a), Pow10(n), Value(b[..n]));
    }
  }

  lemma {:induction false} Weigh(a: nat, p: nat, b: nat)
    ensures (a * p + b) * 10 == a * (10 * p) + b * 10
  {
    assert a * (10 * p) == a * p * 10;
  }

  /** A number in decimal, as a shell prints it. */
  function Decimal(n: nat): string {
    if n < 10 then [('0' as int + n) as char] else Decimal(n / 10) + [('0' as int + n % 10) as char]
  }

  lemma {:induction false} DecimalDigits(n: nat)
    ensures |Decimal(n)| > 0 && forall i :: 0 <= i < |Decimal(n)| ==> IsDigit(Decimal(n)[i])
  {
    if n >= 10 { DecimalDigits(n / 10); }
  }

  /** It is a run of digits that denotes the number, without a zero in front but for zero itself. */
  lemma {:induction false} DecimalDenotes(n: nat)
    ensures Digits(Decimal(n)) && Value(Decimal(n)) == n && (n > 0 ==> Decimal(n)[0] != '0')
  {
    DecimalDigits(n);
    if n < 10 {
      assert Decimal(n)[..0] == "";
    } else {
      DecimalDenotes(n / 10);
      DecimalDigits(n / 10);
      assert Decimal(n)[..|Decimal(n)| - 1] == Decimal(n / 10);
    }
  }

  lemma {:induction false} DecimalLength(n: nat, size: nat)
    requires size > 0 && n < Pow10(size)
    ensures |Decimal(n)| <= size
    decreases size
  {
    if n >= 10 {
      assert size > 1 by { assert Pow10(1) == 10 * Pow10(0); }
      DecimalLength(n / 10, size - 1);
    }
  }

  /** The end expression matches at `i`: the prefix, at least one digit, the suffix. */
  predicate EndAt(s: string, m: Markers, i: int) {
    At(s, i, m.endPrefix) &&
    (var k := i + |m.endPrefix|; var n := DigitRun(s, k); n >= 1 && At(s, k + n, END_SUFFIX))
  }

  /** The status a match of the end expression at `i` carries. */
  function StatusAt(s: string, m: Markers, i: int): nat
    requires EndAt(s, m, i)
  {
    var k := i + |m.endPrefix|;
    RunIsMaximal(s, k);
    Value(s[k..k + DigitRun(s, k)])
  }

  /** `r` is the first match of the end expression at or after `from`, or -1 when there is none. */
  ghost predicate IsFirstEnd(s: string, m: Markers, from: nat, r: int) {
    if r < 0 then forall i :: from <= i ==> !EndAt(s, m, i)
    else from <= r && EndAt(s, m, r) && forall i :: from <= i < r ==> !EndAt(s, m, i)
  }

  function FindEnd(s: string, m: Markers, from: nat): (r: int)
    requires from <= |s|
    ensures -1 <= r <= |s| && (r >= 0 ==> from <= r && EndAt(s, m, r))
    ensures IsFirstEnd(s, m, from, r)
    decreases |s| - from
  {
    if EndAt(s, m, from) then from
    else if from == |s| then -1
    else FindEnd(s, m, from + 1)
  }

  // -------------------------------------------------------------------------------- the reference

  /** Where stderr stops being safe to hand on: the last complete end prefix, else the first position
      that may still begin one. */
  function SafeErr(s: string, m: Markers, from: nat): (r: nat)
    requires from <= |s|
    ensures from <= r <= |s|
  {
    var t := RFind(s, m.endPrefix, from);
    if t >= 0 then t else FirstLive(s, m.endPrefix, from)
  }

  /** Split the whole stream at the first start marker, then the first mid marker, then the first match
      of the end expression. */
  function OneShot(m: Markers, s: string): Answer {
    var i := Find(s, m.start, 0);
    if i < 0 then Answer(Wait, "", "", None) else
    var a := i + |m.start|;
    var j := Find(s, m.mid, a);
    if j < 0 then Answer(Out, s[a..FirstLive(s, m.mid, a)], "", None) else
    var b := j + |m.mid|;
    var e := FindEnd(s, m, b);
    if e < 0 then Answer(Err, s[a..j], s[b..SafeErr(s, m, b)], None)
    else Answer(Done, s[a..j], s[b..e], Some(StatusAt(s, m, e)))
  }

  /** Where stdout begins, once the start marker was found. */
  ghost function OutBegins(m: Markers, s: string): nat
    requires Find(s, m.start, 0) >= 0
  {
    Find(s, m.start, 0) + |m.start|
  }

  ghost predicate MidFound(m: Markers, s: string) {
    Find(s, m.start, 0) >= 0 && Find(s, m.mid, OutBegins(m, s)) >= 0
  }

  /** Where stderr begins, once the mid marker was found. */
  ghost function ErrBegins(m: Markers, s: string): nat
    requires MidFound(m, s)
  {
    Find(s, m.mid, OutBegins(m, s)) + |m.mid|
  }

  // ---------------------------------------------------------- what cannot begin the end expression

  /** No match of the end expression can begin at `i`, however the stream goes on. */
  ghost predicate EndDead(s: string, m: Markers, i: int) {
    0 <= i <= |s| && !EndAt(s, m, i) &&
    (Live(s, i, m.endPrefix) ==> exists t :: i < t && At(s, t, m.endPrefix))
  }

  lemma {:induction false} DigitRunExtend(s: string, x: string, k: nat)
    requires k <= |s|
    ensures k + DigitRun(s, k) < |s| ==> DigitRun(s + x, k) == DigitRun(s, k)
    ensures DigitRun(s + x, k) >= DigitRun(s, k)
    decreases |s| - k
  {
    if k < |s| {
      assert (s + x)[k] == s[k];
      if IsDigit(s[k]) { DigitRunExtend(s, x, k + 1); }
    }
  }

  /** A match is not undone by bytes that arrive later, and keeps its status. */
  lemma {:induction false} EndAtExtend(s: string, x: string, m: Markers, i: int)
    requires EndAt(s, m, i)
    ensures EndAt(s + x, m, i) && StatusAt(s + x, m, i) == StatusAt(s, m, i)
  {
    var k := i + |m.endPrefix|;
    var n := DigitRun(s, k);
    Extend(s, x, i, m.endPrefix);
    DigitRunExtend(s, x, k);
    Extend(s, x, k + n, END_SUFFIX);
    assert (s + x)[k..k + n] == s[k..k + n];
  }

  /** A match that uses only bytes already there was a match already. */
  lemma {:induction false} EndAtWithin(s: string, x: string, m: Markers, i: int)
    requires EndAt(s + x, m, i)
    requires var k := i + |m.endPrefix|; k + DigitRun(s + x, k) + |END_SUFFIX| <= |s|
    ensures EndAt(s, m, i)
  {
    var k := i + |m.endPrefix|;
    var n := DigitRun(s + x, k);
    Extend(s, x, i, m.endPrefix);
    Extend(s, x, k + n, END_SUFFIX);
    RunWithin(s, x, k);
  }

  lemma {:induction false} RunWithin(s: string, x: string, k: nat)
    requires k <= |s| && k + DigitRun(s + x, k) < |s|
    ensures DigitRun(s, k) == DigitRun(s + x, k)
    decreases |s| - k
  {
    assert (s + x)[k] == s[k];
    if IsDigit(s[k]) { RunWithin(s, x, k + 1); }
  }

  /** A match of the end expression holds `__` only at its own beginning and at its very end. */
  lemma {:induction false} InnerUnderscores(w: string, m: Markers, i: int)
    requires Bordered(m) && EndAt(w, m, i)
    ensures var k := i + |m.endPrefix|; var e := k + DigitRun(w, k);
            forall t :: i < t < e + 3 ==> !(w[t] == '_' && w[t + 1] == '_')
  {
    hide At;
    SameBytes(w, i, m.endPrefix);
    var k := i + |m.endPrefix|;
    var e := k + DigitRun(w, k);
    RunIsMaximal(w, k);
    SameBytes(w, e, END_SUFFIX);
    forall t | i < t < e + 3 ensures !(w[t] == '_' && w[t + 1] == '_') {
      if t < k {
        PairInPrefix(w, m, i, t);
      } else if t < e {
        assert IsDigit(w[t]);
      } else {
        assert w[t] == END_SUFFIX[t - e] && w[t + 1] == END_SUFFIX[t + 1 - e];
      }
    }
  }

  lemma {:induction false} SameBytes(w: string, i: int, pat: string)
    requires At(w, i, pat)
    ensures 0 <= i && i + |pat| <= |w| && forall t :: i <= t < i + |pat| ==> w[t] == pat[t - i]
  {
    assert forall t :: i <= t < i + |pat| ==> w[t] == w[i..i + |pat|][t - i];
  }

  lemma {:induction false} PairInPrefix(w: string, m: Markers, i: int, t: int)
    requires Bordered(m) && EndAt(w, m, i) && i < t < i + |m.endPrefix| < |w|
    ensures !(w[t] == '_' && w[t + 1] == '_')
  {
    hide At;
    var k := i + |m.endPrefix|;
    SameBytes(w, i, m.endPrefix);
    RunIsMaximal(w, k);
    assert IsDigit(w[k]);
    assert w[t] == m.endPrefix[t - i] && (t + 1 < k ==> w[t + 1] == m.endPrefix[t + 1 - i]);
  }

  /** The border argument: a complete end prefix at a later place rules out every match that was not
      already complete, because the prefix begins with `__`. */
  lemma {:induction false} LaterPrefixKills(s: string, x: string, m: Markers, i: int, t: int)
    requires Bordered(m) && !EndAt(s, m, i)
    requires 0 <= i < t && At(s, t, m.endPrefix)
    ensures !EndAt(s + x, m, i)
  {
    var w := s + x;
    if EndAt(w, m, i) {
      var p := m.endPrefix;
      var k := i + |p|;
      var e := k + DigitRun(w, k);
      assert w[t] == s[t..t + |p|][0] && w[t + 1] == s[t..t + |p|][1];
      InnerUnderscores(w, m, i);
      assert e + |END_SUFFIX| <= t + 2 <= |s|;
      EndAtWithin(s, x, m, i);
    }
  }

  lemma {:induction false} EndDeadExtend(s: string, x: string, m: Markers, i: int)
    requires Bordered(m) && EndDead(s, m, i)
    ensures EndDead(s + x, m, i)
  {
    var p := m.endPrefix;
    Extend(s, x, i, p);
    if Live(s, i, p) {
      var t :| i < t && At(s, t, p);
      LaterPrefixKills(s, x, m, i, t);
      Extend(s, x, t, p);
    } else if EndAt(s + x, m, i) {
      AtIsLive(s + x, i, p);
    }
  }

  /** Everything before the safe point is dead, so nothing held back too little. */
  lemma {:induction false} BeforeSafeIsDead(s: string, m: Markers, from: nat)
    requires from <= |s| && FindEnd(s, m, from) < 0
    ensures forall i :: from <= i < SafeErr(s, m, from) ==> EndDead(s, m, i)
  {
    var p := m.endPrefix;
    var t := RFind(s, p, from);
    forall i | from <= i < SafeErr(s, m, from) ensures EndDead(s, m, i) {
      if t >= 0 { assert i < t && At(s, t, p); }
    }
  }

  // ------------------------------------------------------------------------------ the parser itself

  /** `size` is the length of the longest proper beginning of `marker` that ends `data`, looking no
      further back than `begin`. */
  ghost predicate IsHeld(data: string, marker: string, begin: nat, size: nat) {
    begin + size <= |data| && size < |marker| && data[|data| - size..] == marker[..size] &&
    forall k :: size < k < |marker| && begin + k <= |data| ==> data[|data| - k..] != marker[..k]
  }

  method Partial(data: string, marker: string, begin: nat) returns (size: nat)
    requires begin <= |data| && marker != ""
    ensures IsHeld(data, marker, begin, size)
  {
    size := if |marker| - 1 < |data| - begin then |marker| - 1 else |data| - begin;
    while size > 0
      invariant size < |marker| && begin + size <= |data|
      invariant forall k :: size < k < |marker| && begin + k <= |data| ==> data[|data| - k..] != marker[..k]
    {
      if data[|data| - size..] == marker[..size] { return; }
      size := size - 1;
    }
  }

  /** Holding back that many bytes is holding back from the first live position. */
  lemma {:induction false} HeldIsFirstLive(data: string, marker: string, begin: nat, size: nat)
    requires IsHeld(data, marker, begin, size)
    requires forall i :: begin <= i ==> !At(data, i, marker)
    ensures FirstLive(data, marker, begin) == |data| - size
  {
    assert Live(data, |data| - size, marker);
    forall i | begin <= i < |data| - size ensures !Live(data, i, marker) {
      if i + |marker| > |data| { assert data[|data| - (|data| - i)..] != marker[..|data| - i]; }
      else { assert !At(data, i, marker); }
    }
  }

  lemma {:induction false} FirstLiveSkip(s: string, pat: string, from: nat, at: nat)
    requires from <= at <= |s|
    requires forall i :: from <= i < at ==> !Live(s, i, pat)
    ensures FirstLive(s, pat, from) == FirstLive(s, pat, at)
  {
    assert forall i :: at <= i < FirstLive(s, pat, at) ==> !Live(s, i, pat);
    assert forall i :: from <= i < FirstLive(s, pat, from) ==> !Live(s, i, pat);
  }

  lemma {:induction false} FirstLiveShift(s: string, pat: string, base: nat, from: nat)
    requires base + from <= |s|
    ensures FirstLive(s, pat, base + from) == base + FirstLive(s[base..], pat, from)
  {
    var r := FirstLive(s[base..], pat, from);
    Shift(s, base, r, pat);
    forall i | base + from <= i < base + r ensures !Live(s, i, pat) {
      Shift(s, base, i - base, pat);
      assert !Live(s[base..], i - base, pat);
    }
  }

  lemma {:induction false} EndShift(s: string, base: nat, i: nat, m: Markers)
    requires base <= |s|
    ensures EndAt(s[base..], m, i) == EndAt(s, m, base + i)
    ensures EndAt(s, m, base + i) ==> StatusAt(s[base..], m, i) == StatusAt(s, m, base + i)
  {
    hide At, DigitRun, Value;
    Shift(s, base, i, m.endPrefix);
    if At(s, base + i, m.endPrefix) {
      var k := i + |m.endPrefix|;
      AtBounds(s, base + i, m.endPrefix);
      RunShift(s, base, k);
      var n := DigitRun(s[base..], k);
      Shift(s, base, k + n, END_SUFFIX);
      SliceShift(s, base, k, k + n);
    }
  }

  lemma {:induction false} RunShift(s: string, base: nat, k: nat)
    requires base + k <= |s|
    ensures DigitRun(s[base..], k) == DigitRun(s, base + k)
    decreases |s| - k
  {
    if base + k < |s| && IsDigit(s[base + k]) { RunShift(s, base, k + 1); }
  }

  /** The first match is determined by what it must satisfy. */
  lemma {:induction false} FindEndUnique(s: string, m: Markers, from: nat, r: int)
    requires from <= r <= |s| && EndAt(s, m, r)
    requires forall i :: from <= i < r ==> !EndAt(s, m, i)
    ensures FindEnd(s, m, from) == r
  {
    var q := FindEnd(s, m, from);
    assert q >= 0 ==> q <= r;
  }

  lemma {:induction false} FindEndShift(s: string, base: nat, from: nat, m: Markers)
    requires base + from <= |s|
    ensures var r := FindEnd(s[base..], m, from); var q := FindEnd(s, m, base + from);
            if r < 0 then q < 0 else q == base + r
  {
    hide EndAt, FindEnd, At, DigitRun;
    var r := FindEnd(s[base..], m, from);
    var q := FindEnd(s, m, base + from);
    forall i: int | base + from <= i ensures EndAt(s, m, i) == EndAt(s[base..], m, i - base) {
      EndShift(s, base, i - base, m);
    }
    if r >= 0 { FindEndUnique(s, m, base + from, base + r); }
  }

  /** What the parser knows in each state about the stream `s` when everything before `at` is settled. */
  ghost predicate Reading(m: Markers, s: string, at: nat, ans: Answer) {
    at <= |s| &&
    match ans.state
    case Wait =>
      ans == Answer(Wait, "", "", None) && forall i :: 0 <= i < at ==> !Live(s, i, m.start)
    case Out =>
      Find(s, m.start, 0) >= 0 &&
      (var a := OutBegins(m, s);
       a <= at && ans == Answer(Out, s[a..at], "", None) &&
       forall i :: a <= i < at ==> !Live(s, i, m.mid))
    case Err =>
      MidFound(m, s) &&
      (var b := ErrBegins(m, s);
       b <= at && ans == Answer(Err, s[OutBegins(m, s)..b - |m.mid|], s[b..at], None) &&
       forall i :: b <= i < at ==> EndDead(s, m, i))
    case Done => ans == OneShot(m, s)
  }

  /** The parser's place in the stream agrees with the reference. */
  ghost predicate Settled(m: Markers, s: string, at: nat, ans: Answer) {
    at <= |s| && ans == OneShot(m, s) &&
    match ans.state
    case Wait => forall i :: 0 <= i < at ==> !Live(s, i, m.start)
    case Out => at == OutBegins(m, s) + |ans.out|
    case Err => at == ErrBegins(m, s) + |ans.err|
    case Done => true
  }

  /** More bytes may arrive at a settled parser. */
  lemma {:induction false} Resume(m: Markers, s: string, x: string, at: nat, ans: Answer)
    requires Bordered(m) && Settled(m, s, at, ans)
    ensures Reading(m, s + x, at, ans)
  {
    hide At, Live, Find, FirstLive, FindEnd, EndAt, SafeErr, EndDead;
    match ans.state
    case Wait => ResumeWait(m, s, x, at);
    case Out => ResumeOut(m, s, x, at);
    case Err => ResumeErr(m, s, x, at);
    case Done => DoneIsFinal(m, s, x);
  }

  lemma {:induction false} ResumeWait(m: Markers, s: string, x: string, at: nat)
    requires at <= |s| && forall i :: 0 <= i < at ==> !Live(s, i, m.start)
    ensures forall i :: 0 <= i < at ==> !Live(s + x, i, m.start)
  {
    forall i | 0 <= i < at ensures !Live(s + x, i, m.start) { Extend(s, x, i, m.start); }
  }

  lemma {:induction false} ResumeOut(m: Markers, s: string, x: string, at: nat)
    requires Find(s, m.start, 0) >= 0
    requires at == FirstLive(s, m.mid, OutBegins(m, s))
    ensures Find(s + x, m.start, 0) >= 0 && OutBegins(m, s + x) == OutBegins(m, s)
    ensures var a := OutBegins(m, s); a <= at && (s + x)[a..at] == s[a..at]
    ensures forall i :: OutBegins(m, s) <= i < at ==> !Live(s + x, i, m.mid)
  {
    FindExtend(s, x, m.start, 0);
    var a := OutBegins(m, s);
    SliceExtend(s, x, a, at);
    forall i | a <= i < at ensures !Live(s + x, i, m.mid) { Extend(s, x, i, m.mid); }
  }

  /** Where stderr begins, and all of stdout, are not moved by bytes that arrive later. */
  lemma {:induction false} MidExtend(m: Markers, s: string, x: string)
    requires MidFound(m, s)
    ensures MidFound(m, s + x)
    ensures OutBegins(m, s + x) == OutBegins(m, s) && ErrBegins(m, s + x) == ErrBegins(m, s)
    ensures var a := OutBegins(m, s); var j := ErrBegins(m, s) - |m.mid|;
            (s + x)[a..j] == s[a..j]
  {
    FindExtend(s, x, m.start, 0);
    FindExtend(s, x, m.mid, OutBegins(m, s));
    var a := OutBegins(m, s);
    var j := ErrBegins(m, s) - |m.mid|;
    SliceExtend(s, x, a, j);
  }

  lemma {:induction false} ResumeErr(m: Markers, s: string, x: string, at: nat)
    requires Bordered(m) && MidFound(m, s) && FindEnd(s, m, ErrBegins(m, s)) < 0
    requires at == SafeErr(s, m, ErrBegins(m, s))
    ensures MidFound(m, s + x) && OutBegins(m, s + x) == OutBegins(m, s)
    ensures ErrBegins(m, s + x) == ErrBegins(m, s)
    ensures var a := OutBegins(m, s); var b := ErrBegins(m, s); var j := b - |m.mid|;
            (s + x)[a..j] == s[a..j] && b <= at && (s + x)[b..at] == s[b..at]
    ensures forall i :: ErrBegins(m, s) <= i < at ==> EndDead(s + x, m, i)
  {
    MidExtend(m, s, x);
    var b := ErrBegins(m, s);
    BeforeSafeIsDead(s, m, b);
    SliceExtend(s, x, b, at);
    forall i | b <= i < at ensures EndDead(s + x, m, i) { EndDeadExtend(s, x, m, i); }
  }

  lemma {:induction false} FindEndExtend(m: Markers, s: string, x: string, b: nat)
    requires Bordered(m) && b <= |s| && FindEnd(s, m, b) >= 0
    ensures FindEnd(s + x, m, b) == FindEnd(s, m, b)
    ensures StatusAt(s + x, m, FindEnd(s, m, b)) == StatusAt(s, m, FindEnd(s, m, b))
  {
    var e := FindEnd(s, m, b);
    EndAtExtend(s, x, m, e);
    forall i | b <= i < e ensures !EndAt(s + x, m, i) { LaterPrefixKills(s, x, m, i, e); }
    FindEndUnique(s + x, m, b, e);
  }

  /** The reference is done exactly when all three markers were found. */
  lemma {:induction false} DoneAnswer(m: Markers, s: string)
    ensures OneShot(m, s).state == Done <==> MidFound(m, s) && FindEnd(s, m, ErrBegins(m, s)) >= 0
    ensures OneShot(m, s).state == Done ==>
              var b := ErrBegins(m, s); var e := FindEnd(s, m, b);
              OneShot(m, s) == Answer(Done, s[OutBegins(m, s)..b - |m.mid|], s[b..e], Some(StatusAt(s, m, e)))
  {
    hide At, Live, EndAt, StatusAt, Find, FindEnd, FirstLive, SafeErr, IsFirst, IsFirstEnd;
  }

  /** Once the end was seen, later bytes change nothing. */
  lemma {:induction false} DoneIsFinal(m: Markers, s: string, x: string)
    requires Bordered(m) && OneShot(m, s).state == Done
    ensures OneShot(m, s + x) == OneShot(m, s)
  {
    hide Bordered, OneShot, MidFound, OutBegins, ErrBegins, EndAt, StatusAt, Find, FindEnd;
    DoneAnswer(m, s);
    DoneAnswer(m, s + x);
    MidExtend(m, s, x);
    var b := ErrBegins(m, s);
    FindEndExtend(m, s, x, b);
    var e := FindEnd(s, m, b);
    SliceExtend(s, x, b, e);
  }

  /** What a settled parser has recovered is the reference's answer. */
  lemma {:induction false} SettledMeans(m: Markers, s: string, at: nat, ans: Answer)
    requires Settled(m, s, at, ans)
    ensures ans == OneShot(m, s)
  {
  }

  // --------------------------------------------- one step of the parser, on the buffered tail s[base..]

  lemma {:induction false} WaitMiss(m: Markers, s: string, base: nat, ans: Answer)
    requires ans.state == Wait && m.start != "" && base <= |s| && Reading(m, s, base, ans)
    requires Find(s[base..], m.start, 0) < 0
    ensures Settled(m, s, base, ans)
    ensures base + |m.start| - 1 <= |s| ==> Settled(m, s, |s| - (|m.start| - 1), ans)
  {
    FindShift(s, base, 0, m.start);
    NotLiveNotAt(s, m.start, 0, base);
    FindSkip(s, m.start, 0, base);
    forall i | 0 <= i && i + |m.start| <= |s| ensures !Live(s, i, m.start) { assert !At(s, i, m.start); }
  }

  lemma {:induction false} WaitHit(m: Markers, s: string, base: nat, hit: nat, ans: Answer)
    requires ans.state == Wait && base <= |s| && Reading(m, s, base, ans)
    requires Find(s[base..], m.start, 0) == hit
    ensures base + hit + |m.start| <= |s|
    ensures Reading(m, s, base + hit + |m.start|, Answer(Out, ans.out, ans.err, ans.status))
  {
    FindShift(s, base, 0, m.start);
    NotLiveNotAt(s, m.start, 0, base);
    FindSkip(s, m.start, 0, base);
  }

  lemma {:induction false} OutMiss(m: Markers, s: string, base: nat, pos: nat, held: nat, ans: Answer)
    requires ans.state == Out && base + pos <= |s| && Reading(m, s, base + pos, ans)
    requires Find(s[base..], m.mid, pos) < 0
    requires IsHeld(s[base..], m.mid, pos, held)
    ensures base + pos <= |s| - held
    ensures Settled(m, s, |s| - held, ans.(out := ans.out + s[base + pos..|s| - held]))
  {
    hide At, Live, Find, FirstLive;
    var mid := m.mid;
    var a := OutBegins(m, s);
    FindShift(s, base, pos, mid);
    NotLiveNotAt(s, mid, a, base + pos);
    FindSkip(s, mid, a, base + pos);
    HeldIsFirstLive(s[base..], mid, pos, held);
    FirstLiveShift(s, mid, base, pos);
    FirstLiveSkip(s, mid, a, base + pos);
    var safe := |s| - held;
    SliceJoin(s, a, base + pos, safe);
  }

  lemma {:induction false} OutHit(m: Markers, s: string, base: nat, pos: nat, hit: nat, ans: Answer)
    requires ans.state == Out && base + pos <= |s| && Reading(m, s, base + pos, ans)
    requires Find(s[base..], m.mid, pos) == hit
    ensures pos <= hit && base + hit + |m.mid| <= |s|
    ensures Reading(m, s, base + hit + |m.mid|,
                    Answer(Err, ans.out + s[base + pos..base + hit], ans.err, ans.status))
  {
    hide Live, Find;
    var mid := m.mid;
    var a := OutBegins(m, s);
    FindShift(s, base, pos, mid);
    NotLiveNotAt(s, mid, a, base + pos);
    FindSkip(s, mid, a, base + pos);
    SliceJoin(s, a, base + pos, base + hit);
  }

  lemma {:induction false} ErrMiss(m: Markers, s: string, base: nat, pos: nat, safe: nat, ans: Answer)
    requires ans.state == Err && base + pos <= |s| && Reading(m, s, base + pos, ans)
    requires FindEnd(s[base..], m, pos) < 0
    requires base + safe == SafeErr(s, m, base + pos)
    ensures pos <= safe && base + safe <= |s|
    ensures Settled(m, s, base + safe, ans.(err := ans.err + s[base + pos..base + safe]))
  {
    hide Live, Find, FindEnd, EndDead, EndAt, SafeErr, IsFirst, IsFirstEnd;
    var b := ErrBegins(m, s);
    FindEndShift(s, base, pos, m);
    FindEndSkip(s, m, b, base + pos);
    SafeErrSkip(s, m, b, base + pos);
    SliceJoin(s, b, base + pos, base + safe);
  }

  lemma {:induction false} ErrHit(m: Markers, s: string, base: nat, pos: nat, hit: nat, ans: Answer)
    requires ans.state == Err && base + pos <= |s| && Reading(m, s, base + pos, ans)
    requires FindEnd(s[base..], m, pos) == hit
    ensures pos <= hit && base + hit <= |s|
    ensures Settled(m, s, base + pos, Answer(Done, ans.out, ans.err + s[base + pos..base + hit],
                                                 Some(StatusAt(s[base..], m, hit))))
  {
    hide OneShot, MidFound, EndAt, StatusAt, Find, FindEnd, EndDead;
    var b := ErrBegins(m, s);
    FindEndShift(s, base, pos, m);
    FindEndSkip(s, m, b, base + pos);
    EndShift(s, base, hit, m);
    DoneAnswer(m, s);
    SliceJoin(s, b, base + pos, base + hit);
  }

  lemma {:induction false} ReadingDone(m: Markers, s: string, at: nat, ans: Answer)
    requires ans.state == Done && Reading(m, s, at, ans)
    ensures Settled(m, s, at, ans)
  {
  }

  lemma {:induction false} SafeErrShift(m: Markers, s: string, base: nat, pos: nat)
    requires base + pos <= |s|
    ensures SafeErr(s, m, base + pos) == base + SafeErr(s[base..], m, pos)
  {
    RFindShift(s, base, pos, m.endPrefix);
    FirstLiveShift(s, m.endPrefix, base, pos);
  }

  class Frame {
    const m: Markers
    var buffer: string
    var state: State
    var pos: nat
    var scan: nat
    var out: string
    var err: string
    var returncode: Option<nat>
    /** Everything fed so far, and how much of it the buffer no longer holds. */
    ghost var fed: string
    ghost var base: nat

    /** What has been recovered from everything fed so far. */
    ghost function Recovered(): Answer
      reads this
    {
      Answer(state, out, err, returncode)
    }

    /** The buffer is the tail of what was fed, and only new bytes are still to be scanned. */
    ghost predicate Placed()
      reads this
    {
      Bordered(m) && base <= |fed| && buffer == fed[base..] && pos == scan && pos <= |buffer| &&
      (state == Wait ==> pos == 0)
    }

    ghost predicate Valid()
      reads this
    {
      Placed() && Settled(m, fed, base + pos, Recovered())
    }

    constructor (token: string)
      requires IsToken(token)
      ensures Valid() && m == MarkersOf(token) && fed == "" && Recovered() == OneShot(m, fed)
      ensures out == "" && err == ""
    {
      m := MarkersOf(token);
      MarkersBordered(token);
      buffer, state, pos, scan, out, err, returncode := "", Wait, 0, 0, "", "", None;
      fed, base := "", 0;
    }

    /** State `wait`: look for the start marker, or keep only what could still begin it. */
    method AwaitStart(ghost ans: Answer) returns (more: bool)
      requires Placed() && state == ans.state == Wait && Reading(m, fed, base + pos, ans)
      modifies this
      ensures Placed() && fed == old(fed) && out == old(out) && err == old(err) && returncode == old(returncode)
      ensures more ==> state == Out && Reading(m, fed, base + pos, ans.(state := state))
      ensures !more ==> state == Wait && Settled(m, fed, base + pos, ans) && |buffer| < |m.start|
    {
      hide Bordered, Reading, Settled, At, Find, IsFirst;
      NonEmpty(m);
      var hit := Find(buffer, m.start, scan);
      if hit < 0 {
        WaitMiss(m, fed, base, ans);
        var keep := |m.start| - 1;
        if |buffer| > keep {
          DropMore(fed, base, |buffer| - keep);
          base := base + (|buffer| - keep);
          buffer := buffer[|buffer| - keep..];
        }
        scan := 0;
        return false;
      }
      WaitHit(m, fed, base, hit, ans);
      state, pos := Out, hit + |m.start|;
      scan := pos;
      return true;
    }

    /** State `out`: everything up to the mid marker, or up to where it may still begin, is stdout. */
    method ReadOut(ghost ans: Answer) returns (more: bool, emit: string)
      requires Placed() && state == ans.state == Out && Reading(m, fed, base + pos, ans)
      modifies this
      ensures Placed() && fed == old(fed) && out == old(out) && err == old(err) && returncode == old(returncode)
      ensures more ==> state == Err && Reading(m, fed, base + pos, ans.(state := state, out := ans.out + emit))
      ensures !more ==> state == Out && Settled(m, fed, base + pos, ans.(out := ans.out + emit))
    {
      hide Bordered, Reading, Settled, IsHeld, At, Find, IsFirst;
      NonEmpty(m);
      var hit := Find(buffer, m.mid, scan);
      if hit < 0 {
        var held := Partial(buffer, m.mid, pos);
        OutMiss(m, fed, base, pos, held, ans);
        var safe := |buffer| - held;
        SliceShift(fed, base, pos, safe);
        emit := buffer[pos..safe];
        pos, scan := safe, safe;
        return false, emit;
      }
      OutHit(m, fed, base, pos, hit, ans);
      SliceShift(fed, base, pos, hit);
      emit := buffer[pos..hit];
      state, pos := Err, hit + |m.mid|;
      scan := pos;
      return true, emit;
    }

    /** State `err`: everything up to the end expression is stderr; without one, everything before the
        last end prefix, or before where one may still begin. */
    method ReadErr(ghost ans: Answer) returns (emit: string)
      requires Placed() && state == ans.state == Err && Reading(m, fed, base + pos, ans)
      requires returncode == ans.status
      modifies this
      ensures Placed() && fed == old(fed) && out == old(out) && err == old(err)
      ensures Settled(m, fed, base + pos, Answer(state, ans.out, ans.err + emit, returncode))
    {
      hide Bordered, Reading, Settled, SafeErr, IsHeld, At, EndAt, StatusAt, FindEnd, RFind, IsFirstEnd, IsLast;
      ErrStatus(m, fed, base + pos, ans);
      NonEmpty(m);
      var hit := FindEnd(buffer, m, scan);
      if hit < 0 {
        var tail := RFind(buffer, m.endPrefix, pos);
        var held := 0;
        if tail < 0 { held := Partial(buffer, m.endPrefix, pos); }
        SafeErrFound(buffer, m, pos, held);
        var safe := if tail >= 0 then tail else |buffer| - held;
        SafeErrShift(m, fed, base, pos);
        ErrMiss(m, fed, base, pos, safe, ans);
        SliceShift(fed, base, pos, safe);
        emit := buffer[pos..safe];
        pos, scan := safe, safe;
        return;
      }
      ErrHit(m, fed, base, pos, hit, ans);
      SliceShift(fed, base, pos, hit);
      emit := buffer[pos..hit];
      returncode := Some(StatusAt(buffer, m, hit));
      state := Done;
    }

    /** Forget what was handed on, once it is long. */
    method Compact()
      requires Placed()
      modifies this`buffer, this`pos, this`scan, this`base
      ensures Placed() && base + pos == old(base + pos)
    {
      if pos > KEEP {
        DropMore(fed, base, pos);
        base := base + pos;
        buffer := buffer[pos..];
        scan := scan - pos;
        pos := 0;
      }
    }

    /** New bytes join the buffer; the parser still knows all it knew. */
    method Append(data: string)
      requires Valid()
      modifies this`buffer, this`fed
      ensures Placed() && fed == old(fed) + data && Reading(m, fed, base + pos, Recovered())
    {
      hide Reading, Settled, OneShot, Bordered;
      Resume(m, fed, data, base + pos, Recovered());
      TailExtend(fed, data, base);
      buffer := buffer + data;
      fed := fed + data;
    }

    /** Add `data`; hand on the stdout and stderr bytes that are now safe to emit. */
    method Feed(data: string) returns (outEmit: string, errEmit: string)
      requires Valid()
      modifies this
      ensures Valid() && fed == old(fed) + data
      ensures Recovered() == OneShot(m, fed)
      ensures out == old(out) + outEmit && err == old(err) + errEmit
    {
      hide Reading, Settled, OneShot, Bordered;
      Append(data);
      outEmit, errEmit := Advance();
      SettledMeans(m, fed, base + pos, Answer(state, out + outEmit, err + errEmit, returncode));
      Compact();
      out := out + outEmit;
      err := err + errEmit;
    }

    /** Go through the states as far as the bytes allow. */
    method Advance() returns (outEmit: string, errEmit: string)
      requires Placed() && Reading(m, fed, base + pos, Recovered())
      modifies this
      ensures Placed() && fed == old(fed) && out == old(out) && err == old(err)
      ensures Settled(m, fed, base + pos, Answer(state, out + outEmit, err + errEmit, returncode))
    {
      hide Reading, Settled, OneShot, Bordered;
      outEmit, errEmit := "", "";
      assert out + outEmit == out && err + errEmit == err;
      while true
        invariant Placed() && fed == old(fed) && out == old(out) && err == old(err)
        invariant Reading(m, fed, base + pos, Answer(state, out + outEmit, err + errEmit, returncode))
        decreases match state { case Wait => 3 case Out => 2 case Err => 1 case Done => 0 }
      {
        ghost var ans := Answer(state, out + outEmit, err + errEmit, returncode);
        if state == Wait {
          var more := AwaitStart(ans);
          if !more { break; }
        } else if state == Out {
          var more, emit := ReadOut(ans);
          Assoc(out, outEmit, emit);
          outEmit := outEmit + emit;
          if !more { break; }
        } else if state == Err {
          var emit := ReadErr(ans);
          Assoc(err, errEmit, emit);
          errEmit := errEmit + emit;
          break;
        } else {
          ReadingDone(m, fed, base + pos, ans);
          break;
        }
      }
    }
  }

  /** The safe point, from what the scan of the buffer found. */
  lemma {:induction false} SafeErrFound(data: string, m: Markers, pos: nat, held: nat)
    requires pos <= |data| && (RFind(data, m.endPrefix, pos) < 0 ==> IsHeld(data, m.endPrefix, pos, held))
    ensures var tail := RFind(data, m.endPrefix, pos);
            SafeErr(data, m, pos) == if tail >= 0 then tail else |data| - held
  {
    if RFind(data, m.endPrefix, pos) < 0 { HeldIsFirstLive(data, m.endPrefix, pos, held); }
  }

  lemma {:induction false} NonEmpty(m: Markers)
    requires Bordered(m)
    ensures m.start != "" && m.mid != "" && m.endPrefix != ""
  {
  }

  lemma {:induction false} ErrStatus(m: Markers, s: string, at: nat, ans: Answer)
    requires ans.state == Err && Reading(m, s, at, ans)
    ensures ans.status == None
  {
  }

  // ------------------------------------------------------------------- searching only the new bytes

  lemma {:induction false} FindSkip(s: string, pat: string, from: nat, at: nat)
    requires from <= at <= |s|
    requires forall i :: from <= i < at ==> !At(s, i, pat)
    ensures Find(s, pat, from) == Find(s, pat, at)
  {
    var r := Find(s, pat, at);
    var q := Find(s, pat, from);
    if q >= 0 { assert At(s, q, pat); }
    if r >= 0 { FindUnique(s, pat, from, r); }
  }

  lemma {:induction false} NotLiveNotAt(s: string, pat: string, from: nat, at: nat)
    requires from <= at <= |s|
    requires forall i :: from <= i < at ==> !Live(s, i, pat)
    ensures forall i :: from <= i < at ==> !At(s, i, pat)
  {
    forall i | from <= i < at ensures !At(s, i, pat) { if At(s, i, pat) { AtIsLive(s, i, pat); } }
  }

  lemma {:induction false} FindEndSkip(s: string, m: Markers, from: nat, at: nat)
    requires from <= at <= |s|
    requires forall i :: from <= i < at ==> EndDead(s, m, i)
    ensures FindEnd(s, m, from) == FindEnd(s, m, at)
  {
    var r := FindEnd(s, m, at);
    var q := FindEnd(s, m, from);
    forall i | from <= i < at ensures !EndAt(s, m, i) { assert EndDead(s, m, i); }
    if r >= 0 { FindEndUnique(s, m, from, r); } else { assert q >= 0 ==> EndAt(s, m, q); }
  }

  /** The safe point seen from any dead position is the same. */
  lemma {:induction false} SafeErrSkip(s: string, m: Markers, from: nat, at: nat)
    requires from <= at <= |s|
    requires forall i :: from <= i < at ==> EndDead(s, m, i)
    ensures SafeErr(s, m, from) == SafeErr(s, m, at)
  {
    var p := m.endPrefix;
    var r := RFind(s, p, at);
    var q := RFind(s, p, from);
    forall i | from <= i < at && At(s, i, p) ensures r >= 0 {
      AtIsLive(s, i, p);
      assert EndDead(s, m, i);
      LastOccurrence(s, p, at, i, m);
    }
    assert r >= 0 ==> At(s, r, p);
    assert q >= 0 ==> At(s, q, p);
    if r < 0 {
      forall i | from <= i < at ensures !Live(s, i, p) {
        assert EndDead(s, m, i);
        assert !At(s, i, p);
        assert forall t :: i < t < at ==> !At(s, t, p);
      }
      FirstLiveSkip(s, p, from, at);
    }
  }

  /** An end prefix at a dead place is followed by another, so there is one at or after `at`. */
  lemma {:induction false} LastOccurrence(s: string, p: string, at: nat, i: nat, m: Markers)
    requires i < at <= |s| && p == m.endPrefix && At(s, i, p)
    requires forall k :: i <= k < at ==> EndDead(s, m, k)
    ensures RFind(s, p, at) >= 0
    decreases at - i
  {
    AtIsLive(s, i, p);
    assert EndDead(s, m, i);
    var t :| i < t && At(s, t, p);
    if t < at { LastOccurrence(s, p, at, t, m); }
  }

  // ----------------------------------------------------------------------- whole runs of the parser

  function Concat(chunks: seq<string>): string {
    if chunks == [] then "" else Concat(chunks[..|chunks| - 1]) + chunks[|chunks| - 1]
  }

  lemma {:induction false} ConcatNothing()
    ensures Concat([]) == ""
  {
  }

  lemma {:induction false} ConcatPush(chunks: seq<string>, chunk: string)
    ensures Concat(chunks + [chunk]) == Concat(chunks) + chunk
  {
    assert (chunks + [chunk])[..|chunks|] == chunks;
  }

  /** However a stream is cut, what was emitted piece by piece, the final state and the status are what
      one look at the whole stream gives. */
  method FeedAll(token: string, chunks: seq<string>) returns (ans: Answer, outs: seq<string>, errs: seq<string>)
    requires IsToken(token)
    ensures ans == OneShot(MarkersOf(token), Concat(chunks))
    ensures |outs| == |errs| == |chunks| && Concat(outs) == ans.out && Concat(errs) == ans.err
  {
    hide MarkersOf, Frame.Valid, OneShot, Concat;
    var frame := new Frame(token);
    outs, errs := [], [];
    ConcatNothing();
    for n := 0 to |chunks|
      invariant frame.Valid() && fresh(frame) && frame.m == MarkersOf(token)
      invariant frame.fed == Concat(chunks[..n]) && frame.Recovered() == OneShot(frame.m, frame.fed)
      invariant |outs| == |errs| == n && Concat(outs) == frame.out && Concat(errs) == frame.err
    {
      var o, e := frame.Feed(chunks[n]);
      assert chunks[..n + 1] == chunks[..n] + [chunks[n]];
      ConcatPush(chunks[..n], chunks[n]);
      ConcatPush(outs, o);
      ConcatPush(errs, e);
      outs, errs := outs + [o], errs + [e];
    }
    assert chunks[..|chunks|] == chunks;
    ans := Answer(frame.state, frame.out, frame.err, frame.returncode);
  }

  /** What is settled is never taken back: it is a prefix of what any longer stream gives. */
  lemma {:induction false} ReadingIsPrefix(m: Markers, w: string, at: nat, ans: Answer)
    requires Bordered(m) && Reading(m, w, at, ans)
    ensures ans.out <= OneShot(m, w).out && ans.err <= OneShot(m, w).err
  {
    hide OneShot, Live, EndDead, At, EndAt, Bordered, Find;
    match ans.state
    case Wait =>
    case Out => OutIsPrefix(m, w, at);
    case Err => ErrIsPrefix(m, w, at);
    case Done =>
  }

  lemma {:induction false} OutIsPrefix(m: Markers, w: string, at: nat)
    requires Find(w, m.start, 0) >= 0 && OutBegins(m, w) <= at <= |w|
    requires forall i :: OutBegins(m, w) <= i < at ==> !Live(w, i, m.mid)
    ensures w[OutBegins(m, w)..at] <= OneShot(m, w).out
  {
    hide Live, At, EndAt, IsFirst, IsFirstEnd, SafeErr, StatusAt;
    var a := OutBegins(m, w);
    NotLiveNotAt(w, m.mid, a, at);
    FindSkip(w, m.mid, a, at);
    FirstLiveSkip(w, m.mid, a, at);
    var j := Find(w, m.mid, a);
    SlicePrefix(w, a, at, if j < 0 then FirstLive(w, m.mid, a) else j);
  }

  lemma {:induction false} ErrIsPrefix(m: Markers, w: string, at: nat)
    requires MidFound(m, w) && ErrBegins(m, w) <= at <= |w|
    requires forall i :: ErrBegins(m, w) <= i < at ==> EndDead(w, m, i)
    ensures OneShot(m, w).out == w[OutBegins(m, w)..ErrBegins(m, w) - |m.mid|]
    ensures w[ErrBegins(m, w)..at] <= OneShot(m, w).err
  {
    hide EndDead, EndAt, At, Live, IsFirst, IsFirstEnd;
    var b := ErrBegins(m, w);
    FindEndSkip(w, m, b, at);
    SafeErrSkip(w, m, b, at);
    var e := FindEnd(w, m, b);
    SlicePrefix(w, b, at, if e < 0 then SafeErr(w, m, b) else e);
  }

  lemma {:induction false} SlicePrefix(w: string, b: nat, at: nat, stop: nat)
    requires b <= at <= stop <= |w|
    ensures w[b..at] <= w[b..stop]
  {
  }

  /** At every moment the bytes emitted so far are a prefix of those the whole stream gives, and a
      finished command stays finished. */
  lemma {:induction false} EmitsArePrefixes(m: Markers, s: string, x: string)
    requires Bordered(m)
    ensures OneShot(m, s).out <= OneShot(m, s + x).out && OneShot(m, s).err <= OneShot(m, s + x).err
    ensures OneShot(m, s).state == Done ==> OneShot(m, s + x) == OneShot(m, s)
  {
    var ans := OneShot(m, s);
    var at := SettledAt(m, s);
    Resume(m, s, x, at, ans);
    ReadingIsPrefix(m, s + x, at, ans);
    if ans.state == Done { DoneIsFinal(m, s, x); }
  }

  lemma {:induction false} SettledAt(m: Markers, s: string) returns (at: nat)
    ensures Settled(m, s, at, OneShot(m, s))
  {
    hide At, Live, EndAt;
    match OneShot(m, s).state
    case Wait => at := 0;
    case Out => at := FirstLive(s, m.mid, OutBegins(m, s));
    case Err => at := SafeErr(s, m, ErrBegins(m, s));
    case Done => at := 0;
  }

  predicate Digits(text: string) { text != "" && forall i :: 0 <= i < |text| ==> IsDigit(text[i]) }

  function EndMarker(m: Markers, digits: string): string { m.endPrefix + digits + END_SUFFIX }

  lemma {:induction false} RunOfDigits(s: string, k: nat, digits: string)
    requires k + |digits| < |s| && s[k..k + |digits|] == digits && !IsDigit(s[k + |digits|])
    requires forall i :: 0 <= i < |digits| ==> IsDigit(digits[i])
    ensures DigitRun(s, k) == |digits|
    decreases |digits|
  {
    if digits != "" {
      assert s[k] == s[k..k + |digits|][0] == digits[0];
      assert s[k + 1..k + 1 + |digits[1..]|] == s[k..k + |digits|][1..];
      RunOfDigits(s, k + 1, digits[1..]);
    }
  }

  /** The end marker the shell prints is one match of the end expression, with its status. */
  lemma {:induction false} EndMarkerMatches(m: Markers, pre: string, digits: string)
    requires Digits(digits)
    ensures var s := pre + EndMarker(m, digits);
            EndAt(s, m, |pre|) && StatusAt(s, m, |pre|) == Value(digits)
  {
    var s := pre + EndMarker(m, digits);
    var k := |pre| + |m.endPrefix|;
    assert s[|pre|..k] == m.endPrefix;
    assert s[k..k + |digits|] == digits;
    assert s[k + |digits|..] == END_SUFFIX && s[k + |digits|] == END_SUFFIX[0];
    RunOfDigits(s, k, digits);
    assert s[k + |digits|..k + |digits| + |END_SUFFIX|] == END_SUFFIX;
  }

  /** A first occurrence in a block is found where the block lies. */
  lemma {:induction false} FindInBlock(pre: string, block: string, post: string, pat: string)
    requires Find(block, pat, 0) >= 0
    ensures Find(pre + block + post, pat, |pre|) == |pre| + Find(block, pat, 0)
  {
    hide At, Find, IsFirst;
    var s := pre + block + post;
    Assoc(pre, block, post);
    DropPrefix(pre, block + post);
    FindExtend(block, post, pat, 0);
    FindShift(s, |pre|, 0, pat);
  }

  lemma {:induction false} FindEndInBlock(m: Markers, pre: string, block: string, post: string)
    requires Bordered(m) && FindEnd(block, m, 0) >= 0
    ensures var e := |pre| + FindEnd(block, m, 0); var s := pre + block + post;
            FindEnd(s, m, |pre|) == e && StatusAt(s, m, e) == StatusAt(block, m, FindEnd(block, m, 0))
  {
    hide EndAt, StatusAt, FindEnd, IsFirstEnd, Bordered;
    var s := pre + block + post;
    Assoc(pre, block, post);
    DropPrefix(pre, block + post);
    FindEndExtend(m, block, post, 0);
    FindEndShift(s, |pre|, 0, m);
    EndShift(s, |pre|, FindEnd(block, m, 0), m);
  }

  /** The same stream, seen as its three blocks; and the outputs inside it. */
  lemma {:induction false} Regroup(s1: string, out: string, mid: string, err: string, end: string, post: string)
    ensures var s := s1 + (out + mid) + (err + end) + post; var b := |s1 + (out + mid)|;
            s1 + out + mid + err + end + post == s
            && "" + s1 + ((out + mid) + ((err + end) + post)) == s
            && s1 + (out + mid) + ((err + end) + post) == s
            && s[|s1|..|s1| + |out|] == out && s[b..b + |err|] == err
  {
    var s2, s3 := out + mid, err + end;
    Assoc(s1, out, mid);
    Assoc(s1 + s2, err, end);
    Assoc(s1 + s2, s3, post);
    Assoc(s1, s2, s3 + post);
    assert "" + s1 == s1;
    assert (s1 + s2)[|s1|..|s1| + |out|] == out;
    assert (s1 + s2 + (s3 + post))[|s1|..|s1| + |out|] == (s1 + s2)[|s1|..|s1| + |out|];
    assert (s3 + post)[..|err|] == s3[..|err|] == err;
    assert (s1 + s2 + (s3 + post))[|s1 + s2|..] == s3 + post;
  }

  /** The round trip of the framing. Noise without an earlier start marker, then the three frames in order,
      then anything, parses to exactly the bytes and the status that were framed - provided neither
      output, followed by the marker that closes it, holds an earlier match of that marker. */
  lemma {:induction false} FramingRoundTrip(m: Markers, noise: string, out: string, err: string, status: nat, post: string)
    requires Bordered(m)
    requires Find(noise + m.start, m.start, 0) == |noise|
    requires Find(out + m.mid, m.mid, 0) == |out|
    requires FindEnd(err + EndMarker(m, Decimal(status)), m, 0) == |err|
    ensures OneShot(m, noise + m.start + out + m.mid + err + EndMarker(m, Decimal(status)) + post)
            == Answer(Done, out, err, Some(status))
  {
    hide OneShot, Bordered, Digits, Find, FindEnd, EndMarker, Value, Decimal;
    DecimalDenotes(status);
    DigitsRoundTrip(m, noise, out, err, Decimal(status), post);
  }

  /** The same for digits of any form, zeros in front included. */
  lemma {:induction false} DigitsRoundTrip(m: Markers, noise: string, out: string, err: string, digits: string, post: string)
    requires Bordered(m) && Digits(digits)
    requires Find(noise + m.start, m.start, 0) == |noise|
    requires Find(out + m.mid, m.mid, 0) == |out|
    requires FindEnd(err + EndMarker(m, digits), m, 0) == |err|
    ensures OneShot(m, noise + m.start + out + m.mid + err + EndMarker(m, digits) + post)
            == Answer(Done, out, err, Some(Value(digits)))
  {
    hide OneShot, Bordered, Digits, At, EndAt, StatusAt, Find, FindEnd, IsFirst, IsFirstEnd, EndMarker, Value;
    var end := EndMarker(m, digits);
    var s1, s2, s3 := noise + m.start, out + m.mid, err + end;
    var s := s1 + s2 + s3 + post;
    Regroup(s1, out, m.mid, err, end, post);
    FindInBlock("", s1, s2 + (s3 + post), m.start);
    FindInBlock(s1, s2, s3 + post, m.mid);
    FindEndInBlock(m, s1 + s2, s3, post);
    EndMarkerMatches(m, err, digits);
    DoneAnswer(m, s);
  }

  /** And only so: a finished stream is noise, the frames around exactly the recovered bytes, and a rest;
      so no byte of a marker is ever emitted. */
  lemma {:induction false} FinishedIsFramed(m: Markers, s: string) returns (noise: string, digits: string, post: string)
    requires OneShot(m, s).state == Done
    ensures Digits(digits)
    ensures var ans := OneShot(m, s);
            s == noise + m.start + ans.out + m.mid + ans.err + EndMarker(m, digits) + post
            && ans.status == Some(Value(digits))
            && Find(noise + m.start, m.start, 0) == |noise|
            && Find(ans.out + m.mid, m.mid, 0) == |ans.out|
            && FindEnd(ans.err + EndMarker(m, digits), m, 0) == |ans.err|
  {
    hide At, EndAt, StatusAt, Find, FindEnd, IsFirst, IsFirstEnd, EndMarker, Digits, Value, OneShot;
    DoneAnswer(m, s);
    var a := OutBegins(m, s);
    var b := ErrBegins(m, s);
    noise, digits, post := Cut(m, s, Find(s, m.start, 0), a, b, FindEnd(s, m, b));
  }

  lemma {:induction false} Cut(m: Markers, s: string, i: int, a: nat, b: nat, e: int)
    returns (noise: string, digits: string, post: string)
    requires i == Find(s, m.start, 0) >= 0 && a == i + |m.start| <= |s|
    requires Find(s, m.mid, a) >= 0 && b == Find(s, m.mid, a) + |m.mid| <= |s|
    requires e == FindEnd(s, m, b) >= 0
    ensures Digits(digits) && StatusAt(s, m, e) == Value(digits)
    ensures s == noise + m.start + s[a..b - |m.mid|] + m.mid + s[b..e] + EndMarker(m, digits) + post
    ensures Find(noise + m.start, m.start, 0) == |noise|
    ensures Find(s[a..b - |m.mid|] + m.mid, m.mid, 0) == b - |m.mid| - a
    ensures FindEnd(s[b..e] + EndMarker(m, digits), m, 0) == e - b
  {
    hide Find, FindEnd, At, EndAt, IsFirst, IsFirstEnd, EndMarker, Digits, Value, StatusAt;
    digits, post := CutEnd(m, s, e);
    noise := s[0..i];
    CutMarker(s, m.start, 0);
    CutMarker(s, m.mid, a);
    CutShape(s, m.start, m.mid, i, a, b, e, EndMarker(m, digits), post);
    FirstEndInBlock(m, s, b, e, digits, post);
  }

  lemma {:induction false} CutShape(s: string, start: string, mid: string, i: nat, a: nat, b: nat, e: nat, end: string, post: string)
    requires a == i + |start| <= b - |mid| && b <= e <= |s| && s[e..] == end + post
    requires s[i..a] == start && s[b - |mid|..b] == mid
    ensures s == s[0..i] + start + s[a..b - |mid|] + mid + s[b..e] + end + post
  {
    Assemble(s, i, a, b - |mid|, b, e, end, post);
  }

  /** The match found is also the first in the block that it closes. */
  lemma {:induction false} FirstEndInBlock(m: Markers, s: string, b: nat, e: nat, digits: string, post: string)
    requires b <= e <= |s| && FindEnd(s, m, b) == e && Digits(digits) && s[e..] == EndMarker(m, digits) + post
    ensures FindEnd(s[b..e] + EndMarker(m, digits), m, 0) == e - b
  {
    hide FindEnd, EndAt, EndMarker, Digits, Value, StatusAt;
    var block := s[b..e] + EndMarker(m, digits);
    EndMarkerMatches(m, s[b..e], digits);
    forall i | 0 <= i < e - b ensures !EndAt(block, m, i) {
      StillEnds(block, post, m, i);
      assert block + post == s[b..] by { assert s[b..] == s[b..e] + s[e..]; }
      EndShift(s, b, i, m);
      NoEarlierEnd(s, m, b, b + i);
    }
    FindEndUnique(block, m, 0, e - b);
  }

  lemma {:induction false} StillEnds(s: string, x: string, m: Markers, i: int)
    ensures EndAt(s, m, i) ==> EndAt(s + x, m, i)
  {
    hide At;
    if EndAt(s, m, i) { EndAtExtend(s, x, m, i); }
  }

  lemma {:induction false} NoEarlierEnd(s: string, m: Markers, from: nat, i: nat)
    requires from <= |s| && from <= i < FindEnd(s, m, from)
    ensures !EndAt(s, m, i)
  {
    hide EndAt;
  }

  /** What lies before a found marker holds no earlier one. */
  lemma {:induction false} CutMarker(s: string, pat: string, from: nat)
    requires from <= |s| && Find(s, pat, from) >= 0
    ensures var i := Find(s, pat, from);
            s[i..i + |pat|] == pat && s[from..i] + pat == s[from..i + |pat|] && Find(s[from..i] + pat, pat, 0) == i - from
  {
    hide Find, At, IsFirst;
    var i := Find(s, pat, from);
    FindSlice(s, pat, from);
    FirstInPrefix(s, pat, from, i, i + |pat|);
    SliceJoin(s, from, i, i + |pat|);
  }

  lemma {:induction false} FindSlice(s: string, pat: string, from: nat)
    requires from <= |s| && Find(s, pat, from) >= 0
    ensures s[Find(s, pat, from)..Find(s, pat, from) + |pat|] == pat
  {
  }

  lemma {:induction false} Assemble(s: string, i: nat, a: nat, j: nat, b: nat, e: nat, end: string, post: string)
    requires i <= a <= j <= b <= e <= |s| && s[e..] == end + post
    ensures s == s[0..i] + s[i..a] + s[a..j] + s[j..b] + s[b..e] + end + post
  {
    SliceJoin(s, 0, i, a);
    SliceJoin(s, 0, a, j);
    SliceJoin(s, 0, j, b);
    SliceJoin(s, 0, b, e);
    SliceJoin(s, 0, e, |s|);
    Assoc(s[0..e], end, post);
  }

  lemma {:induction false} CutEnd(m: Markers, s: string, e: int) returns (digits: string, post: string)
    requires EndAt(s, m, e)
    ensures Digits(digits) && StatusAt(s, m, e) == Value(digits)
    ensures s[e..] == EndMarker(m, digits) + post
  {
    hide EndAt, At, StatusAt, Value, Digits, DigitRun;
    PrefixFits(m, s, e);
    var k := e + |m.endPrefix|;
    var d := k + DigitRun(s, k);
    EndParts(m, s, e, k, d);
    var z := d + |END_SUFFIX|;
    digits, post := s[k..d], s[z..];
    EndShape(s, e, k, d, z);
  }

  lemma {:induction false} PrefixFits(m: Markers, s: string, e: int)
    requires EndAt(s, m, e)
    ensures 0 <= e && e + |m.endPrefix| <= |s|
  {
  }

  /** The parts of a match: its prefix, its digits, its suffix. */
  lemma {:induction false} EndParts(m: Markers, s: string, e: nat, k: nat, d: nat)
    requires EndAt(s, m, e) && k == e + |m.endPrefix| <= |s| && d == k + DigitRun(s, k)
    ensures d + |END_SUFFIX| <= |s| && s[e..k] == m.endPrefix && s[d..d + |END_SUFFIX|] == END_SUFFIX
    ensures Digits(s[k..d]) && StatusAt(s, m, e) == Value(s[k..d])
  {
    hide Value;
    RunIsMaximal(s, k);
    var digits := s[k..d];
    assert forall i :: 0 <= i < |digits| ==> digits[i] == s[k + i];
  }

  lemma {:induction false} EndShape(s: string, e: nat, k: nat, d: nat, z: nat)
    requires e <= k <= d <= z <= |s|
    ensures s[e..] == s[e..k] + s[k..d] + s[d..z] + s[z..]
  {
    SliceJoin(s, e, k, d);
    SliceJoin(s, e, d, z);
    SliceJoin(s, e, z, |s|);
  }

  /** A first occurrence is also the first in the slice that ends with it. */
  lemma {:induction false} FirstInPrefix(s: string, pat: string, from: nat, i: int, to: nat)
    requires from <= |s| && i == Find(s, pat, from) >= 0 && to == i + |pat|
    ensures Find(s[from..to], pat, 0) == i - from
  {
    var t := s[from..to];
    NoEarlier(s, pat, from, i, to);
    SliceShift(s[from..to], i - from, 0, |pat|);
    DropMore(s[..to], from, i - from);
    assert At(t, i - from, pat);
    hide At, Find;
    FindUnique(t, pat, 0, i - from);
  }

  lemma {:induction false} NoEarlier(s: string, pat: string, from: nat, i: int, to: nat)
    requires from <= |s| && i == Find(s, pat, from) >= 0 && to == i + |pat|
    ensures forall k :: 0 <= k < i - from ==> !At(s[from..to], k, pat)
  {
    hide At;
    var t := s[from..to];
    assert s[from..] == t + s[to..];
    forall k | 0 <= k < i - from ensures !At(t, k, pat) {
      Extend(t, s[to..], k, pat);
      Shift(s, from, k, pat);
      assert !At(s, from + k, pat);
    }
  }
}
