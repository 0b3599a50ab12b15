/** Occurrences of a pattern in a byte stream that is still arriving.

    A byte is modelled as the character with that code, so literals read as in the program. `Live` is
    the notion the incremental parsers need: a position where a pattern occurs, or may still occur once
    more bytes have arrived. */
module Search {

  /** `pat` occurs in `s` at `i`. */
  predicate At(s: string, i: int, pat: string) {
    0 <= i && i + |pat| <= |s| && s[i..i + |pat|] == pat
  }

  /** `pat` occurs at `i`, or `s` ends inside what may become an occurrence at `i`. */
  predicate Live(s: string, i: int, pat: string) {
    0 <= i <= |s| &&
    (if i + |pat| <= |s| then s[i..i + |pat|] == pat else s[i..] == pat[..|s| - i])
  }

  /** `r` is the first occurrence of `pat` at or after `from`, or -1 when there is none. */
  ghost predicate IsFirst(s: string, pat: string, from: nat, r: int) {
    if r < 0 then forall i :: from <= i ==> !At(s, i, pat)
    else from <= r && At(s, r, pat) && forall i :: from <= i < r ==> !At(s, i, pat)
  }

  /** `r` is the last occurrence of `pat` at or after `from`, or -1 when there is none. */
  ghost predicate IsLast(s: string, pat: string, from: nat, r: int) {
    if r < 0 then forall i :: from <= i ==> !At(s, i, pat)
    else from <= r && At(s, r, pat) && forall i :: r < i ==> !At(s, i, pat)
  }

  function Find(s: string, pat: string, from: nat): (r: int)
    requires from <= |s|
    ensures -1 <= r && (r >= 0 ==> from <= r && r + |pat| <= |s|)
    ensures IsFirst(s, pat, from, r)
    decreases |s| - from
  {
    if At(s, from, pat) then from
    else if from == |s| then -1
    else Find(s, pat, from + 1)
  }

  function RFind(s: string, pat: string, from: nat): (r: int)
    requires from <= |s|
    ensures -1 <= r && (r >= 0 ==> from <= r && r + |pat| <= |s|)
    ensures IsLast(s, pat, from, r)
    decreases |s| - from
  {
    if from == |s| then (if At(s, from, pat) then from else -1)
    else
      var later := RFind(s, pat, from + 1);
      if later >= 0 then later else if At(s, from, pat) then from else -1
  }

  /** `r` is the first position at or after `from` where `pat` occurs or may still occur. */
  ghost predicate IsFirstLive(s: string, pat: string, from: nat, r: nat) {
    from <= r && Live(s, r, pat) && forall i :: from <= i < r ==> !Live(s, i, pat)
  }

  function FirstLive(s: string, pat: string, from: nat): (r: nat)
    requires from <= |s|
    ensures from <= r <= |s|
    ensures IsFirstLive(s, pat, from, r)
    decreases |s| - from
  {
    if Live(s, from, pat) then from else FirstLive(s, pat, from + 1)
  }

  lemma {:induction false} AtBounds(s: string, i: int, pat: string)
    requires At(s, i, pat)
    ensures 0 <= i && i + |pat| <= |s|
  {
  }

  lemma {:induction false} AtIsLive(s: string, i: int, pat: string)
    requires At(s, i, pat)
    ensures Live(s, i, pat)
  {
  }

  /** The first occurrence is determined by what it must satisfy. */
  lemma {:induction false} FindUnique(s: string, pat: string, from: nat, r: int)
    requires from <= r && At(s, r, pat)
    requires forall i :: from <= i < r ==> !At(s, i, pat)
    ensures from <= |s| && Find(s, pat, from) == r
  {
  }

  /** An occurrence stays one, and a dead position stays dead, as bytes arrive. */
  lemma {:induction false} Extend(s: string, t: string, i: int, pat: string)
    ensures At(s, i, pat) ==> At(s + t, i, pat)
    ensures At(s + t, i, pat) && i + |pat| <= |s| ==> At(s, i, pat)
    ensures 0 <= i <= |s| && Live(s + t, i, pat) ==> Live(s, i, pat)
  {
    if 0 <= i && i + |pat| <= |s| {
      assert (s + t)[i..i + |pat|] == s[i..i + |pat|];
    } else if 0 <= i <= |s| && Live(s + t, i, pat) {
      var n := |s| - i;
      assert s[i..] == (s + t)[i..][..n];
      if i + |pat| <= |s + t| {
        assert (s + t)[i..][..n] == (s + t)[i..i + |pat|][..n];
      } else {
        assert (s + t)[i..][..n] == pat[..|s + t| - i][..n];
      }
    }
  }

  /** A first occurrence is not moved by bytes that arrive later. */
  lemma {:induction false} FindExtend(s: string, t: string, pat: string, from: nat)
    requires from <= |s|
    ensures Find(s, pat, from) >= 0 ==> Find(s + t, pat, from) == Find(s, pat, from)
  {
    var r := Find(s, pat, from);
    if r >= 0 {
      forall i | from <= i < r ensures !At(s + t, i, pat) { Extend(s, t, i, pat); }
      Extend(s, t, r, pat);
      FindUnique(s + t, pat, from, r);
    }
  }

  /** Dropping the first `base` bytes shifts every position. */
  lemma {:induction false} Shift(s: string, base: nat, i: nat, pat: string)
    requires base <= |s|
    ensures At(s[base..], i, pat) == At(s, base + i, pat)
    ensures Live(s[base..], i, pat) == Live(s, base + i, pat)
  {
    if base + i + |pat| <= |s| {
      assert s[base..][i..i + |pat|] == s[base + i..base + i + |pat|];
    } else if base + i <= |s| {
      assert s[base..][i..] == s[base + i..];
    }
  }

  lemma {:induction false} FindShift(s: string, base: nat, from: nat, pat: string)
    requires base + from <= |s|
    ensures var r := Find(s[base..], pat, from); var q := Find(s, pat, base + from);
            if r < 0 then q < 0 else q == base + r
  {
    var r := Find(s[base..], pat, from);
    forall i: int | base + from <= i ensures At(s, i, pat) == At(s[base..], i - base, pat) {
      Shift(s, base, i - base, pat);
    }
    if r < 0 {
      forall i: int | base + from <= i ensures !At(s, i, pat) { assert !At(s[base..], i - base, pat); }
    } else {
      forall i: int | base + from <= i < base + r ensures !At(s, i, pat) { assert !At(s[base..], i - base, pat); }
      FindUnique(s, pat, base + from, base + r);
    }
  }

  lemma {:induction false} RFindShift(s: string, base: nat, from: nat, pat: string)
    requires base + from <= |s|
    ensures var r := RFind(s[base..], pat, from); var q := RFind(s, pat, base + from);
            if r < 0 then q < 0 else q == base + r
  {
    var r := RFind(s[base..], pat, from);
    var q := RFind(s, pat, base + from);
    forall i: int | base + from <= i ensures At(s, i, pat) == At(s[base..], i - base, pat) {
      Shift(s, base, i - base, pat);
    }
    if q >= 0 { assert At(s[base..], q - base, pat); }
    if r >= 0 { assert At(s, base + r, pat); }
  }

  /** A pattern that does not occur before a known place, not even across the border to it. */
  lemma {:induction false} FindAfter(pre: string, pat: string, post: string)
    requires forall i :: 0 <= i < |pre| ==> !Live(pre, i, pat)
    ensures Find(pre + pat + post, pat, 0) == |pre|
  {
    var s := pre + pat + post;
    forall i | 0 <= i < |pre| ensures !At(s, i, pat) {
      Extend(pre, pat + post, i, pat);
      assert pre + (pat + post) == s;
      if At(s, i, pat) { AtIsLive(s, i, pat); }
    }
    assert s[|pre|..|pre| + |pat|] == pat;
    FindUnique(s, pat, 0, |pre|);
  }

  // Sequence facts, stated apart so that larger proofs need no reasoning about positions.

  lemma {:induction false} Assoc(a: string, b: string, c: string)
    ensures a + b + c == a + (b + c)
  {
  }

  lemma {:induction false} DropPrefix(a: string, b: string)
    ensures (a + b)[|a|..] == b && (a + b)[..|a|] == a
  {
  }

  lemma {:induction false} DropMore(s: string, base: nat, pos: nat)
    requires base + pos <= |s|
    ensures s[base..][pos..] == s[base + pos..]
  {
  }

  lemma {:induction false} SliceShift(s: string, base: nat, i: nat, j: nat)
    requires i <= j && base + j <= |s|
    ensures s[base..][i..j] == s[base + i..base + j]
  {
  }

  lemma {:induction false} SliceExtend(s: string, x: string, i: nat, j: nat)
    requires i <= j <= |s|
    ensures (s + x)[i..j] == s[i..j]
  {
  }

  lemma {:induction false} SliceJoin(s: string, i: nat, j: nat, k: nat)
    requires i <= j <= k <= |s|
    ensures s[i..j] + s[j..k] == s[i..k]
  {
  }

  lemma {:induction false} TailExtend(s: string, x: string, base: nat)
    requires base <= |s|
    ensures (s + x)[base..] == s[base..] + x
  {
  }
}
