/**
 * The java.lang.String operations the plugin relies on: `trim` and a
 * `replaceAll` whose pattern is matched literally.
 */
module Text {

  /** `String.trim` strips every character whose code is at most U+0020. */
  predicate IsTrimmable(c: char) {
    c <= ' '
  }

  /** Every character of `s` is one `trim` strips. */
  predicate AllTrimmable(s: string) {
    s == [] || (IsTrimmable(s[0]) && AllTrimmable(s[1..]))
  }

  lemma {:induction false} AllTrimmableConcat(a: string, b: string)
    ensures AllTrimmable(a + b) <==> AllTrimmable(a) && AllTrimmable(b)
  {
    if a != [] {
      assert (a + b)[0] == a[0] && (a + b)[1..] == a[1..] + b;
      AllTrimmableConcat(a[1..], b);
    } else {
      assert a + b == b;
    }
  }

  /** `t` occurs in `s` as a contiguous slice starting at `start`. */
  predicate IsSliceAt(t: string, s: string, start: nat) {
    start + |t| <= |s| && s[start..start + |t|] == t
  }

  /** `s` without its leading run of trimmable characters. */
  function TrimStart(s: string): (r: string)
    ensures |r| <= |s| && r == s[|s| - |r|..]
    ensures r == [] || !IsTrimmable(r[0])
    ensures AllTrimmable(s[..|s| - |r|])
  {
    if |s| > 0 && IsTrimmable(s[0]) then
      var r := TrimStart(s[1..]);
      var dropped := s[..|s| - |r|];
      assert dropped[0] == s[0] && dropped[1..] == s[1..][..|s[1..]| - |r|];
      r
    else
      assert s[..0] == [];
      s
  }

  /** `s` without its trailing run of trimmable characters. */
  function TrimEnd(s: string): (r: string)
    ensures |r| <= |s| && r == s[..|r|]
    ensures r == [] || !IsTrimmable(r[|r| - 1])
    ensures AllTrimmable(s[|r|..])
  {
    if |s| > 0 && IsTrimmable(s[|s| - 1]) then
      var last := s[|s| - 1];
      var r := TrimEnd(s[..|s| - 1]);
      assert s[|r|..] == s[..|s| - 1][|r|..] + [last];
      assert AllTrimmable([last]) by { assert [last][1..] == []; }
      AllTrimmableConcat(s[..|s| - 1][|r|..], [last]);
      r
    else
      assert s[|s|..] == [];
      s
  }

  /**
   * `String.trim`: the slice of `s` left once its leading and its trailing
   * characters at or below the space are dropped. The slice starts where
   * `TrimStart(s)`, the rest of `s` after its leading blanks, begins; what
   * precedes it and what follows it in `s` are blanks only, and the slice
   * neither starts nor ends with one.
   */
  function Trim(s: string): (r: string)
    ensures IsSliceAt(r, s, |s| - |TrimStart(s)|)
    ensures AllTrimmable(s[..|s| - |TrimStart(s)|]) && AllTrimmable(TrimStart(s)[|r|..])
    ensures r == [] || (!IsTrimmable(r[0]) && !IsTrimmable(r[|r| - 1]))
  {
    PrefixOfSuffix(s, TrimStart(s), TrimEnd(TrimStart(s)));
    TrimEnd(TrimStart(s))
  }

  /**
   * A prefix `r` of a suffix `left` of `s` is a slice of `s`; it starts as
   * `left` does, and what follows it in `s` is what follows it in `left`.
   */
  lemma PrefixOfSuffix(s: string, left: string, r: string)
    requires |left| <= |s| && left == s[|s| - |left|..]
    requires |r| <= |left| && r == left[..|r|]
    requires left == [] || !IsTrimmable(left[0])
    ensures IsSliceAt(r, s, |s| - |left|)
    ensures s[|s| - |left| + |r|..] == left[|r|..]
    ensures r == [] || !IsTrimmable(r[0])
  {
    SliceOfSuffix(s, |s| - |left|, |r|);
    assert r == [] || r[0] == left[0];
  }

  lemma SliceOfSuffix(s: string, i: nat, j: nat)
    requires i + j <= |s|
    ensures s[i..][..j] == s[i..i + j]
  {
  }

  lemma {:induction false} TrimStartSkipsPrefix(ws: string, s: string)
    requires AllTrimmable(ws)
    ensures TrimStart(ws + s) == TrimStart(s)
  {
    if ws == [] {
      assert ws + s == s;
    } else {
      assert (ws + s)[0] == ws[0] && (ws + s)[1..] == ws[1..] + s;
      TrimStartSkipsPrefix(ws[1..], s);
    }
  }

  lemma {:induction false} TrimEndSkipsSuffix(s: string, ws: string)
    requires AllTrimmable(ws)
    ensures TrimEnd(s + ws) == TrimEnd(s)
  {
    if ws == [] {
      assert s + ws == s;
    } else {
      var init := ws[..|ws| - 1];
      assert ws == init + [ws[|ws| - 1]];
      AllTrimmableConcat(init, [ws[|ws| - 1]]);
      assert (s + ws)[|s + ws| - 1] == ws[|ws| - 1];
      assert (s + ws)[..|s + ws| - 1] == s + init;
      TrimEndSkipsSuffix(s, init);
    }
  }

  /** Stripping the front of `s + t` stops inside `s` unless `s` is all blanks. */
  lemma {:induction false} TrimStartOfConcat(s: string, t: string)
    ensures TrimStart(s + t) == if AllTrimmable(s) then TrimStart(t) else TrimStart(s) + t
  {
    if AllTrimmable(s) {
      TrimStartSkipsPrefix(s, t);
    } else {
      assert (s + t)[0] == s[0];
      if IsTrimmable(s[0]) {
        assert (s + t)[1..] == s[1..] + t;
        TrimStartOfConcat(s[1..], t);
      }
    }
  }

  /** Nothing is left of a string of blanks once its front is stripped. */
  lemma TrimStartOfBlanks(ws: string)
    requires AllTrimmable(ws)
    ensures TrimStart(ws) == []
  {
    TrimStartSkipsPrefix(ws, []);
    assert ws + [] == ws;
  }

  /** Stripping the front of a string with blanks on both sides. */
  lemma TrimStartOfSurrounded(ws1: string, s: string, ws2: string)
    requires AllTrimmable(ws1) && AllTrimmable(ws2)
    ensures TrimStart(ws1 + s + ws2) == if AllTrimmable(s) then [] else TrimStart(s) + ws2
  {
    assert ws1 + s + ws2 == ws1 + (s + ws2);
    TrimStartSkipsPrefix(ws1, s + ws2);
    TrimStartOfConcat(s, ws2);
    if AllTrimmable(s) {
      TrimStartOfBlanks(ws2);
    }
  }

  /** Whitespace around a string never changes what `trim` returns. */
  lemma TrimIgnoresSurroundingBlanks(ws1: string, s: string, ws2: string)
    requires AllTrimmable(ws1) && AllTrimmable(ws2)
    ensures Trim(ws1 + s + ws2) == Trim(s)
  {
    var left := TrimStart(ws1 + s + ws2);
    TrimStartOfSurrounded(ws1, s, ws2);
    if AllTrimmable(s) {
      TrimStartOfBlanks(s);
      assert left == [] == TrimStart(s);
    } else {
      assert left == TrimStart(s) + ws2;
      TrimEndSkipsSuffix(TrimStart(s), ws2);
    }
    assert TrimEnd(left) == TrimEnd(TrimStart(s));
  }

  /** `t` occurs somewhere in `s` as a contiguous slice. */
  predicate Occurs(t: string, s: string)
    decreases |s|
  {
    |t| <= |s| && (s[..|t|] == t || (|s| > 0 && Occurs(t, s[1..])))
  }

  /**
   * `s.replaceAll(pat, rep)` for a pattern without regex metacharacters:
   * scanning from the left, each occurrence of `pat` that does not overlap
   * an earlier replaced one becomes `rep`. What this means is stated by the
   * lemmas below: text without the pattern is kept, and each occurrence is
   * replaced in turn.
   */
  function ReplaceAll(s: string, pat: string, rep: string): (r: string)
    requires pat != []
    decreases |s|
  {
    if |s| < |pat| then s
    else if s[..|pat|] == pat then
      rep + ReplaceAll(s[|pat|..], pat, rep)
    else [s[0]] + ReplaceAll(s[1..], pat, rep)
  }

  /** A string in which the pattern does not occur is left as it is. */
  lemma {:induction false} ReplaceAllWithoutOccurrence(s: string, pat: string, rep: string)
    requires pat != [] && !Occurs(pat, s)
    ensures ReplaceAll(s, pat, rep) == s
  {
    if |s| >= |pat| {
      ReplaceAllWithoutOccurrence(s[1..], pat, rep);
    }
  }

  /** A string that lacks the pattern's first character is left as it is. */
  lemma {:induction false} ReplaceAllWithoutLead(s: string, pat: string, rep: string)
    requires pat != []
    ensures pat[0] !in s ==> ReplaceAll(s, pat, rep) == s
  {
    if pat[0] !in s && |s| >= |pat| {
      assert s[..|pat|][0] == s[0];
      ReplaceAllWithoutLead(s[1..], pat, rep);
    }
  }

  /**
   * When the pattern's lead character does not recur inside the pattern, a
   * prefix in which the pattern does not occur cannot start a match that
   * runs into the following occurrence.
   */
  lemma NoEarlyMatch(a: string, pat: string, b: string)
    requires a != [] && pat != [] && pat[0] !in pat[1..] && !Occurs(pat, a)
    ensures |a + pat + b| >= |pat| && (a + pat + b)[..|pat|] != pat
  {
    var s := a + pat + b;
    if |a| >= |pat| {
      assert s[..|pat|] == a[..|pat|];
    } else {
      assert s[..|pat|][|a|] == pat[0];
      assert pat[1..][|a| - 1] == pat[|a|];
    }
  }

  /** Before the occurrence, the scan copies the first character and moves on. */
  lemma CopyFirst(a: string, pat: string, rep: string, b: string)
    requires a != [] && pat != [] && pat[0] !in pat[1..] && !Occurs(pat, a)
    ensures !Occurs(pat, a[1..])
    ensures ReplaceAll(a + pat + b, pat, rep) == [a[0]] + ReplaceAll(a[1..] + pat + b, pat, rep)
  {
    NoEarlyMatch(a, pat, b);
    var s := a + pat + b;
    assert s[0] == a[0] && s[1..] == a[1..] + pat + b;
  }

  /** A prefix in which the pattern does not occur is copied; the next occurrence is replaced. */
  lemma {:induction false} ReplaceAllAtFirstOccurrence(a: string, pat: string, rep: string, b: string)
    requires pat != [] && pat[0] !in pat[1..] && !Occurs(pat, a)
    ensures ReplaceAll(a + pat + b, pat, rep) == a + rep + ReplaceAll(b, pat, rep)
  {
    var s := a + pat + b;
    if a == [] {
      assert s == pat + b && s[..|pat|] == pat && s[|pat|..] == b;
    } else {
      CopyFirst(a, pat, rep, b);
      ReplaceAllAtFirstOccurrence(a[1..], pat, rep, b);
      var tail := ReplaceAll(b, pat, rep);
      assert [a[0]] + (a[1..] + rep + tail) == a + rep + tail;
    }
  }

  /** `pieces` glued together with `sep` between neighbours; used to state where a pattern occurs. */
  function JoinWith(pieces: seq<string>, sep: string): string
    requires |pieces| > 0
  {
    if |pieces| == 1 then pieces[0] else pieces[0] + sep + JoinWith(pieces[1..], sep)
  }

  /**
   * When the text is cut at every occurrence of a pattern whose lead
   * character does not recur inside it, every occurrence becomes `rep` and
   * the text between them is kept.
   */
  lemma {:induction false} ReplaceAllEveryOccurrence(pieces: seq<string>, pat: string, rep: string)
    requires |pieces| > 0 && pat != [] && pat[0] !in pat[1..]
    requires forall i :: 0 <= i < |pieces| ==> !Occurs(pat, pieces[i])
    ensures ReplaceAll(JoinWith(pieces, pat), pat, rep) == JoinWith(pieces, rep)
  {
    if |pieces| == 1 {
      ReplaceAllWithoutOccurrence(pieces[0], pat, rep);
    } else {
      ReplaceAllAtFirstOccurrence(pieces[0], pat, rep, JoinWith(pieces[1..], pat));
      ReplaceAllEveryOccurrence(pieces[1..], pat, rep);
    }
  }
}
