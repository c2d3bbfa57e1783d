/**
 * The string steps applied to the renderer's output:
 * `replace(/\n{3,}/g, "\n\n")`, then `trim()`, and the denser variant
 * `replace(/\n\n/gi, "\n")` made from the result.
 */
module PostProcessing {

  // ---------------------------------------------------------------------
  // Runs of newlines
  // ---------------------------------------------------------------------

  /** Three newlines in a row start at index `i`. */
  predicate TripleAt(s: string, i: int)
    requires 0 <= i && i + 3 <= |s|
  {
    s[i] == '\n' && s[i + 1] == '\n' && s[i + 2] == '\n'
  }

  /** Two newlines in a row start at index `i`. */
  predicate DoubleAt(s: string, i: int)
    requires 0 <= i && i + 2 <= |s|
  {
    s[i] == '\n' && s[i + 1] == '\n'
  }

  /** No run of three or more newlines. */
  predicate NoTriple(s: string) {
    forall i :: 0 <= i && i + 3 <= |s| ==> !TripleAt(s, i)
  }

  /** No two newlines in a row. */
  predicate NoDouble(s: string) {
    forall i :: 0 <= i && i + 2 <= |s| ==> !DoubleAt(s, i)
  }

  /** The length of the run of newlines `s` starts with. */
  function LeadingNewlines(s: string): (k: nat)
    ensures k <= |s|
    ensures forall i :: 0 <= i < k ==> s[i] == '\n'
    ensures k < |s| ==> s[k] != '\n'
  {
    if s != [] && s[0] == '\n' then 1 + LeadingNewlines(s[1..]) else 0
  }

  /**
   * `replace(/\n{3,}/g, "\n\n")`: scanning left to right, every maximal run
   * of three or more newlines is replaced by two; shorter runs stay.
   */
  function CollapseNewlines(s: string): (r: string)
    ensures |r| <= |s|
    ensures s != [] && s[0] != '\n' ==> r != [] && r[0] == s[0]
    decreases |s|
  {
    if s == [] then []
    else if s[0] != '\n' then [s[0]] + CollapseNewlines(s[1..])
    else
      var k := LeadingNewlines(s);
      (if k >= 3 then "\n\n" else s[..k]) + CollapseNewlines(s[k..])
  }

  /** After the collapse no run of three newlines is left. */
  lemma {:induction false} CollapseHasNoTriple(s: string)
    ensures NoTriple(CollapseNewlines(s))
    decreases |s|
  {
    var r := CollapseNewlines(s);
    if s == [] {
    } else if s[0] != '\n' {
      var rest := CollapseNewlines(s[1..]);
      CollapseHasNoTriple(s[1..]);
      assert r == [s[0]] + rest;
      forall i | 0 <= i && i + 3 <= |r| ensures !TripleAt(r, i) {
        if i > 0 {
          assert !TripleAt(rest, i - 1);
        }
      }
    } else {
      var k := LeadingNewlines(s);
      var chunk: string := if k >= 3 then "\n\n" else s[..k];
      var rest := CollapseNewlines(s[k..]);
      CollapseHasNoTriple(s[k..]);
      assert r == chunk + rest;
      assert |chunk| <= 2;
      forall i | 0 <= i && i + 3 <= |r| ensures !TripleAt(r, i) {
        if i >= |chunk| {
          assert !TripleAt(rest, i - |chunk|);
        } else {
          assert r[|chunk|] == rest[0] == s[k];
        }
      }
    }
  }

  /** A string with no run of three newlines is left as it is. */
  lemma {:induction false} CollapseKeepsShortRuns(s: string)
    requires NoTriple(s)
    ensures CollapseNewlines(s) == s
    decreases |s|
  {
    if s == [] {
    } else if s[0] != '\n' {
      NoTripleSuffix(s, 1);
      CollapseKeepsShortRuns(s[1..]);
    } else {
      if |s| >= 3 {
        assert !TripleAt(s, 0);
      }
      var k := LeadingNewlines(s);
      NoTripleSuffix(s, k);
      CollapseKeepsShortRuns(s[k..]);
      assert s == s[..k] + s[k..];
    }
  }

  /** Collapsing twice is collapsing once. */
  lemma CollapseIdempotent(s: string)
    ensures CollapseNewlines(CollapseNewlines(s)) == CollapseNewlines(s)
  {
    CollapseHasNoTriple(s);
    CollapseKeepsShortRuns(CollapseNewlines(s));
  }

  lemma NoTripleSuffix(s: string, k: nat)
    requires NoTriple(s) && k <= |s|
    ensures NoTriple(s[k..])
  {
    forall i | 0 <= i && i + 3 <= |s[k..]| ensures !TripleAt(s[k..], i) {
      assert !TripleAt(s, i + k);
    }
  }

  lemma NoTriplePrefix(s: string, k: nat)
    requires NoTriple(s) && k <= |s|
    ensures NoTriple(s[..k])
  {
    forall i | 0 <= i && i + 3 <= |s[..k]| ensures !TripleAt(s[..k], i) {
      assert !TripleAt(s, i);
    }
  }

  /** The characters other than newlines, in order. */
  function WithoutNewlines(s: string): (r: string)
    ensures forall i :: 0 <= i < |r| ==> r[i] != '\n'
  {
    if s == [] then []
    else (if s[0] == '\n' then [] else [s[0]]) + WithoutNewlines(s[1..])
  }

  lemma {:induction false} WithoutNewlinesAppend(a: string, b: string)
    ensures WithoutNewlines(a + b) == WithoutNewlines(a) + WithoutNewlines(b)
    decreases |a|
  {
    if a == [] {
      assert a + b == b;
    } else {
      assert (a + b)[1..] == a[1..] + b;
      WithoutNewlinesAppend(a[1..], b);
    }
  }

  lemma {:induction false} WithoutNewlinesOfNewlines(s: string)
    requires forall i :: 0 <= i < |s| ==> s[i] == '\n'
    ensures WithoutNewlines(s) == []
    decreases |s|
  {
    if s != [] {
      WithoutNewlinesOfNewlines(s[1..]);
    }
  }

  /** The collapse only ever removes newlines: every other character survives, in order. */
  lemma {:induction false} CollapseKeepsText(s: string)
    ensures WithoutNewlines(CollapseNewlines(s)) == WithoutNewlines(s)
    decreases |s|
  {
    if s == [] {
    } else if s[0] != '\n' {
      CollapseKeepsText(s[1..]);
      WithoutNewlinesAppend([s[0]], CollapseNewlines(s[1..]));
    } else {
      var k := LeadingNewlines(s);
      var chunk: string := if k >= 3 then "\n\n" else s[..k];
      CollapseKeepsText(s[k..]);
      WithoutNewlinesAppend(chunk, CollapseNewlines(s[k..]));
      WithoutNewlinesAppend(s[..k], s[k..]);
      assert s == s[..k] + s[k..];
      WithoutNewlinesOfNewlines(chunk);
      WithoutNewlinesOfNewlines(s[..k]);
    }
  }

  /**
   * `r` is `t` with newlines inserted: reading `r` from the left, each
   * character is either an added newline or the next character of `t`, and
   * all of `t` is used up.
   */
  predicate NlAdded(t: string, r: string)
    decreases |r|
  {
    if r == [] then t == []
    else (r[0] == '\n' && NlAdded(t, r[1..])) || (t != [] && r[0] == t[0] && NlAdded(t[1..], r[1..]))
  }

  lemma {:induction false} NlAddedRefl(t: string)
    ensures NlAdded(t, t)
    decreases |t|
  {
    if t != [] {
      NlAddedRefl(t[1..]);
    }
  }

  lemma {:induction false} NlAddedOfNewlines(r: string)
    requires forall i :: 0 <= i < |r| ==> r[i] == '\n'
    ensures NlAdded([], r)
    decreases |r|
  {
    if r != [] {
      NlAddedOfNewlines(r[1..]);
    }
  }

  /** Insertions into two texts give an insertion into their concatenation. */
  lemma {:induction false} NlAddedAppend(a: string, b: string, c: string, d: string)
    requires NlAdded(a, b) && NlAdded(c, d)
    ensures NlAdded(a + c, b + d)
    decreases |b|
  {
    if b == [] {
      assert a + c == c && b + d == d;
    } else {
      assert (b + d)[0] == b[0] && (b + d)[1..] == b[1..] + d;
      if b[0] == '\n' && NlAdded(a, b[1..]) {
        NlAddedAppend(a, b[1..], c, d);
      } else {
        NlAddedAppend(a[1..], b[1..], c, d);
        assert (a + c)[0] == a[0] && (a + c)[1..] == a[1..] + c;
      }
    }
  }

  /** An insertion of newlines keeps every other character, in order. */
  lemma {:induction false} NlAddedKeepsText(t: string, r: string)
    requires NlAdded(t, r)
    ensures WithoutNewlines(r) == WithoutNewlines(t)
    decreases |r|
  {
    if r != [] {
      if r[0] == '\n' && NlAdded(t, r[1..]) {
        NlAddedKeepsText(t, r[1..]);
      } else {
        NlAddedKeepsText(t[1..], r[1..]);
      }
    }
  }

  /** A run of `k` newlines. */
  function Nl(k: nat): (r: string)
    ensures |r| == k && forall i :: 0 <= i < k ==> r[i] == '\n'
  {
    seq(k, _ => '\n')
  }

  /** A run of `k` newlines in front of a text that does not start with one has length `k`. */
  lemma LeadingNewlinesOfRun(k: nat, t: string)
    requires t == [] || t[0] != '\n'
    ensures LeadingNewlines(Nl(k) + t) == k
    ensures (Nl(k) + t)[..k] == Nl(k) && (Nl(k) + t)[k..] == t
  {
    var s := Nl(k) + t;
    assert k < |s| ==> s[k] == t[0];
    assert s[..k] == Nl(k);
    assert s[k..] == t;
  }

  /** The collapse of a maximal run: three or more newlines become exactly two, fewer stay. */
  lemma CollapseRun(k: nat, t: string)
    requires t == [] || t[0] != '\n'
    ensures CollapseNewlines(Nl(k) + t) == (if k >= 3 then "\n\n" else Nl(k)) + CollapseNewlines(t)
  {
    LeadingNewlinesOfRun(k, t);
    if k == 0 {
      assert Nl(k) + t == t;
      assert Nl(k) + CollapseNewlines(t) == CollapseNewlines(t);
    }
  }

  /** A character other than a newline is copied and the collapse goes on after it. */
  lemma CollapseChar(c: char, t: string)
    requires c != '\n'
    ensures CollapseNewlines([c] + t) == [c] + CollapseNewlines(t)
  {
    assert ([c] + t)[1..] == t;
  }

  // ---------------------------------------------------------------------
  // trim()
  // ---------------------------------------------------------------------

  /**
   * The white space and line terminators `String.prototype.trim` removes:
   * TAB, VT, FF, SP, NBSP, ZWNBSP, the Zs characters, LF, CR, LS and PS.
   */
  predicate IsWS(c: char) {
    c == '\t' || c == '\U{000B}' || c == '\U{000C}' || c == ' ' || c == '\U{00A0}'
    || c == '\U{FEFF}' || c == '\U{1680}' || ('\U{2000}' <= c <= '\U{200A}')
    || c == '\U{202F}' || c == '\U{205F}' || c == '\U{3000}'
    || c == '\n' || c == '\r' || c == '\U{2028}' || c == '\U{2029}'
  }

  predicate AllWS(s: string) {
    forall i :: 0 <= i < |s| ==> IsWS(s[i])
  }

  /** Neither end is white space. */
  predicate IsTrimmed(s: string) {
    s != [] ==> !IsWS(s[0]) && !IsWS(s[|s| - 1])
  }

  /** Drops the leading white space: what remains is a suffix that starts with none. */
  function TrimStart(s: string): (r: string)
    ensures |r| <= |s| && r == s[|s| - |r|..]
    ensures AllWS(s[..|s| - |r|])
    ensures r != [] ==> !IsWS(r[0])
  {
    if s != [] && IsWS(s[0]) then TrimStart(s[1..]) else s
  }

  /** Drops the trailing white space: what remains is a prefix that ends with none. */
  function TrimEnd(s: string): (r: string)
    ensures |r| <= |s| && r == s[..|r|]
    ensures AllWS(s[|r|..])
    ensures r != [] ==> !IsWS(r[|r| - 1])
  {
    if s != [] && IsWS(s[|s| - 1]) then TrimEnd(s[..|s| - 1]) else s
  }

  /** `trim()`. */
  function Trim(s: string): (r: string)
    ensures |r| <= |s|
  {
    TrimEnd(TrimStart(s))
  }

  /**
   * The trimmed string is what is left of `s` when white space is cut off at
   * both ends: it starts and ends with something else, and everything cut is
   * white space.
   */
  lemma TrimIsMaximalSlice(s: string)
    ensures IsTrimmed(Trim(s))
    ensures exists before, after {:trigger AllWS(before), AllWS(after)} ::
              s == before + Trim(s) + after && AllWS(before) && AllWS(after)
  {
    TrimSlices(s, TrimStart(s), Trim(s));
  }

  /** The two cuts of `Trim`, stated on their results alone. */
  lemma TrimSlices(s: string, t: string, r: string)
    requires |t| <= |s| && t == s[|s| - |t|..] && AllWS(s[..|s| - |t|])
    requires t != [] ==> !IsWS(t[0])
    requires |r| <= |t| && r == t[..|r|] && AllWS(t[|r|..])
    requires r != [] ==> !IsWS(r[|r| - 1])
    ensures IsTrimmed(r)
    ensures exists before, after {:trigger AllWS(before), AllWS(after)} ::
              s == before + r + after && AllWS(before) && AllWS(after)
  {
    var before := s[..|s| - |t|];
    var after := t[|r|..];
    if r != [] {
      assert r[0] == t[0];
    }
    assert s == before + t;
    assert t == r + after;
    assert s == before + r + after;
  }

  /** Trimming white space around a trimmed, non-empty text gives that text. */
  lemma TrimPadded(before: string, body: string, after: string)
    requires AllWS(before) && AllWS(after)
    requires body != [] && IsTrimmed(body)
    ensures Trim(before + body + after) == body
  {
    assert before + body + after == before + (body + after);
    assert (body + after)[0] == body[0];
    TrimStartPadded(before, body + after);
    TrimEndPadded(body, after);
  }

  lemma {:induction false} TrimStartPadded(before: string, rest: string)
    requires AllWS(before)
    requires rest != [] && !IsWS(rest[0])
    ensures TrimStart(before + rest) == rest
    decreases |before|
  {
    if before == [] {
      assert before + rest == rest;
    } else {
      var s := before + rest;
      assert s[0] == before[0] && IsWS(s[0]);
      assert s[1..] == before[1..] + rest;
      TrimStartPadded(before[1..], rest);
    }
  }

  lemma {:induction false} TrimEndPadded(rest: string, after: string)
    requires AllWS(after)
    requires rest != [] && !IsWS(rest[|rest| - 1])
    ensures TrimEnd(rest + after) == rest
    decreases |after|
  {
    if after == [] {
      assert rest + after == rest;
    } else {
      var s := rest + after;
      assert s[|s| - 1] == after[|after| - 1] && IsWS(s[|s| - 1]);
      assert s[..|s| - 1] == rest + after[..|after| - 1];
      TrimEndPadded(rest, after[..|after| - 1]);
    }
  }

  /** A string without white space at its ends is its own trim. */
  lemma TrimKeepsTrimmed(s: string)
    requires IsTrimmed(s)
    ensures Trim(s) == s
  {
  }

  /** Trimming keeps a string free of runs of three newlines. */
  lemma TrimKeepsNoTriple(s: string)
    requires NoTriple(s)
    ensures NoTriple(Trim(s))
  {
    var t := TrimStart(s);
    NoTripleSuffix(s, |s| - |t|);
    NoTriplePrefix(t, |TrimEnd(t)|);
  }

  // ---------------------------------------------------------------------
  // The full plain text and the variant without blank lines
  // ---------------------------------------------------------------------

  /** `.replace(/\n{3,}/g, "\n\n").trim()`. */
  function PostProcess(s: string): (r: string)
    ensures |r| <= |s|
  {
    Trim(CollapseNewlines(s))
  }

  /** The final plain text holds no run of three newlines and is trimmed. */
  lemma PostProcessShape(s: string)
    ensures NoTriple(PostProcess(s)) && IsTrimmed(PostProcess(s))
  {
    CollapseHasNoTriple(s);
    TrimKeepsNoTriple(CollapseNewlines(s));
    TrimIsMaximalSlice(CollapseNewlines(s));
  }

  /**
   * `replace(/\n\n/gi, "\n")`: scanning left to right, each pair of newlines
   * not already part of a replaced pair becomes one newline.
   */
  function JoinBlankLines(s: string): (r: string)
    ensures |r| <= |s|
    ensures s != [] && s[0] != '\n' ==> r != [] && r[0] == s[0]
    decreases |s|
  {
    if |s| >= 2 && s[0] == '\n' && s[1] == '\n' then "\n" + JoinBlankLines(s[2..])
    else if s == [] then []
    else [s[0]] + JoinBlankLines(s[1..])
  }

  /**
   * On a string with no run of three newlines, such as the final plain text,
   * the variant has no two newlines in a row.
   */
  lemma {:induction false} JoinBlankLinesHasNoDouble(s: string)
    requires NoTriple(s)
    ensures NoDouble(JoinBlankLines(s))
    decreases |s|
  {
    var r := JoinBlankLines(s);
    if |s| >= 2 && s[0] == '\n' && s[1] == '\n' {
      NoTripleSuffix(s, 2);
      JoinBlankLinesHasNoDouble(s[2..]);
      var rest := JoinBlankLines(s[2..]);
      assert r == "\n" + rest;
      if |s| >= 3 {
        assert !TripleAt(s, 0);
      }
      forall i | 0 <= i && i + 2 <= |r| ensures !DoubleAt(r, i) {
        if i > 0 {
          assert !DoubleAt(rest, i - 1);
        } else {
          assert r[1] == rest[0] == s[2];
        }
      }
    } else if s != [] {
      NoTripleSuffix(s, 1);
      JoinBlankLinesHasNoDouble(s[1..]);
      var rest := JoinBlankLines(s[1..]);
      assert r == [s[0]] + rest;
      forall i | 0 <= i && i + 2 <= |r| ensures !DoubleAt(r, i) {
        if i > 0 {
          assert !DoubleAt(rest, i - 1);
        } else if s[0] == '\n' {
          assert r[1] == rest[0] == s[1];
        }
      }
    }
  }

  /** A string with no two newlines in a row is left as it is. */
  lemma {:induction false} JoinBlankLinesKeepsSingles(s: string)
    requires NoDouble(s)
    ensures JoinBlankLines(s) == s
    decreases |s|
  {
    if |s| >= 2 {
      assert !DoubleAt(s, 0);
    }
    if s != [] {
      assert NoDouble(s[1..]) by {
        forall i | 0 <= i && i + 2 <= |s[1..]| ensures !DoubleAt(s[1..], i) {
          assert !DoubleAt(s, i + 1);
        }
      }
      JoinBlankLinesKeepsSingles(s[1..]);
    }
  }

  /** The variant differs from the plain text only in newlines. */
  lemma {:induction false} JoinBlankLinesKeepsText(s: string)
    ensures WithoutNewlines(JoinBlankLines(s)) == WithoutNewlines(s)
    decreases |s|
  {
    if |s| >= 2 && s[0] == '\n' && s[1] == '\n' {
      JoinBlankLinesKeepsText(s[2..]);
      WithoutNewlinesAppend("\n", JoinBlankLines(s[2..]));
      assert s == "\n\n" + s[2..];
      WithoutNewlinesAppend("\n\n", s[2..]);
    } else if s != [] {
      JoinBlankLinesKeepsText(s[1..]);
      WithoutNewlinesAppend([s[0]], JoinBlankLines(s[1..]));
    }
  }

  /**
   * The variant on a maximal run: its pairs are replaced left to right
   * without overlap, so `k` newlines become `(k + 1) / 2`.
   */
  lemma {:induction false} JoinBlankLinesRun(k: nat, t: string)
    requires t == [] || t[0] != '\n'
    ensures JoinBlankLines(Nl(k) + t) == Nl((k + 1) / 2) + JoinBlankLines(t)
    decreases k
  {
    if k == 0 {
      NlZero(t);
      NlZero(JoinBlankLines(t));
    } else if k == 1 {
      JoinBlankLinesSingle(t);
    } else {
      var m := (k - 1) / 2;
      assert m + 1 == (k + 1) / 2;
      JoinBlankLinesDropPair(k, t);
      JoinBlankLinesRun(k - 2, t);
      NlCons(m, JoinBlankLines(t));
    }
  }

  lemma NlZero(x: string)
    ensures Nl(0) + x == x
  {
    assert Nl(0) == [];
  }

  lemma NlCons(m: nat, x: string)
    ensures "\n" + (Nl(m) + x) == Nl(m + 1) + x
  {
    NlSplit(1, m);
  }

  /** The first two newlines of a run are replaced by one. */
  lemma JoinBlankLinesDropPair(k: nat, t: string)
    requires k >= 2
    ensures JoinBlankLines(Nl(k) + t) == "\n" + JoinBlankLines(Nl(k - 2) + t)
  {
    var rest := Nl(k - 2) + t;
    NlSplit(2, k - 2);
    assert Nl(k) + t == "\n\n" + rest;
    JoinBlankLinesPair(rest);
  }

  lemma NlSplit(a: nat, b: nat)
    ensures Nl(a + b) == Nl(a) + Nl(b)
    ensures Nl(1) == "\n" && Nl(2) == "\n\n"
  {
  }

  lemma JoinBlankLinesSingle(t: string)
    requires t == [] || t[0] != '\n'
    ensures JoinBlankLines(Nl(1) + t) == Nl(1) + JoinBlankLines(t)
  {
    NlSplit(0, 1);
    var s := "\n" + t;
    assert s[1..] == t;
  }

  lemma JoinBlankLinesPair(rest: string)
    ensures JoinBlankLines("\n\n" + rest) == "\n" + JoinBlankLines(rest)
  {
    assert ("\n\n" + rest)[2..] == rest;
  }

  /** A character other than a newline is copied and the variant goes on after it. */
  lemma JoinBlankLinesChar(c: char, t: string)
    requires c != '\n'
    ensures JoinBlankLines([c] + t) == [c] + JoinBlankLines(t)
  {
    assert ([c] + t)[1..] == t;
  }

  /** Every maximal run of newlines replaced by a single newline. */
  function SquashNewlines(s: string): (r: string)
    ensures |r| <= |s|
    decreases |s|
  {
    if s == [] then []
    else if s[0] != '\n' then [s[0]] + SquashNewlines(s[1..])
    else "\n" + SquashNewlines(s[LeadingNewlines(s)..])
  }

  /**
   * On a string with no run of three newlines, such as the final plain text,
   * the variant turns every run of newlines into exactly one.
   */
  lemma {:induction false} JoinBlankLinesSquashes(s: string)
    requires NoTriple(s)
    ensures JoinBlankLines(s) == SquashNewlines(s)
    decreases |s|
  {
    if s == [] {
    } else if s[0] != '\n' {
      NoTripleSuffix(s, 1);
      JoinBlankLinesSquashes(s[1..]);
      JoinBlankLinesChar(s[0], s[1..]);
      assert s == [s[0]] + s[1..];
    } else {
      var k := LeadingNewlines(s);
      var t := s[k..];
      if k >= 3 {
        assert TripleAt(s, 0);
        assert false;
      }
      assert s[..k] == Nl(k);
      assert s == Nl(k) + t;
      NoTripleSuffix(s, k);
      JoinBlankLinesSquashes(t);
      JoinBlankLinesShortRun(k, t);
    }
  }

  /** A run of one or two newlines becomes one newline in both definitions. */
  lemma JoinBlankLinesShortRun(k: nat, t: string)
    requires 1 <= k <= 2 && (t == [] || t[0] != '\n')
    requires JoinBlankLines(t) == SquashNewlines(t)
    ensures JoinBlankLines(Nl(k) + t) == SquashNewlines(Nl(k) + t)
  {
    JoinBlankLinesRun(k, t);
    LeadingNewlinesOfRun(k, t);
    assert (k + 1) / 2 == 1;
    NlSplit(0, 1);
    assert (Nl(k) + t)[0] == '\n';
  }

  /** The pairs are replaced left to right without overlap: three newlines become two. */
  lemma JoinBlankLinesLeftToRight()
    ensures JoinBlankLines("\n\n\n") == "\n\n"
    ensures JoinBlankLines("\n\n\n\n") == "\n\n"
    ensures JoinBlankLines("a\n\nb") == "a\nb"
  {
    assert "\n\n\n"[2..] == "\n";
    assert "\n\n\n\n"[2..] == "\n\n";
    assert "a\n\nb"[1..] == "\n\nb";
    assert "\n\nb"[2..] == "b";
  }

  /** The final plain text and its denser variant. */
  lemma PlainTextVariants(raw: string)
    ensures var p := PostProcess(raw);
            && NoTriple(p) && IsTrimmed(p)
            && NoDouble(JoinBlankLines(p))
            && WithoutNewlines(JoinBlankLines(p)) == WithoutNewlines(p)
  {
    PostProcessShape(raw);
    JoinBlankLinesHasNoDouble(PostProcess(raw));
    JoinBlankLinesKeepsText(PostProcess(raw));
  }
}
