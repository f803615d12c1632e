/**
  Two wildcard matchers: the recursive one, and the loop that backtracks only to the
  latest star.
 */
module Glob {
  import opened Basics

  // ----- The recursive matcher --------------------------------------------------------

  predicate Matches(p: string, t: string)
    decreases |p| + |t|
  {
    if p == [] then t == []
    else if p[0] == '*' then Matches(p[1..], t) || (t != [] && Matches(p, t[1..]))
    else if p[0] == '?' then t != [] && Matches(p[1..], t[1..])
    else t != [] && p[0] == t[0] && Matches(p[1..], t[1..])
  }

  // ----- What matching means -----------------------------------------------------------

  /** One character of pattern: a star matches any text, a question mark any one character, others themselves. */
  lemma MatchesOne(c: char, t: string)
    ensures Matches([c], t) <==> if c == '*' then true else if c == '?' then |t| == 1 else t == [c]
  {
    if c == '*' {
      StarMatchesAll(t);
    } else if t != [] {
      assert t == [t[0]] + t[1..];
    }
  }

  lemma {:induction false} StarMatchesAll(t: string)
    ensures Matches("*", t)
  {
    if t != [] {
      StarMatchesAll(t[1..]);
    }
  }

  /** The text falls into two parts, the one matching the one pattern and the rest the other. */
  predicate SplitsAt(p: string, q: string, t: string, i: nat) {
    i <= |t| && Matches(p, t[..i]) && Matches(q, t[i..])
  }

  /** One pattern after another matches exactly the texts that fall into a match of each. */
  lemma {:induction false} MatchesConcat(p: string, q: string, t: string)
    ensures Matches(p + q, t) <==> exists i: nat :: SplitsAt(p, q, t, i)
    decreases |p| + |t|
  {
    if p == [] {
      assert p + q == q && t[0..] == t;
      assert SplitsAt(p, q, t, 0) <==> Matches(q, t);
    } else {
      assert (p + q)[1..] == p[1..] + q;
      if p[0] == '*' {
        MatchesConcat(p[1..], q, t);
        if t != [] {
          MatchesConcat(p, q, t[1..]);
        }
        StarSplits(p, q, t);
      } else if t != [] {
        MatchesConcat(p[1..], q, t[1..]);
        OneSplits(p, q, t);
      }
    }
  }

  lemma StarSplits(p: string, q: string, t: string)
    requires p != [] && p[0] == '*'
    ensures (exists i: nat :: SplitsAt(p, q, t, i)) <==>
            (exists i: nat :: SplitsAt(p[1..], q, t, i)) || (t != [] && exists i: nat :: SplitsAt(p, q, t[1..], i))
  {
    if i: nat :| SplitsAt(p, q, t, i) {
      if Matches(p[1..], t[..i]) {
        assert SplitsAt(p[1..], q, t, i);
      } else {
        assert t[..i][1..] == t[1..][..i - 1] && t[1..][i - 1..] == t[i..];
        assert SplitsAt(p, q, t[1..], i - 1);
      }
    }
    if i: nat :| SplitsAt(p[1..], q, t, i) {
      assert SplitsAt(p, q, t, i);
    }
    if t != [] {
      if i: nat :| SplitsAt(p, q, t[1..], i) {
        assert t[..i + 1][1..] == t[1..][..i] && t[1..][i..] == t[i + 1..];
        assert SplitsAt(p, q, t, i + 1);
      }
    }
  }

  lemma OneSplits(p: string, q: string, t: string)
    requires p != [] && p[0] != '*' && t != []
    ensures (exists i: nat :: SplitsAt(p, q, t, i)) <==>
            (p[0] == '?' || p[0] == t[0]) && exists i: nat :: SplitsAt(p[1..], q, t[1..], i)
  {
    if i: nat :| SplitsAt(p, q, t, i) {
      assert t[..i][1..] == t[1..][..i - 1] && t[1..][i - 1..] == t[i..];
      assert SplitsAt(p[1..], q, t[1..], i - 1);
    }
    if p[0] == '?' || p[0] == t[0] {
      if i: nat :| SplitsAt(p[1..], q, t[1..], i) {
        assert t[..i + 1][1..] == t[1..][..i] && t[1..][i..] == t[i + 1..];
        assert SplitsAt(p, q, t, i + 1);
      }
    }
  }

  // ----- Positions -----------------------------------------------------------------------

  /** The tail of the pattern from `i` matches the tail of the text from `j`. */
  predicate From(p: string, t: string, i: nat, j: nat)
    requires i <= |p| && j <= |t|
  {
    Matches(p[i..], t[j..])
  }

  /** `Matches` one position at a time. */
  lemma FromUnfold(p: string, t: string, i: nat, j: nat)
    requires i <= |p| && j <= |t|
    ensures i == |p| ==> (From(p, t, i, j) <==> j == |t|)
    ensures i < |p| && p[i] == '*' ==>
              (From(p, t, i, j) <==> From(p, t, i + 1, j) || (j < |t| && From(p, t, i, j + 1)))
    ensures i < |p| && p[i] != '*' ==>
              (From(p, t, i, j) <==> j < |t| && (p[i] == '?' || p[i] == t[j]) && From(p, t, i + 1, j + 1))
  {
    if i < |p| {
      assert p[i..][1..] == p[i + 1..];
    }
    if j < |t| {
      assert t[j..][1..] == t[j + 1..];
    }
  }

  // ----- The loop -----------------------------------------------------------------------

  /** Only stars are left in the pattern. */
  predicate OnlyStars(p: string, i: nat)
    requires i <= |p|
    decreases |p| - i
  {
    i == |p| || (p[i] == '*' && OnlyStars(p, i + 1))
  }

  /** What the loop computes from any of its states. */
  predicate Loop(p: string, s: string, pi: nat, si: nat, star: Option<nat>, mark: nat)
    requires pi <= |p| && mark <= si <= |s|
    requires star.Some? ==> star.value < |p|
    decreases if star.None? then |s| + 1 else |s| - mark, |s| - si, |p| - pi
  {
    if si == |s| then OnlyStars(p, pi)
    else if pi < |p| && (p[pi] == '?' || p[pi] == s[si]) then Loop(p, s, pi + 1, si + 1, star, mark)
    else if pi < |p| && p[pi] == '*' then Loop(p, s, pi + 1, si, Some(pi), si)
    else if star.Some? then Loop(p, s, star.value + 1, mark + 1, star, mark + 1)
    else false
  }

  method GlobMatch(p: string, s: string) returns (r: bool)
    ensures r == Loop(p, s, 0, 0, None, 0)
    ensures '*' !in s ==> (r <==> Matches(p, s))
  {
    LoopAgrees(p, s);
    var pi, si := 0, 0;
    var star: Option<nat>, mark := None, 0;
    while si < |s|
      invariant 0 <= pi <= |p| && 0 <= mark <= si <= |s|
      invariant star.Some? ==> star.value < |p|
      invariant Loop(p, s, 0, 0, None, 0) == Loop(p, s, pi, si, star, mark)
      decreases if star.None? then |s| + 1 else |s| - mark, |s| - si, |p| - pi
    {
      if pi < |p| && (p[pi] == '?' || p[pi] == s[si]) {
        pi, si := pi + 1, si + 1;
      } else if pi < |p| && p[pi] == '*' {
        star, mark := Some(pi), si;
        pi := pi + 1;
      } else if star.Some? {
        pi := star.value + 1;
        mark := mark + 1;
        si := mark;
      } else {
        return false;
      }
    }
    ghost var rest := pi;
    while pi < |p| && p[pi] == '*'
      invariant rest <= pi <= |p|
      invariant OnlyStars(p, rest) == OnlyStars(p, pi)
    {
      pi := pi + 1;
    }
    return pi == |p|;
  }

  // ----- Backtracking to the latest star loses nothing --------------------------------------

  /** The pattern from `a` to `pi` is free of stars and matches the text from `b` on, character by character. */
  predicate Segment(p: string, s: string, a: nat, pi: nat, b: nat, si: nat)
    requires a <= pi <= |p| && b <= si <= |s|
  {
    && pi - a == si - b
    && forall i :: a <= i < pi ==> p[i] != '*' && (p[i] == '?' || p[i] == s[b + (i - a)])
  }

  /** A segment can be peeled off both sides. */
  lemma {:induction false} SegmentPeels(p: string, s: string, a: nat, pi: nat, b: nat, si: nat)
    requires a <= pi <= |p| && b <= si <= |s| && Segment(p, s, a, pi, b, si)
    ensures From(p, s, a, b) <==> From(p, s, pi, si)
    decreases pi - a
  {
    hide From;
    if a < pi {
      FromUnfold(p, s, a, b);
      SegmentPeels(p, s, a + 1, pi, b + 1, si);
    }
  }

  /** A star-free stretch uses up one character of text for each of its own. */
  lemma {:induction false} StretchUsesText(p: string, s: string, a: nat, pi: nat, k: nat)
    requires a <= pi <= |p| && k <= |s|
    requires forall i :: a <= i < pi ==> p[i] != '*'
    ensures From(p, s, a, k) ==> k + (pi - a) <= |s| && From(p, s, pi, k + (pi - a))
    decreases pi - a
  {
    hide From;
    if a < pi {
      FromUnfold(p, s, a, k);
      if k < |s| {
        StretchUsesText(p, s, a + 1, pi, k + 1);
      }
    }
  }

  /** A star can take more text. */
  lemma {:induction false} StarAbsorbs(p: string, s: string, i: nat, j: nat, k: nat)
    requires i < |p| && p[i] == '*' && j <= k <= |s|
    ensures From(p, s, i, k) ==> From(p, s, i, j)
    decreases k - j
  {
    hide From;
    if j < k {
      StarAbsorbs(p, s, i, j + 1, k);
      FromUnfold(p, s, i, j);
    }
  }

  /** The pattern from `i` matches the text from some position on. */
  predicate Somewhere(p: string, s: string, i: nat, mark: nat)
    requires i <= |p| && mark <= |s|
  {
    exists k :: mark <= k <= |s| && From(p, s, i, k)
  }

  /** A star matches exactly when what follows it matches somewhere from there on. */
  lemma {:induction false} StarChoices(p: string, s: string, sp: nat, mark: nat)
    requires sp < |p| && p[sp] == '*' && mark <= |s|
    ensures From(p, s, sp, mark) <==> Somewhere(p, s, sp + 1, mark)
    decreases |s| - mark
  {
    hide From;
    FromUnfold(p, s, sp, mark);
    var next := sp + 1;
    assert From(p, s, next, mark) ==> Somewhere(p, s, next, mark);
    if mark < |s| {
      StarChoices(p, s, sp, mark + 1);
      assert Somewhere(p, s, next, mark) <==> From(p, s, next, mark) || Somewhere(p, s, next, mark + 1);
    }
  }

  /** The earlier star need not be tried again once a later one is reached. */
  lemma LatestStarSuffices(p: string, s: string, sp: nat, mark: nat, pi: nat, si: nat)
    requires sp < pi < |p| && p[sp] == '*' && p[pi] == '*' && mark <= si <= |s|
    requires Segment(p, s, sp + 1, pi, mark, si)
    ensures From(p, s, sp, mark) <==> From(p, s, pi, si)
  {
    hide From;
    StarChoices(p, s, sp, mark);
    SegmentPeels(p, s, sp + 1, pi, mark, si);
    var next := sp + 1;
    forall k | mark <= k <= |s| && From(p, s, next, k) ensures From(p, s, pi, si) {
      StretchUsesText(p, s, next, pi, k);
      StarAbsorbs(p, s, pi, si, k + (pi - next));
    }
  }

  lemma {:induction false} OnlyStarsMatchNothing(p: string, s: string, i: nat)
    requires i <= |p|
    ensures From(p, s, i, |s|) <==> OnlyStars(p, i)
    decreases |p| - i
  {
    hide From;
    FromUnfold(p, s, i, |s|);
    if i < |p| {
      OnlyStarsMatchNothing(p, s, i + 1);
    }
  }

  /** What the recursive matcher says about a state of the loop. */
  predicate Meant(p: string, s: string, pi: nat, si: nat, star: Option<nat>, mark: nat)
    requires pi <= |p| && mark <= si <= |s|
    requires star.Some? ==> star.value < |p|
  {
    match star
    case None => From(p, s, pi, si)
    case Some(sp) => From(p, s, sp, mark)
  }

  predicate GoodState(p: string, s: string, pi: nat, si: nat, star: Option<nat>, mark: nat) {
    && pi <= |p| && mark <= si <= |s| && '*' !in s
    && (star.Some? ==> star.value < pi && p[star.value] == '*' && Segment(p, s, star.value + 1, pi, mark, si))
  }

  lemma SegmentGrows(p: string, s: string, a: nat, pi: nat, b: nat, si: nat)
    requires a <= pi < |p| && b <= si < |s| && Segment(p, s, a, pi, b, si)
    requires p[pi] != '*' && (p[pi] == '?' || p[pi] == s[si])
    ensures Segment(p, s, a, pi + 1, b, si + 1)
  {
  }

  /** At the end of the text, a star cannot help any further. */
  lemma EndOfText(p: string, s: string, sp: nat, mark: nat, pi: nat)
    requires sp < pi <= |p| && p[sp] == '*' && mark <= |s| && Segment(p, s, sp + 1, pi, mark, |s|)
    ensures From(p, s, sp, mark) <==> From(p, s, pi, |s|)
  {
    hide From;
    StarChoices(p, s, sp, mark);
    SegmentPeels(p, s, sp + 1, pi, mark, |s|);
    var next := sp + 1;
    forall k | mark <= k <= |s| && From(p, s, next, k) ensures From(p, s, pi, |s|) {
      StretchUsesText(p, s, next, pi, k);
    }
  }

  /** From every good state, on a text without stars, the loop answers as the recursive matcher would. */
  lemma {:induction false} LoopMeans(p: string, s: string, pi: nat, si: nat, star: Option<nat>, mark: nat)
    requires GoodState(p, s, pi, si, star, mark)
    ensures Loop(p, s, pi, si, star, mark) <==> Meant(p, s, pi, si, star, mark)
    decreases if star.None? then |s| + 1 else |s| - mark, |s| - si, |p| - pi
  {
    hide From, OnlyStars;
    FromUnfold(p, s, pi, si);
    if si == |s| {
      OnlyStarsMatchNothing(p, s, pi);
      if star.Some? {
        EndOfText(p, s, star.value, mark, pi);
      }
    } else if pi < |p| && (p[pi] == '?' || p[pi] == s[si]) {
      assert s[si] in s;
      if star.Some? {
        SegmentGrows(p, s, star.value + 1, pi, mark, si);
      }
      LoopMeans(p, s, pi + 1, si + 1, star, mark);
    } else if pi < |p| && p[pi] == '*' {
      if star.Some? {
        LatestStarSuffices(p, s, star.value, mark, pi, si);
      }
      LoopMeans(p, s, pi + 1, si, Some(pi), si);
    } else if star.Some? {
      SegmentPeels(p, s, star.value + 1, pi, mark, si);
      FromUnfold(p, s, star.value, mark);
      LoopMeans(p, s, star.value + 1, mark + 1, star, mark + 1);
    }
  }

  /** On every text without a star the two matchers agree, whatever the pattern. */
  lemma LoopAgrees(p: string, s: string)
    ensures '*' !in s ==> (Loop(p, s, 0, 0, None, 0) <==> Matches(p, s))
  {
    if '*' !in s {
      LoopMeans(p, s, 0, 0, None, 0);
      assert p[0..] == p && s[0..] == s;
    }
  }

  // ----- Texts with stars ----------------------------------------------------------------------

  function Questions(n: nat): (q: string)
    ensures |q| == n && forall i :: 0 <= i < n ==> q[i] == '?'
  {
    seq(n, i => '?')
  }

  /** Leading question marks walk over as many characters. */
  lemma {:induction false} WalkOver(p: string, s: string, n: nat, k: nat)
    requires k <= n <= |p| && n <= |s| && forall i :: 0 <= i < n ==> p[i] == '?'
    ensures Loop(p, s, k, k, None, 0) == Loop(p, s, n, n, None, 0)
    ensures From(p, s, k, k) <==> From(p, s, n, n)
    decreases n - k
  {
    hide From;
    if k < n {
      FromUnfold(p, s, k, k);
      WalkOver(p, s, n, k + 1);
    }
  }

  /** A pattern on which the two matchers differ, for a text with a star at `i`. */
  function Splitter(s: string, i: nat): string
    requires i < |s|
  {
    if i + 1 < |s| then Questions(i) + "*" else Questions(i) + "*?"
  }

  lemma SplitterDiffers(s: string, i: nat)
    requires i < |s| && s[i] == '*'
    ensures !Loop(Splitter(s, i), s, 0, 0, None, 0)
    ensures Matches(Splitter(s, i), s)
  {
    hide From;
    var p := Splitter(s, i);
    WalkOver(p, s, i, 0);
    assert p[i] == '*';
    FromUnfold(p, s, i, i);
    if i + 1 < |s| {
      FromUnfold(p, s, i + 1, |s|);
      StarAbsorbs(p, s, i, i, |s|);
      FromUnfold(p, s, i, |s|);
    } else {
      FromUnfold(p, s, i + 1, i);
      FromUnfold(p, s, i + 2, i + 1);
    }
    FromStart(p, s);
  }

  lemma FromStart(p: string, s: string)
    ensures From(p, s, 0, 0) <==> Matches(p, s)
  {
    assert p[0..] == p && s[0..] == s;
  }

  /** Exactly when the matchers agree on every pattern: the text holds no star. */
  lemma AgreeIffNoStar(s: string)
    ensures (forall p :: Loop(p, s, 0, 0, None, 0) <==> Matches(p, s)) <==> '*' !in s
  {
    hide Loop, Matches;
    if '*' !in s {
      forall p ensures Loop(p, s, 0, 0, None, 0) <==> Matches(p, s) {
        LoopAgrees(p, s);
      }
    } else {
      var i :| 0 <= i < |s| && s[i] == '*';
      SplitterDiffers(s, i);
    }
  }
}
