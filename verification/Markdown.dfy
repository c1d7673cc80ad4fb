/** The managed block in a user's instructions file (managed_markdown in libexec/integrate.py). */
module Markdown {
  import opened Common

  /** The block's two markers, and the block itself, which begins and ends with them. */
  datatype Block = Block(begin: string, end: string, guidance: string)

  predicate Occurs(text: string, mark: string, i: nat) { i + |mark| <= |text| && text[i..i + |mark|] == mark }

  ghost predicate Absent(text: string, mark: string) { forall i: nat :: !Occurs(text, mark, i) }

  ghost predicate OnlyAt(text: string, mark: string, k: nat) { forall i: nat :: Occurs(text, mark, i) <==> i == k }

  /** A marker is an HTML comment on one line: it opens once and closes once. */
  predicate IsMark(mark: string) {
    && |mark| >= 2 && mark[0] == '<' && mark[|mark| - 1] == '>'
    && (forall k :: 0 < k < |mark| ==> mark[k] != '<') && (forall k :: 0 <= k < |mark| - 1 ==> mark[k] != '>')
    && (forall k :: 0 <= k < |mark| ==> mark[k] != '\n')
  }

  ghost predicate Proper(b: Block) {
    && IsMark(b.begin) && IsMark(b.end) && |b.end| <= |b.guidance|
    && OnlyAt(b.guidance, b.begin, 0) && OnlyAt(b.guidance, b.end, |b.guidance| - |b.end|)
  }

  // ------------------------------------------------------- counting and finding

  /** Non-overlapping occurrences, from the left. */
  function Count(text: string, mark: string): nat
    requires mark != ""
    decreases |text|
  {
    if |text| < |mark| then 0
    else if text[..|mark|] == mark then 1 + Count(text[|mark|..], mark)
    else Count(text[1..], mark)
  }

  /** The first occurrence, or the length. */
  function Index(text: string, mark: string): (k: nat)
    ensures k <= |text|
  {
    if text == "" || Occurs(text, mark, 0) then 0 else 1 + Index(text[1..], mark)
  }

  lemma OccursLater(text: string, mark: string, k: nat, i: nat)
    requires k <= |text|
    ensures Occurs(text[k..], mark, i) <==> Occurs(text, mark, k + i)
  {
    if k + i + |mark| <= |text| {
      assert text[k..][i..i + |mark|] == text[k + i..k + i + |mark|];
    }
  }

  lemma CharAt(text: string, mark: string, i: nat, k: nat)
    requires Occurs(text, mark, i) && k < |mark|
    ensures i + k < |text| && text[i + k] == mark[k]
  {
    assert text[i..i + |mark|][k] == text[i + k];
  }

  /** Markers do not overlap each other. */
  lemma ApartOrSame(text: string, mark: string, i: nat, j: nat)
    requires IsMark(mark) && Occurs(text, mark, i) && Occurs(text, mark, j) && i < j
    ensures i + |mark| <= j
  {
    CharAt(text, mark, j, 0);
    if j < i + |mark| {
      CharAt(text, mark, i, j - i);
    }
  }

  lemma {:induction false} CountZero(text: string, mark: string)
    requires IsMark(mark)
    ensures Count(text, mark) == 0 <==> Absent(text, mark)
    decreases |text|
  {
    if |text| >= |mark| {
      assert text[..|mark|] == text[0..|mark|];
      if text[..|mark|] == mark {
        assert Occurs(text, mark, 0);
      } else {
        CountZero(text[1..], mark);
        SkipOne(text, mark);
      }
    }
  }

  lemma SkipOne(text: string, mark: string)
    requires text != "" && !Occurs(text, mark, 0)
    ensures Absent(text, mark) <==> Absent(text[1..], mark)
  {
    forall i: nat ensures Occurs(text[1..], mark, i) <==> Occurs(text, mark, i + 1) {
      OccursLater(text, mark, 1, i);
    }
    if Absent(text[1..], mark) {
      forall i: nat ensures !Occurs(text, mark, i) {
        assert i > 0 ==> !Occurs(text[1..], mark, i - 1);
      }
    }
  }

  lemma OnlyLater(text: string, mark: string, k: nat)
    requires text != "" && !Occurs(text, mark, 0)
    ensures OnlyAt(text[1..], mark, k) <==> OnlyAt(text, mark, k + 1)
  {
    forall i: nat ensures Occurs(text[1..], mark, i) <==> Occurs(text, mark, i + 1) {
      OccursLater(text, mark, 1, i);
    }
    if OnlyAt(text[1..], mark, k) {
      forall i: nat ensures Occurs(text, mark, i) <==> i == k + 1 {
        assert i > 0 ==> (Occurs(text[1..], mark, i - 1) <==> i - 1 == k);
      }
    }
    if OnlyAt(text, mark, k + 1) {
      forall i: nat ensures Occurs(text[1..], mark, i) <==> i == k {
        assert Occurs(text, mark, i + 1) <==> i + 1 == k + 1;
      }
    }
  }

  /** A count of one is a single occurrence, where the search finds it. */
  lemma {:induction false} CountOne(text: string, mark: string)
    requires IsMark(mark) && Count(text, mark) == 1
    ensures OnlyAt(text, mark, Index(text, mark))
    decreases |text|
  {
    assert text[..|mark|] == text[0..|mark|];
    if text[..|mark|] == mark {
      CountZero(text[|mark|..], mark);
      FirstIsOnly(text, mark);
    } else {
      CountOne(text[1..], mark);
      OnlyLater(text, mark, Index(text[1..], mark));
    }
  }

  lemma FirstIsOnly(text: string, mark: string)
    requires IsMark(mark) && Occurs(text, mark, 0)
    ensures Absent(text[|mark|..], mark) <==> OnlyAt(text, mark, 0)
  {
    if Absent(text[|mark|..], mark) {
      forall i: nat ensures Occurs(text, mark, i) <==> i == 0 {
        if Occurs(text, mark, i) && i > 0 {
          ApartOrSame(text, mark, 0, i);
          OccursLater(text, mark, |mark|, i - |mark|);
        }
      }
    }
    if OnlyAt(text, mark, 0) {
      forall i: nat ensures !Occurs(text[|mark|..], mark, i) {
        OccursLater(text, mark, |mark|, i);
      }
    }
  }

  /** And a single occurrence counts one. */
  lemma {:induction false} OnlyCountsOne(text: string, mark: string, k: nat)
    requires IsMark(mark) && OnlyAt(text, mark, k)
    ensures Count(text, mark) == 1 && Index(text, mark) == k
    decreases |text|
  {
    assert Occurs(text, mark, k);
    assert text[..|mark|] == text[0..|mark|];
    if text[..|mark|] == mark {
      assert Occurs(text, mark, 0);
      FirstIsOnly(text, mark);
      CountZero(text[|mark|..], mark);
    } else {
      assert k > 0;
      OnlyLater(text, mark, k - 1);
      OnlyCountsOne(text[1..], mark, k - 1);
    }
  }

  // ------------------------------------------------------------- managed block

  function Separator(text: string): string { if text == "" then "" else "\n\n" }

  predicate Single(b: Block, text: string)
    requires b.begin != "" && b.end != ""
  {
    Count(text, b.begin) == 1 && Count(text, b.end) == 1 && Index(text, b.begin) <= Index(text, b.end)
  }

  /** The block is appended where there is none, and replaced where there is exactly one. */
  function Managed(b: Block, text: string): Option<string>
    requires b.begin != "" && b.end != ""
  {
    if Count(text, b.begin) == 0 && Count(text, b.end) == 0 then Some(text + Separator(text) + b.guidance + "\n")
    else if !Single(b, text) then None
    else Some(text[..Index(text, b.begin)] + b.guidance + text[Min(Index(text, b.end) + |b.end|, |text|)..])
  }

  // ------------------------------------------------------------------- joining

  lemma PieceOccurs(a: string, g: string, c: string, mark: string, i: nat)
    ensures Occurs(g, mark, i) ==> Occurs(a + g + c, mark, |a| + i)
    ensures i + |mark| <= |g| && Occurs(a + g + c, mark, |a| + i) ==> Occurs(g, mark, i)
  {
    var all := a + g + c;
    if i + |mark| <= |g| {
      assert all[|a| + i..|a| + i + |mark|] == g[i..i + |mark|];
    }
  }

  lemma FrontOccurs(a: string, rest: string, mark: string, i: nat)
    requires i + |mark| <= |a|
    ensures Occurs(a + rest, mark, i) <==> Occurs(a, mark, i)
  {
    assert (a + rest)[i..i + |mark|] == a[i..i + |mark|];
  }

  lemma BackOccurs(front: string, c: string, mark: string, i: nat)
    ensures Occurs(front + c, mark, |front| + i) <==> Occurs(c, mark, i)
  {
    if i + |mark| <= |c| {
      assert (front + c)[|front| + i..|front| + i + |mark|] == c[i..i + |mark|];
    }
  }

  /** No marker reaches into a block from in front of it, or out of it. */
  lemma NoneAcross(a: string, g: string, c: string, mark: string, i: nat)
    requires IsMark(mark) && g != "" && g[0] == '<' && g[|g| - 1] == '>'
    requires Occurs(a + g + c, mark, i)
    ensures i + |mark| <= |a| || (|a| <= i && i + |mark| <= |a + g|) || |a + g| <= i
  {
    var all := a + g + c;
    if i < |a| < i + |mark| {
      CharAt(all, mark, i, |a| - i);
    }
    if i < |a + g| < i + |mark| {
      CharAt(all, mark, i, |a + g| - 1 - i);
    }
  }

  /** A marker that stands once in the block and nowhere around it stands once in the whole. */
  lemma OnlyInBlock(a: string, g: string, c: string, mark: string, k: nat)
    requires IsMark(mark) && g != "" && g[0] == '<' && g[|g| - 1] == '>'
    requires Absent(a, mark) && OnlyAt(g, mark, k) && Absent(c, mark)
    ensures OnlyAt(a + g + c, mark, |a| + k)
  {
    var all := a + g + c;
    forall i: nat ensures Occurs(all, mark, i) <==> i == |a| + k {
      assert Occurs(g, mark, k);
      PieceOccurs(a, g, c, mark, k);
      if Occurs(all, mark, i) {
        NoneAcross(a, g, c, mark, i);
        if i + |mark| <= |a| {
          assert all == a + (g + c);
          FrontOccurs(a, g + c, mark, i);
        } else if |a| <= i && i + |mark| <= |a + g| {
          PieceOccurs(a, g, c, mark, i - |a|);
        } else {
          BackOccurs(a + g, c, mark, i - |a + g|);
        }
      }
    }
  }

  // ------------------------------------------------------------------ theorems

  lemma Sliced(text: string, mark: string, from: nat, to: nat, i: nat)
    requires from <= to <= |text|
    ensures Occurs(text[from..to], mark, i) ==> Occurs(text, mark, from + i)
  {
    if Occurs(text[from..to], mark, i) {
      forall k | 0 <= k < |mark| ensures text[from + i..from + i + |mark|][k] == mark[k] {
        CharAt(text[from..to], mark, i, k);
      }
    }
  }

  /** In front of a single occurrence, and behind it, there is none. */
  lemma NoneAround(text: string, mark: string, k: nat, from: nat, to: nat)
    requires IsMark(mark) && OnlyAt(text, mark, k) && from <= to <= |text|
    requires to < k + |mark| || k < from
    ensures Absent(text[from..to], mark)
  {
    forall i: nat ensures !Occurs(text[from..to], mark, i) {
      Sliced(text, mark, from, to, i);
    }
  }

  /** Text without a marker gets none from a few newlines at its end. */
  lemma NewlinesAddNone(text: string, newlines: string, mark: string)
    requires IsMark(mark) && Absent(text, mark) && forall k :: 0 <= k < |newlines| ==> newlines[k] == '\n'
    ensures Absent(text + newlines, mark)
  {
    var all := text + newlines;
    forall i: nat ensures !Occurs(all, mark, i) {
      if i + |mark| <= |text| {
        FrontOccurs(text, newlines, mark, i);
      } else if Occurs(all, mark, i) {
        CharAt(all, mark, i, |mark| - 1);
      }
    }
  }

  /** Text around the block, when it holds no marker, is all that is kept: the block is found
      in its place again. */
  lemma BlockFound(b: Block, a: string, c: string)
    requires Proper(b) && Absent(a, b.begin) && Absent(a, b.end) && Absent(c, b.begin) && Absent(c, b.end)
    ensures Managed(b, a + b.guidance + c) == Some(a + b.guidance + c)
  {
    var g := b.guidance;
    var all := a + g + c;
    assert Occurs(g, b.begin, 0) && Occurs(g, b.end, |g| - |b.end|);
    CharAt(g, b.begin, 0, 0);
    CharAt(g, b.end, |g| - |b.end|, |b.end| - 1);
    OnlyInBlock(a, g, c, b.begin, 0);
    OnlyInBlock(a, g, c, b.end, |g| - |b.end|);
    OnlyCountsOne(all, b.begin, |a| + 0);
    OnlyCountsOne(all, b.end, |a| + (|g| - |b.end|));
    assert all[..|a|] == a && all[|a + g|..] == c;
  }

  /** What the merge keeps around the block, in front and behind. */
  function Around(b: Block, text: string): (string, string)
    requires b.begin != "" && b.end != ""
  {
    if Single(b, text) then (text[..Index(text, b.begin)], text[Min(Index(text, b.end) + |b.end|, |text|)..])
    else (text + Separator(text), "\n")
  }

  lemma NoneAroundPair(text: string, mark: string, k: nat, i: nat, j: nat)
    requires IsMark(mark) && OnlyAt(text, mark, k) && i <= j <= |text| && i < k + |mark| && k < j
    ensures Absent(text[..i], mark) && Absent(text[j..], mark)
  {
    assert text[..i] == text[0..i] && text[j..] == text[j..|text|];
    NoneAround(text, mark, k, 0, i);
    NoneAround(text, mark, k, j, |text|);
  }

  lemma PairHasNone(text: string, begin: string, end: string, i: nat, j: nat)
    requires IsMark(begin) && IsMark(end) && OnlyAt(text, begin, i) && OnlyAt(text, end, j) && i <= j
    ensures i <= j + |end| <= |text|
    ensures Absent(text[..i], begin) && Absent(text[j + |end|..], begin)
    ensures Absent(text[..i], end) && Absent(text[j + |end|..], end)
  {
    assert Occurs(text, end, j);
    NoneAroundPair(text, begin, i, i, j + |end|);
    NoneAroundPair(text, end, j, i, j + |end|);
  }

  lemma SingleHasNone(b: Block, text: string)
    requires Proper(b) && Single(b, text)
    ensures var (a, c) := Around(b, text);
      Absent(a, b.begin) && Absent(a, b.end) && Absent(c, b.begin) && Absent(c, b.end)
  {
    CountOne(text, b.begin);
    CountOne(text, b.end);
    PairHasNone(text, b.begin, b.end, Index(text, b.begin), Index(text, b.end));
  }

  lemma NewlineHasNone(mark: string)
    requires IsMark(mark)
    ensures Absent("\n", mark)
  {
  }

  lemma AroundHasNone(b: Block, text: string)
    requires Proper(b) && Managed(b, text).Some?
    ensures var (a, c) := Around(b, text);
      Absent(a, b.begin) && Absent(a, b.end) && Absent(c, b.begin) && Absent(c, b.end)
  {
    if Single(b, text) {
      SingleHasNone(b, text);
    } else {
      CountZero(text, b.begin);
      CountZero(text, b.end);
      NewlinesAddNone(text, Separator(text), b.begin);
      NewlinesAddNone(text, Separator(text), b.end);
      NewlineHasNone(b.begin);
      NewlineHasNone(b.end);
    }
  }

  /** Managing a file is idempotent, keeps all text outside the markers, and leaves each
      marker exactly once, around the current guidance. */
  lemma ManagedIsIdempotent(b: Block, text: string)
    requires Proper(b) && Managed(b, text).Some?
    ensures var (a, c) := Around(b, text); Managed(b, text) == Some(a + b.guidance + c)
    ensures Managed(b, Managed(b, text).value) == Managed(b, text)
  {
    AroundHasNone(b, text);
    var (a, c) := Around(b, text);
    BlockFound(b, a, c);
  }

  /** It is refused exactly when the markers are neither both missing nor one pair in order. */
  lemma RefusedUnlessOnePair(b: Block, text: string)
    requires Proper(b)
    ensures Managed(b, text).Some? <==>
      || (Absent(text, b.begin) && Absent(text, b.end))
      || (exists i: nat, j: nat :: OnlyAt(text, b.begin, i) && OnlyAt(text, b.end, j) && i <= j)
  {
    CountZero(text, b.begin);
    CountZero(text, b.end);
    if Single(b, text) {
      CountOne(text, b.begin);
      CountOne(text, b.end);
    }
    if i: nat, j: nat :| OnlyAt(text, b.begin, i) && OnlyAt(text, b.end, j) && i <= j {
      OnlyCountsOne(text, b.begin, i);
      OnlyCountsOne(text, b.end, j);
    }
  }

  /** The new text where the markers are missing, and where there is one pair of them. */
  ghost predicate Appends(b: Block, text: string, after: string) {
    && Absent(text, b.begin) && Absent(text, b.end)
    && after == (if |text| == 0 then b.guidance + "\n" else text + "\n\n" + b.guidance + "\n")
  }

  ghost predicate Replaces(b: Block, text: string, after: string, i: nat, j: nat) {
    && OnlyAt(text, b.begin, i) && OnlyAt(text, b.end, j) && i <= j && j + |b.end| <= |text|
    && after == text[..i] + b.guidance + text[j + |b.end|..]
  }

  lemma AppendsExactly(b: Block, text: string)
    requires Proper(b) && Absent(text, b.begin) && Absent(text, b.end)
    ensures Managed(b, text).Some? && Appends(b, text, Managed(b, text).value)
  {
    CountZero(text, b.begin);
    CountZero(text, b.end);
    if |text| == 0 {
      assert text + Separator(text) + b.guidance == b.guidance;
    }
  }

  lemma ReplacesExactly(b: Block, text: string, i: nat, j: nat)
    requires Proper(b) && OnlyAt(text, b.begin, i) && OnlyAt(text, b.end, j) && i <= j
    ensures Managed(b, text).Some? && Replaces(b, text, Managed(b, text).value, i, j)
  {
    OnlyCountsOne(text, b.begin, i);
    OnlyCountsOne(text, b.end, j);
    CountOne(text, b.begin);
    CountOne(text, b.end);
    assert Occurs(text, b.begin, i) && Occurs(text, b.end, j);
    assert Occurs(text, b.begin, Index(text, b.begin)) && Occurs(text, b.end, Index(text, b.end));
  }

  lemma NoPair(b: Block, text: string, after: string, i: nat, j: nat)
    requires Absent(text, b.begin)
    ensures !Replaces(b, text, after, i, j)
  {
    assert !Occurs(text, b.begin, i);
  }

  lemma OnePair(b: Block, text: string, after: string, i: nat, j: nat, k: nat, l: nat)
    requires OnlyAt(text, b.begin, i) && OnlyAt(text, b.end, j)
    ensures !Appends(b, text, after) && (Replaces(b, text, after, k, l) ==> k == i && l == j)
  {
    assert Occurs(text, b.begin, i);
    if Replaces(b, text, after, k, l) {
      assert Occurs(text, b.begin, k) && Occurs(text, b.end, l);
    }
  }

  /** The text after managing, character for character: the block behind a blank line where there
      was none, or in the place of the one there was, with all around it as it was. */
  lemma ManagedExactly(b: Block, text: string, after: string)
    requires Proper(b)
    ensures Managed(b, text) == Some(after) <==>
      Appends(b, text, after) || exists i: nat, j: nat :: Replaces(b, text, after, i, j)
  {
    RefusedUnlessOnePair(b, text);
    if Absent(text, b.begin) && Absent(text, b.end) {
      AppendsExactly(b, text);
      forall i: nat, j: nat ensures !Replaces(b, text, after, i, j) {
        NoPair(b, text, after, i, j);
      }
    } else if i: nat, j: nat :| OnlyAt(text, b.begin, i) && OnlyAt(text, b.end, j) && i <= j {
      ReplacesExactly(b, text, i, j);
      forall k: nat, l: nat ensures !Appends(b, text, after) && (Replaces(b, text, after, k, l) ==> k == i && l == j) {
        OnePair(b, text, after, i, j, k, l);
      }
    }
  }
}
