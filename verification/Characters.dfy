/** The characters that matter in a command line, code point by code point, and the words they
    make (spans in libexec/inspection.py, shlex.quote and session_identity.py). */
module Characters {
  import opened Common
  import opened Words
  import opened OnePass

  /** The white space of Unicode. */
  predicate IsWhite(c: char) {
    var n := c as int;
    || 9 <= n <= 13 || 28 <= n <= 32 || n == 133 || n == 160 || n == 5760
    || 8192 <= n <= 8202 || n == 8232 || n == 8233 || n == 8239 || n == 8287 || n == 12288
  }

  lemma SpaceExactly(c: char)
    ensures Space(c) <==> IsWhite(c)
  {
  }

  lemma OperatorExactly(c: char)
    ensures Operator(c) <==> c as int in {38, 59, 60, 62, 124}
  {
  }

  lemma GlobExactly(c: char)
    ensures Glob(c) <==> c as int in {42, 63, 91, 123}
  {
  }

  /** Letters, digits and @ % + = : , . / - and the underscore need no quotes. */
  predicate NeedsNone(c: char) {
    var n := c as int;
    || 97 <= n <= 122 || 65 <= n <= 90 || 48 <= n <= 57 || n in {37, 43, 44, 45, 46, 47, 58, 61, 64, 95}
  }

  /** A string is quoted exactly if it is empty or holds a character that needs it. */
  lemma QuotesExactly(s: string)
    ensures Quote(s) == s <==> |s| > 0 && forall k :: 0 <= k < |s| ==> NeedsNone(s[k])
  {
    assert (forall k :: 0 <= k < |s| ==> NeedsNone(s[k])) <==> AllSafe(s);
    QuotedIsLonger(s);
  }

  lemma {:induction false} EscapedIsLonger(s: string)
    ensures |Escaped(s)| >= |s|
  {
    if s != "" {
      EscapedIsLonger(s[1..]);
    }
  }

  lemma QuotedIsLonger(s: string)
    ensures |"'" + Escaped(s) + "'"| > |s|
  {
    EscapedIsLonger(s);
  }

  // ----------------------------------------------------------------------- words

  /** Character k stands outside quotes and is not escaped. */
  predicate Stands(text: string, m: Mode, k: nat)
    requires k <= |text|
  {
    End(text[..k], m).Bare?
  }

  lemma StandsNext(text: string, m: Mode, k: nat)
    requires text != "" && 1 <= k <= |text|
    ensures Stands(text, m, k) <==> Stands(text[1..], Step(m, text[0]), k - 1)
  {
    assert text[..k][1..] == text[1..][..k - 1];
  }

  /** A word ends at the first white space or operator outside quotes, or with the text. */
  lemma {:induction false} WordExactly(text: string, m: Mode)
    ensures var n := WordRun(text, m);
      && (forall k :: 0 <= k < n ==> !(Stands(text, m, k) && Breaks(text[k])))
      && (n < |text| ==> Stands(text, m, n) && Breaks(text[n]))
  {
    var n := WordRun(text, m);
    assert text[..0] == "";
    if !Ends(text, m) {
      WordExactly(text[1..], Step(m, text[0]));
      forall k | 0 <= k < n ensures !(Stands(text, m, k) && Breaks(text[k])) {
        if k > 0 {
          StandsNext(text, m, k);
        }
      }
      StandsNext(text, m, n);
    }
  }

  /** And the shell would expand it exactly if a glob character stands outside quotes in it. */
  lemma {:induction false} GlobsExactly(text: string, m: Mode)
    ensures Globs(text, m) <==> exists k :: 0 <= k < WordRun(text, m) && Stands(text, m, k) && Glob(text[k])
  {
    assert text[..0] == "";
    if !Ends(text, m) {
      var rest, next := text[1..], Step(m, text[0]);
      GlobsExactly(rest, next);
      if Globs(rest, next) {
        var k :| 0 <= k < WordRun(rest, next) && Stands(rest, next, k) && Glob(rest[k]);
        StandsNext(text, m, k + 1);
        assert Glob(text[k + 1]);
      }
      if k :| 0 <= k < WordRun(text, m) && Stands(text, m, k) && Glob(text[k]) {
        if k > 0 {
          StandsNext(text, m, k);
          assert Glob(rest[k - 1]);
        } else {
          assert m.Bare?;
        }
      }
    }
  }
}
