/** Reading a whole text in one pass, as the word splitter of the standard library does
    (shlex.split in libexec/scheduler_policy.py), and when that agrees with the scanner. */
module OnePass {
  import opened Common
  import opened Words

  /** The splitter's white space; the scanner's is wider. */
  predicate Separator(c: char) { c == ' ' || c == '\t' || c == '\r' || c == '\n' }

  /** What one character adds to the word it stands in. */
  function Piece(m: Mode, c: char): string {
    if m.EscapedDouble? && c != '\\' && c != '\"' then ['\\', c]
    else if (m.Bare? || m.Double?) && (c == '\\' || c == '\"') then ""
    else if (m.Bare? || m.Single?) && c == '\'' then ""
    else [c]
  }

  /** The words of a text, read from left to right; it knows no operators. Nothing if a quote
      or escape is left open. */
  function Split(text: string, m: Mode, word: Option<string>): Option<seq<string>> {
    if text == "" then (if m.Bare? then Some(if word.Some? then [word.value] else []) else None)
    else if m.Bare? && Separator(text[0]) then
      match Split(text[1..], Bare, None)
      case None => None
      case Some(rest) => Some((if word.Some? then [word.value] else []) + rest)
    else Split(text[1..], Step(m, text[0]), Some(word.GetOr("") + Piece(m, text[0])))
  }

  /** Space outside quotes and escapes that separates words for the scanner only. */
  function Odds(text: string, m: Mode): nat {
    if text == "" then 0
    else Odds(text[1..], Step(m, text[0])) + if m.Bare? && Space(text[0]) && !Separator(text[0]) then 1 else 0
  }

  lemma UnquotedStep(text: string, m: Mode)
    requires text != ""
    ensures Unquoted(text, m) == Prefixed(Piece(m, text[0]), Unquoted(text[1..], Step(m, text[0])))
  {
    var rest := Unquoted(text[1..], Step(m, text[0]));
    if rest.Some? {
      assert "" + rest.value == rest.value;
    }
  }

  lemma PrefixedTwice(word: string, piece: string, more: Option<string>)
    ensures Prefixed(word + piece, more) == Prefixed(word, Prefixed(piece, more))
  {
    if more.Some? {
      assert word + piece + more.value == word + (piece + more.value);
    }
  }

  // ----------------------------------------------------- where the two agree

  predicate Separated(rest: string) { rest == "" || Separator(rest[0]) }

  lemma SplitEnd(rest: string, m: Mode, word: string)
    requires Separated(rest) && (rest != "" ==> m.Bare?)
    ensures Split(rest, m, Some(word)) == Following(Prefixed(word, Unquoted("", m)), Split(rest, Bare, None))
  {
    assert word + "" == word && [word] + [] == [word];
    if rest != "" {
      SplitSpace(rest, word);
    }
  }

  lemma SplitSpace(rest: string, word: string)
    requires rest != "" && Separator(rest[0])
    ensures Split(rest, Bare, Some(word)) == Following(Some(word), Split(rest, Bare, None))
  {
    var tail := Split(rest[1..], Bare, None);
    if tail.Some? {
      assert [] + tail.value == tail.value;
    }
  }

  /** Split reads a word that a separator follows as Unquote does, and goes on behind it. */
  lemma {:induction false} SplitWord(token: string, rest: string, m: Mode, word: string)
    requires WordRun(token, m) == |token| && Separated(rest)
    requires rest != "" ==> Unquoted(token, m).Some?
    ensures Split(token + rest, m, Some(word)) == Following(Prefixed(word, Unquoted(token, m)), Split(rest, Bare, None))
    decreases |token|
  {
    if token == "" {
      assert token + rest == rest;
      SplitEnd(rest, m, word);
    } else {
      UnquotedStep(token, m);
      assert (token + rest)[1..] == token[1..] + rest;
      SplitWord(token[1..], rest, Step(m, token[0]), word + Piece(m, token[0]));
      PrefixedTwice(word, Piece(m, token[0]), Unquoted(token[1..], Step(m, token[0])));
    }
  }

  lemma {:induction false} ClosedBeforeBreak(text: string, m: Mode)
    requires WordRun(text, m) < |text|
    ensures Unquoted(text[..WordRun(text, m)], m).Some?
  {
    if !Ends(text, m) {
      var run := text[..WordRun(text, m)];
      ClosedBeforeBreak(text[1..], Step(m, text[0]));
      assert run[1..] == text[1..][..WordRun(text[1..], Step(m, text[0]))];
      UnquotedStep(run, m);
    }
  }

  lemma {:induction false} LiteralRest(text: string)
    requires text != "" && Literal(text)
    ensures Space(text[0]) ==> Literal(text[1..])
    ensures !Space(text[0]) ==>
      !Operator(text[0]) && Literal(text[WordRun(text, Bare)..]) && StartsBlank(text[WordRun(text, Bare)..])
  {
    if !Space(text[0]) {
      var n := TokenRun(text);
      assert text[..n] in Tokens(text);
      assert text[..n] != "" && text[..n][0] == text[0];
      WordEndsAtBreak(text, Bare);
      var rest := text[n..];
      assert forall t :: t in Tokens(rest) ==> t in Tokens(text);
      if rest != "" && Operator(rest[0]) {
        OperatorToken(rest);
      }
    }
  }

  lemma OperatorToken(text: string)
    requires text != "" && Operator(text[0])
    ensures exists t :: t in Tokens(text) && t != "" && Operator(t[0])
  {
    assert text[..TokenRun(text)] in Tokens(text);
  }

  lemma SplitFirst(text: string)
    requires text != "" && !Breaks(text[0])
    ensures Split(text, Bare, None) == Split(text, Bare, Some(""))
  {
    assert "" + Piece(Bare, text[0]) == Piece(Bare, text[0]);
  }

  /** Behind a word, or to the end of an open one, the count is that of what follows. */
  lemma {:induction false} OddsBehind(text: string, m: Mode)
    ensures var n := WordRun(text, m);
      Odds(text, m) == if n < |text| then Odds(text[n..], Bare) else 0
  {
    if !Ends(text, m) {
      var n := WordRun(text, m);
      OddsBehind(text[1..], Step(m, text[0]));
      if n < |text| {
        assert text[1..][n - 1..] == text[n..];
      }
    } else if text != "" {
      assert text[0..] == text;
    }
  }

  lemma {:induction false} FirstToken(text: string)
    requires text != "" && Literal(text) && !Space(text[0])
    ensures var n := WordRun(text, Bare);
      && 0 < n && Literal(text[n..]) && StartsBlank(text[n..]) && Tokens(text) == [text[..n]] + Tokens(text[n..])
      && WordRun(text[..n], Bare) == n && (n < |text| ==> Unquote(text[..n]).Some?)
      && Odds(text, Bare) == Odds(text[n..], Bare)
  {
    LiteralRest(text);
    var n := WordRun(text, Bare);
    RunOfPrefix(text, Bare);
    OddsBehind(text, Bare);
    if n < |text| {
      ClosedBeforeBreak(text, Bare);
    }
  }

  lemma {:induction false} FirstWord(text: string)
    requires text != "" && Literal(text) && !Space(text[0]) && Odds(text, Bare) == 0
    ensures var n := WordRun(text, Bare);
      Split(text, Bare, None) == Following(Unquote(text[..n]), Split(text[n..], Bare, None))
  {
    FirstToken(text);
    var n := WordRun(text, Bare);
    SplitFirst(text);
    assert text[..n] + text[n..] == text;
    SplitWord(text[..n], text[n..], Bare, "");
    var first := Unquote(text[..n]);
    assert first.Some? ==> "" + first.value == first.value;
  }

  lemma {:induction false} TokensReadAsText(text: string)
    requires Literal(text) && Odds(text, Bare) == 0
    ensures Split(text, Bare, None) == UnquoteAll(Tokens(text))
    decreases |text|
  {
    if text != "" {
      LiteralRest(text);
      if Space(text[0]) {
        TokensReadAsText(text[1..]);
        var rest := Split(text[1..], Bare, None);
        assert rest.Some? ==> [] + rest.value == rest.value;
      } else {
        FirstToken(text);
        FirstWord(text);
        TokensReadAsText(text[WordRun(text, Bare)..]);
        assert Tokens(text)[1..] == Tokens(text[WordRun(text, Bare)..]);
      }
    }
  }

  // ------------------------------------------------------------ and only there

  /** Characters in all the words together. */
  function Length(words: seq<string>): nat { if words == [] then 0 else |words[0]| + Length(words[1..]) }

  /** Characters a text contributes to words, if all bare space separates. */
  function Weight(text: string, m: Mode): nat {
    if text == "" then 0
    else Weight(text[1..], Step(m, text[0])) + if m.Bare? && Space(text[0]) then 0 else |Piece(m, text[0])|
  }

  lemma LengthFront(word: string, rest: seq<string>)
    ensures Length([word] + rest) == |word| + Length(rest)
  {
    assert ([word] + rest)[1..] == rest;
  }

  /** In one pass, the space that does not separate ends up in words. */
  lemma {:induction false} SplitLength(text: string, m: Mode, word: Option<string>)
    requires Split(text, m, word).Some?
    ensures Length(Split(text, m, word).value) == |word.GetOr("")| + Weight(text, m) + Odds(text, m)
    decreases |text|
  {
    if text == "" {
      if word.Some? {
        LengthFront(word.value, []);
        assert [word.value] + [] == [word.value];
      }
    } else if m.Bare? && Separator(text[0]) {
      SplitLength(text[1..], Bare, None);
      var rest := Split(text[1..], Bare, None).value;
      assert [] + rest == rest;
      if word.Some? {
        LengthFront(word.value, rest);
      }
    } else {
      SplitLength(text[1..], Step(m, text[0]), Some(word.GetOr("") + Piece(m, text[0])));
    }
  }

  lemma {:induction false} UnquotedLength(text: string, m: Mode)
    requires Unquoted(text[..WordRun(text, m)], m).Some?
    ensures var n := WordRun(text, m);
      Weight(text, m) == |Unquoted(text[..n], m).value| + Weight(text[n..], Bare)
  {
    var n := WordRun(text, m);
    if Ends(text, m) {
      assert text[..0] == "" && text[0..] == text;
    } else {
      var run := text[..n];
      assert run[1..] == text[1..][..n - 1] && text[1..][n - 1..] == text[n..];
      UnquotedStep(run, m);
      UnquotedLength(text[1..], Step(m, text[0]));
    }
  }

  lemma {:induction false} TokensLength(text: string)
    requires Literal(text) && UnquoteAll(Tokens(text)).Some?
    ensures Length(UnquoteAll(Tokens(text)).value) == Weight(text, Bare)
    decreases |text|
  {
    if text != "" {
      LiteralRest(text);
      if Space(text[0]) {
        TokensLength(text[1..]);
      } else {
        FirstToken(text);
        var n := WordRun(text, Bare);
        assert Tokens(text)[1..] == Tokens(text[n..]);
        TokensLength(text[n..]);
        UnquotedLength(text, Bare);
        LengthFront(Unquote(text[..n]).value, UnquoteAll(Tokens(text[n..])).value);
      }
    }
  }

  /** Where there are no operators and every word can be read, reading the whole text in one
      pass agrees with reading the scanner's tokens one by one if and only if no space outside
      quotes and escapes separates for the scanner alone. */
  lemma TokensReadAsTextExactly(text: string)
    requires Literal(text) && UnquoteAll(Tokens(text)).Some?
    ensures Split(text, Bare, None) == UnquoteAll(Tokens(text)) <==> Odds(text, Bare) == 0
  {
    if Odds(text, Bare) == 0 {
      TokensReadAsText(text);
    } else if Split(text, Bare, None).Some? {
      SplitLength(text, Bare, None);
      TokensLength(text);
    }
  }

  // ------------------------------------------------------------------- joining

  /** Where a text leaves the reader. */
  function End(text: string, m: Mode): Mode { if text == "" then m else End(text[1..], Step(m, text[0])) }

  lemma {:induction false} OddsJoin(a: string, b: string, m: Mode)
    ensures Odds(a + b, m) == Odds(a, m) + Odds(b, End(a, m)) && End(a + b, m) == End(b, End(a, m))
  {
    if a == "" {
      assert a + b == b;
    } else {
      assert (a + b)[1..] == a[1..] + b;
      OddsJoin(a[1..], b, Step(m, a[0]));
    }
  }

  lemma {:induction false} RunHasNone(token: string, m: Mode)
    requires WordRun(token, m) == |token| && Unquoted(token, m).Some?
    ensures Odds(token, m) == 0 && End(token, m) == Bare
  {
    if token != "" {
      UnquotedStep(token, m);
      RunHasNone(token[1..], Step(m, token[0]));
    }
  }

  lemma {:induction false} BlankEnds(text: string, from: nat, to: nat)
    requires from <= to <= |text| && Blank(text, from, to)
    ensures End(text[from..to], Bare) == Bare
    decreases if from <= to then to - from else 0
  {
    if from < to {
      assert text[from..to][1..] == text[from + 1..to];
      BlankEnds(text, from + 1, to);
    }
  }

  lemma SpanEnds(text: string, parts: seq<Span>, k: nat)
    requires Clean(text, parts) && k < |parts|
    ensures End(Cut(text, parts, k, k + 1), Bare) == Bare
  {
    OrderedAt(text, parts, k);
    var edge, p := Edge(parts, k), parts[k];
    BlankEnds(text, edge, p.start);
    RunHasNone(p.text, Bare);
    OddsJoin(text[edge..p.start], p.text, Bare);
    Joined(text, edge, p.start, p.end, "");
    assert text[edge..p.end] == text[edge..p.start] + p.text;
  }

  lemma EndsJoin(text: string, a: nat, b: nat, c: nat)
    requires a <= b <= c <= |text| && End(text[a..b], Bare) == Bare && End(text[b..c], Bare) == Bare
    ensures End(text[a..c], Bare) == Bare
  {
    OddsJoin(text[a..b], text[b..c], Bare);
    assert text[a..b] + text[b..c] == text[a..c];
  }

  /** At every edge between spans the reader is outside quotes and escapes. */
  lemma {:induction false} CutEnds(text: string, parts: seq<Span>, i: nat, j: nat)
    requires Clean(text, parts) && i <= j <= |parts|
    ensures End(Cut(text, parts, i, j), Bare) == Bare
    decreases j - i
  {
    if i == j {
      assert Cut(text, parts, i, j) == "";
    } else {
      SpanEnds(text, parts, i);
      CutEnds(text, parts, i + 1, j);
      EdgesAscend(text, parts, i, i + 1);
      EdgesAscend(text, parts, i + 1, j);
      EndsJoin(text, Edge(parts, i), Edge(parts, i + 1), Edge(parts, j));
    }
  }

  /** Cutting a piece out of a text, and replacing what follows it, adds no odd space. */
  lemma OddsCut(text: string, a: nat, b: nat, c: nat, rest: string)
    requires a <= b <= c <= |text| && End(text[a..b], Bare) == Bare && End(text[a..c], Bare) == Bare
    requires Odds(rest, Bare) <= Odds(text[c..], Bare)
    ensures Odds(text[a..b] + rest, Bare) <= Odds(text[a..], Bare)
  {
    OddsJoin(text[a..b], rest, Bare);
    OddsJoin(text[a..b], text[b..c], Bare);
    assert text[a..b] + text[b..c] == text[a..c];
    OddsJoin(text[a..c], text[c..], Bare);
    Rejoined(text, a, c);
  }
}
