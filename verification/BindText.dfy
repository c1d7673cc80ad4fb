/** Editing a command's own text so that it reads as the bound words (bind_runner_text
    in libexec/session_identity.py): quoting, globs and spacing of the child survive. */
module BindText {
  import opened Common
  import opened Words
  import opened OnePass
  import opened SessionIdentity

  function WordsOf(text: string): Option<seq<string>> { UnquoteAll(Tokens(text)) }

  /** `memcap environment run` takes the same options one word later. */
  predicate Environment(words: seq<string>) { |words| >= 3 && words[1] == "environment" && words[2] == "run" }

  function Form(words: seq<string>): seq<string> {
    if Environment(words) then [words[0]] + words[2..] else words
  }

  function Head(words: seq<string>): nat { if Environment(words) then 3 else 2 }

  // --------------------------------------------------------------- reading words

  predicate Reads(tokens: seq<string>, words: seq<string>) {
    |tokens| == |words| && forall k :: 0 <= k < |tokens| ==> Unquote(tokens[k]) == Some(words[k])
  }

  lemma {:induction false} UnquoteAllReads(tokens: seq<string>, words: seq<string>)
    ensures UnquoteAll(tokens) == Some(words) <==> Reads(tokens, words)
  {
    if tokens != [] && words != [] {
      UnquoteAllReads(tokens[1..], words[1..]);
      assert [words[0]] + words[1..] == words;
      assert Reads(tokens, words) ==> Reads(tokens[1..], words[1..]);
      assert Unquote(tokens[0]) == Some(words[0]) && Reads(tokens[1..], words[1..]) ==> Reads(tokens, words) by {
        forall k | 0 <= k < |tokens| && Unquote(tokens[0]) == Some(words[0]) && Reads(tokens[1..], words[1..])
          ensures Unquote(tokens[k]) == Some(words[k])
        {
          if k > 0 {
            assert tokens[k] == tokens[1..][k - 1] && words[k] == words[1..][k - 1];
          }
        }
      }
    }
  }

  lemma {:induction false} UnreadableToken(tokens: seq<string>, k: nat)
    requires k < |tokens| && Unquote(tokens[k]).None?
    ensures UnquoteAll(tokens).None?
  {
    if k > 0 {
      UnreadableToken(tokens[1..], k - 1);
    }
  }

  lemma ReadsJoin(a: seq<string>, b: seq<string>, c: seq<string>, d: seq<string>)
    requires Reads(a, c) && Reads(b, d)
    ensures Reads(a + b, c + d)
  {
  }

  lemma ReadsSplit(tokens: seq<string>, words: seq<string>, n: nat)
    requires Reads(tokens, words) && n <= |tokens|
    ensures Reads(tokens[..n], words[..n]) && Reads(tokens[n..], words[n..])
  {
  }

  lemma {:induction false} KeptReads(o: Options, words: seq<string>, tokens: seq<string>)
    requires Reads(tokens, words) && Grammatical(o, words)
    ensures Reads(Kept(o, words, tokens), Kept(o, words, words))
  {
    if words != [] && !Stops(words[0]) {
      var n := Size(o, words[0]);
      ReadsSplit(tokens, words, n);
      KeptReads(o, words[n..], tokens[n..]);
      ReadsJoin(tokens[..n], Kept(o, words[n..], tokens[n..]), words[..n], Kept(o, words[n..], words[n..]));
    }
  }

  /** The tokens of the edited text. */
  function BoundTokens(o: Options, tokens: seq<string>, words: seq<string>, key: string): seq<string>
    requires Head(words) <= |words| == |tokens| && Grammatical(o, words[Head(words)..])
  {
    tokens[..Head(words)] + ([KEY, Quote(key)] + Kept(o, words[Head(words)..], tokens[Head(words)..]))
  }

  lemma FormTail(words: seq<string>)
    requires |Form(words)| >= 2
    ensures Head(words) <= |words| && Form(words)[2..] == words[Head(words)..]
    ensures Form(words)[..2] == if Environment(words) then [words[0], "run"] else words[..2]
  {
  }

  lemma {:induction false} KeyReads()
    ensures Unquote(KEY) == Some(KEY) && Atom(KEY)
  {
    assert AllSafe(KEY);
    SafeReadsBack(KEY);
  }

  lemma {:induction false} KeyAndQuoteRead(key: string)
    ensures Reads([KEY, Quote(key)], [KEY, key])
  {
    KeyReads();
    QuoteRoundTrip(key);
  }

  /** The words those tokens should read as. */
  function BoundWords(o: Options, words: seq<string>, key: string): seq<string>
    requires Head(words) <= |words| && Grammatical(o, words[Head(words)..])
  {
    words[..Head(words)] + ([KEY, key] + Kept(o, words[Head(words)..], words[Head(words)..]))
  }

  lemma {:induction false} BoundTokensRead(o: Options, tokens: seq<string>, words: seq<string>, key: string)
    requires Reads(tokens, words) && Head(words) <= |words| && Grammatical(o, words[Head(words)..])
    ensures Reads(BoundTokens(o, tokens, words, key), BoundWords(o, words, key))
  {
    var h := Head(words);
    ReadsSplit(tokens, words, h);
    KeyAndQuoteRead(key);
    KeptReads(o, words[h..], tokens[h..]);
    ReadsJoin([KEY, Quote(key)], Kept(o, words[h..], tokens[h..]), [KEY, key], Kept(o, words[h..], words[h..]));
    ReadsJoin(tokens[..h], [KEY, Quote(key)] + Kept(o, words[h..], tokens[h..]),
              words[..h], [KEY, key] + Kept(o, words[h..], words[h..]));
  }

  /** They are exactly the words that binding the words gives. */
  lemma BoundWordsAreBound(o: Options, words: seq<string>, key: string)
    requires Bind(o, Form(words), key).Some?
    ensures Head(words) <= |words| && Grammatical(o, words[Head(words)..])
    ensures Form(BoundWords(o, words, key)) == Bind(o, Form(words), key).value
  {
    FormTail(words);
    FormOfBound(words, [KEY, key] + Kept(o, words[Head(words)..], words[Head(words)..]));
  }

  lemma FormOfBound(words: seq<string>, tail: seq<string>)
    requires |Form(words)| >= 2 && Runs(Form(words)) && Head(words) <= |words|
    ensures Form(words[..Head(words)] + tail) == Form(words)[..2] + tail
  {
    FormTail(words);
    if Environment(words) {
      LongForm(words[0], tail);
      assert words[..3] == [words[0], "environment", "run"];
    } else {
      assert (words[..2] + tail)[1] == words[1];
    }
  }

  lemma LongForm(first: string, tail: seq<string>)
    ensures Form([first, "environment", "run"] + tail) == [first, "run"] + tail
  {
    assert ([first, "environment", "run"] + tail)[2..] == ["run"] + tail;
  }

  lemma {:induction false} KeptIsPart(o: Options, words: seq<string>, source: seq<string>)
    requires Grammatical(o, words) && |source| == |words|
    ensures forall t :: t in Kept(o, words, source) ==> t in source
  {
    if words != [] && !Stops(words[0]) {
      var n := Size(o, words[0]);
      KeptIsPart(o, words[n..], source[n..]);
    }
  }

  predicate NoOperators(tokens: seq<string>) { forall t :: t in tokens && t != "" ==> !Operator(t[0]) }

  lemma BoundTokensAreLiteral(o: Options, tokens: seq<string>, words: seq<string>, key: string)
    requires Head(words) <= |words| == |tokens| && Grammatical(o, words[Head(words)..]) && NoOperators(tokens)
    ensures NoOperators(BoundTokens(o, tokens, words, key))
  {
    var h := Head(words);
    KeptIsPart(o, words[h..], tokens[h..]);
    QuoteRoundTrip(key);
  }

  // -------------------------------------------------------------------- editing

  datatype Edit = Edit(start: nat, end: nat, text: string)

  function Splice(text: string, e: Edit): string {
    if e.start <= e.end <= |text| then text[..e.start] + e.text + text[e.end..] else text
  }

  /** All edits, the last one first. */
  function Patched(text: string, edits: seq<Edit>): string {
    if edits == [] then text else Splice(Patched(text, edits[1..]), edits[0])
  }

  /** Deletions of the session key options from option i on. */
  function Deletions(o: Options, parts: seq<Span>, words: seq<string>, i: nat): seq<Edit>
    requires |parts| == |words| && i <= |words| && Grammatical(o, words[i..])
    decreases |words| - i
  {
    if i == |words| || Stops(words[i]) then []
    else
      var next := i + Size(o, words[i]);
      assert words[i..][0] == words[i] && words[i..][Size(o, words[i])..] == words[next..];
      var more := Deletions(o, parts, words, next);
      if Name(words[i]) == KEY then [Edit(parts[i].start, parts[next - 1].end, "")] + more else more
  }

  /** What an edited suffix of the text must look like: the kept tokens, and no more odd space. */
  predicate IsTail(o: Options, text: string, parts: seq<Span>, words: seq<string>, i: nat, tail: string)
    requires |parts| == |words| && i <= |words| && Grammatical(o, words[i..])
  {
    && StartsBlank(tail) && Tokens(tail) == Kept(o, words[i..], Texts(parts)[i..])
    && Edge(parts, i) <= |text| && Odds(tail, Bare) <= Odds(text[Edge(parts, i)..], Bare)
  }

  lemma KeptStep(o: Options, words: seq<string>, source: seq<string>, i: nat)
    requires |source| == |words| && i < |words| && !Stops(words[i]) && Grammatical(o, words[i..])
    ensures var next := i + Size(o, words[i]);
      && i < next <= |words| && Grammatical(o, words[next..])
      && Kept(o, words[i..], source[i..]) == (if Name(words[i]) == KEY then [] else source[i..next])
         + Kept(o, words[next..], source[next..])
  {
    var next := i + Size(o, words[i]);
    assert words[i..][0] == words[i];
    assert words[i..][next - i..] == words[next..] && source[i..][next - i..] == source[next..]
        && source[i..][..next - i] == source[i..next];
  }

  lemma SpliceOut(text: string, a: nat, b: nat, c: nat, tail: string)
    requires a <= b <= c <= |text|
    ensures Splice(text[..c] + tail, Edit(b, c, "")) == text[..a] + (text[a..b] + tail)
  {
    var whole := text[..c] + tail;
    assert whole[..b] == text[..b] && whole[c..] == tail && text[..a] + text[a..b] == text[..b];
  }

  lemma SpliceIn(text: string, a: nat, inserted: string, tail: string)
    requires a <= |text|
    ensures Splice(text[..a] + tail, Edit(a, a, inserted)) == text[..a] + (inserted + tail)
  {
    var whole := text[..a] + tail;
    assert whole[..a] == text[..a] && whole[a..] == tail;
  }

  lemma Regroup(text: string, a: nat, c: nat, tail: string)
    requires a <= c <= |text|
    ensures text[..c] + tail == text[..a] + (text[a..c] + tail)
  {
  }

  /** A deletion leaves the gap in front of it. */
  lemma GapTail(text: string, parts: seq<Span>, i: nat, tail: string)
    requires Clean(text, parts) && 0 < i < |parts|
    ensures Edge(parts, i) < parts[i].start <= |text|
    ensures var gap := text[Edge(parts, i)..parts[i].start];
      StartsBlank(gap + tail) && Tokens(gap + tail) == Tokens(tail)
  {
    OrderedAt(text, parts, i);
    EdgeIsBlank(text, parts, i);
    var gap := text[Edge(parts, i)..parts[i].start];
    assert (gap + tail)[0] == text[Edge(parts, i)..][0];
    BlankSkipped(text, Edge(parts, i), parts[i].start, tail);
  }

  lemma KeptOdds(text: string, parts: seq<Span>, i: nat, next: nat, rest: string)
    requires Clean(text, parts) && i <= next <= |parts| && Edge(parts, next) <= |text|
    requires Odds(rest, Bare) <= Odds(text[Edge(parts, next)..], Bare)
    ensures Edge(parts, i) <= |text|
      && Odds(Cut(text, parts, i, next) + rest, Bare) <= Odds(text[Edge(parts, i)..], Bare)
  {
    EdgesAscend(text, parts, i, next);
    CutEnds(text, parts, i, next);
    OddsJoin(Cut(text, parts, i, next), rest, Bare);
    OddsJoin(Cut(text, parts, i, next), text[Edge(parts, next)..], Bare);
    Rejoined(text, Edge(parts, i), Edge(parts, next));
  }

  lemma DeletionOdds(text: string, parts: seq<Span>, i: nat, next: nat, rest: string)
    requires Clean(text, parts) && i < next <= |parts| && Edge(parts, next) <= |text|
    requires Odds(rest, Bare) <= Odds(text[Edge(parts, next)..], Bare)
    ensures Edge(parts, i) <= parts[i].start <= |text|
    ensures Odds(text[Edge(parts, i)..parts[i].start] + rest, Bare) <= Odds(text[Edge(parts, i)..], Bare)
  {
    OrderedAt(text, parts, i);
    EdgesAscend(text, parts, i + 1, next);
    BlankEnds(text, Edge(parts, i), parts[i].start);
    CutEnds(text, parts, i, next);
    OddsCut(text, Edge(parts, i), parts[i].start, Edge(parts, next), rest);
  }

  /** Editing from option i on leaves the text before it, and then a tail with the kept tokens. */
  lemma {:induction false} EditedTail(o: Options, text: string, parts: seq<Span>, words: seq<string>, i: nat)
    returns (tail: string)
    requires Clean(text, parts) && |parts| == |words| && 0 < i <= |words| && Grammatical(o, words[i..])
    ensures Edge(parts, i) <= |text| && Patched(text, Deletions(o, parts, words, i)) == text[..Edge(parts, i)] + tail
    ensures IsTail(o, text, parts, words, i, tail)
    decreases |words| - i
  {
    EdgesAscend(text, parts, i, i);
    if i == |words| || Stops(words[i]) {
      tail := text[Edge(parts, i)..];
      EdgeIsBlank(text, parts, i);
      TokensFrom(text, parts, i);
      WholeText(text, Edge(parts, i));
    } else {
      var next := i + Size(o, words[i]);
      KeptStep(o, words, Texts(parts), i);
      var rest := EditedTail(o, text, parts, words, next);
      EdgesAscend(text, parts, i, next);
      if Name(words[i]) == KEY {
        tail := DeletedTail(o, text, parts, words, i, rest);
      } else {
        tail := KeptTail(o, text, parts, words, i, rest);
      }
    }
  }

  lemma WholeText(text: string, a: nat)
    requires a <= |text|
    ensures text[..a] + text[a..] == text
  {
  }

  lemma {:induction false} DeletedTail(o: Options, text: string, parts: seq<Span>, words: seq<string>, i: nat,
                                       rest: string) returns (tail: string)
    requires Clean(text, parts) && |parts| == |words| && 0 < i < |words| && !Stops(words[i])
      && Grammatical(o, words[i..])
    requires Name(words[i]) == KEY
    requires var next := i + Size(o, words[i]);
      && next <= |words| && Grammatical(o, words[next..]) && Edge(parts, next) <= |text|
      && Patched(text, Deletions(o, parts, words, next)) == text[..Edge(parts, next)] + rest
         && IsTail(o, text, parts, words, next, rest)
    ensures Edge(parts, i) <= |text| && Patched(text, Deletions(o, parts, words, i)) == text[..Edge(parts, i)] + tail
    ensures IsTail(o, text, parts, words, i, tail)
  {
    var next := i + Size(o, words[i]);
    KeptStep(o, words, Texts(parts), i);
    GapTail(text, parts, i, rest);
    OrderedAt(text, parts, i);
    EdgesAscend(text, parts, i + 1, next);
    tail := text[Edge(parts, i)..parts[i].start] + rest;
    SpliceOut(text, Edge(parts, i), parts[i].start, Edge(parts, next), rest);
    DeletionOdds(text, parts, i, next, rest);
    var edit := Edit(parts[i].start, parts[next - 1].end, "");
    PatchedStep(text, edit, Deletions(o, parts, words, next));
  }

  lemma PatchedStep(text: string, e: Edit, edits: seq<Edit>)
    ensures Patched(text, [e] + edits) == Splice(Patched(text, edits), e)
  {
    assert ([e] + edits)[1..] == edits;
  }

  lemma {:induction false} KeptTail(o: Options, text: string, parts: seq<Span>, words: seq<string>, i: nat,
                                    rest: string) returns (tail: string)
    requires Clean(text, parts) && |parts| == |words| && 0 < i < |words| && !Stops(words[i])
      && Grammatical(o, words[i..])
    requires Name(words[i]) != KEY
    requires var next := i + Size(o, words[i]);
      && next <= |words| && Grammatical(o, words[next..]) && Edge(parts, next) <= |text|
      && Patched(text, Deletions(o, parts, words, next)) == text[..Edge(parts, next)] + rest
         && IsTail(o, text, parts, words, next, rest)
    ensures Edge(parts, i) <= |text| && Patched(text, Deletions(o, parts, words, i)) == text[..Edge(parts, i)] + tail
    ensures IsTail(o, text, parts, words, i, tail)
  {
    var next := i + Size(o, words[i]);
    KeptStep(o, words, Texts(parts), i);
    EdgesAscend(text, parts, i, next);
    tail := Cut(text, parts, i, next) + rest;
    CutIsBlank(text, parts, i, next, rest);
    TokensBetween(text, parts, i, next, rest);
    Regroup(text, Edge(parts, i), Edge(parts, next), rest);
    KeptOdds(text, parts, i, next, rest);
    NoDeletion(o, parts, words, i, next);
  }

  lemma NoDeletion(o: Options, parts: seq<Span>, words: seq<string>, i: nat, next: nat)
    requires |parts| == |words| && i < next <= |words| && Grammatical(o, words[i..]) && Grammatical(o, words[next..])
    requires !Stops(words[i]) && Name(words[i]) != KEY && next == i + Size(o, words[i])
    ensures Deletions(o, parts, words, i) == Deletions(o, parts, words, next)
  {
  }

  function Insertion(parts: seq<Span>, words: seq<string>, key: string): Edit
    requires Head(words) <= |parts|
  {
    Edit(Edge(parts, Head(words)), Edge(parts, Head(words)), " " + KEY + " " + Quote(key))
  }

  function AllEdits(o: Options, parts: seq<Span>, words: seq<string>, key: string): seq<Edit>
    requires |parts| == |words| && Head(words) <= |words| && Grammatical(o, words[Head(words)..])
  {
    [Insertion(parts, words, key)] + Deletions(o, parts, words, Head(words))
  }

  lemma SpacedAtom(token: string, rest: string)
    requires Atom(token) && StartsBlank(rest)
    ensures Tokens(" " + (token + rest)) == [token] + Tokens(rest)
  {
    AtomFirst(token, rest);
    assert (" " + (token + rest))[1..] == token + rest;
  }

  lemma Grouped(a: string, b: string, rest: string)
    ensures " " + a + " " + b + rest == " " + (a + (" " + (b + rest)))
  {
  }

  lemma InsertedTokens(key: string, tail: string)
    requires StartsBlank(tail)
    ensures Tokens(" " + KEY + " " + Quote(key) + tail) == [KEY, Quote(key)] + Tokens(tail)
  {
    KeyReads();
    QuoteRoundTrip(key);
    SpacedAtom(Quote(key), tail);
    SpacedAtom(KEY, " " + (Quote(key) + tail));
    Grouped(KEY, Quote(key), tail);
  }

  lemma SpacedOdds(token: string)
    requires Atom(token)
    ensures Odds(" " + token, Bare) == 0 && End(" " + token, Bare) == Bare
  {
    RunHasNone(token, Bare);
    assert (" " + token)[1..] == token;
  }

  lemma InsertedOdds(key: string)
    ensures var text := " " + KEY + " " + Quote(key); Odds(text, Bare) == 0 && End(text, Bare) == Bare
  {
    KeyReads();
    QuoteRoundTrip(key);
    SpacedOdds(KEY);
    SpacedOdds(Quote(key));
    OddsJoin(" " + KEY, " " + Quote(key), Bare);
    assert " " + KEY + " " + Quote(key) == " " + KEY + (" " + Quote(key));
  }

  /** The edited text holds no more odd space than the text did. */
  lemma EditedOdds(o: Options, text: string, parts: seq<Span>, words: seq<string>, key: string)
    requires Clean(text, parts) && |parts| == |words| && Head(words) <= |words| && Grammatical(o, words[Head(words)..])
    ensures Odds(Patched(text, AllEdits(o, parts, words, key)), Bare) <= Odds(text, Bare)
  {
    var h := Head(words);
    var tail := EditedTail(o, text, parts, words, h);
    var e := Insertion(parts, words, key);
    PatchedStep(text, e, Deletions(o, parts, words, h));
    SpliceIn(text, Edge(parts, h), e.text, tail);
    EdgesAscend(text, parts, 0, h);
    InsertedOdds(key);
    OddsJoin(e.text, tail, Bare);
    CutEnds(text, parts, 0, h);
    assert Cut(text, parts, 0, h) == text[..Edge(parts, h)];
    OddsJoin(text[..Edge(parts, h)], e.text + tail, Bare);
    OddsJoin(text[..Edge(parts, h)], text[Edge(parts, h)..], Bare);
    WholeText(text, Edge(parts, h));
  }

  /** The edited text holds exactly the edited tokens, each other word spelled as it was. */
  lemma EditedTokens(o: Options, text: string, parts: seq<Span>, words: seq<string>, key: string)
    requires Clean(text, parts) && |parts| == |words| && Head(words) <= |words| && Grammatical(o, words[Head(words)..])
    ensures Tokens(Patched(text, AllEdits(o, parts, words, key))) == BoundTokens(o, Texts(parts), words, key)
  {
    var h := Head(words);
    var tail := EditedTail(o, text, parts, words, h);
    var e := Insertion(parts, words, key);
    PatchedStep(text, e, Deletions(o, parts, words, h));
    SpliceIn(text, Edge(parts, h), e.text, tail);
    InsertedTokens(key, tail);
    TokensBetween(text, parts, 0, h, e.text + tail);
  }

  /** Deletions in the order of their place in the text, none reaching into the next: sorted
      as they were found. */
  predicate Later(edits: seq<Edit>, from: nat) {
    edits == [] || (from <= edits[0].start < edits[0].end && Later(edits[1..], edits[0].end))
  }

  lemma {:induction false} EdgesRise(text: string, parts: seq<Span>, i: nat, j: nat)
    requires Laid(text, parts) && i <= j <= |parts|
    ensures Edge(parts, i) <= Edge(parts, j)
    decreases j - i
  {
    if i < j {
      LaidAt(text, parts, j - 1);
      EdgesRise(text, parts, i, j - 1);
    }
  }

  lemma {:induction false} LaterFrom(edits: seq<Edit>, from: nat, earlier: nat)
    requires Later(edits, from) && earlier <= from
    ensures Later(edits, earlier)
  {
  }

  lemma {:induction false} DeletionsAreLater(o: Options, text: string, parts: seq<Span>, words: seq<string>, i: nat)
    requires Laid(text, parts) && |parts| == |words| && i <= |words| && Grammatical(o, words[i..])
    ensures Later(Deletions(o, parts, words, i), Edge(parts, i))
    decreases |words| - i
  {
    if i < |words| && !Stops(words[i]) {
      KeptStep(o, words, words, i);
      var next := i + Size(o, words[i]);
      DeletionsAreLater(o, text, parts, words, next);
      LaidAt(text, parts, i);
      EdgesRise(text, parts, i + 1, next);
      var more := Deletions(o, parts, words, next);
      var first := Edit(parts[i].start, parts[next - 1].end, "");
      assert ([first] + more)[1..] == more;
      LaterFrom(more, Edge(parts, next), Edge(parts, i));
    }
  }

  // --------------------------------------------------------------------- method

  method ReadWords(parts: seq<Span>) returns (words: Option<seq<string>>)
    ensures words == UnquoteAll(Texts(parts))
  {
    var read := [];
    for k := 0 to |parts|
      invariant Reads(Texts(parts)[..k], read)
    {
      TextsAt(parts, k);
      var word := Unquote(parts[k].text);
      if word.None? {
        UnreadableToken(Texts(parts), k);
        return None;
      }
      read := read + [word.value];
    }
    UnquoteAllReads(Texts(parts), read);
    words := Some(read);
  }

  /** Having passed the grammar, an option takes one word if it is a flag or carries its value. */
  lemma SizeByFlags(o: Options, word: string)
    requires Known(o, word)
    ensures Size(o, word) == if Name(word) in o.flags || HasValue(word) then 1 else 2
  {
    assert !HasValue(word) ==> Name(word) == word;
  }

  lemma {:induction false} CollectStep(o: Options, parts: seq<Span>, words: seq<string>, i: nat, edits: seq<Edit>)
    requires |parts| == |words| && i < |words| && !Stops(words[i]) && Grammatical(o, words[i..])
    ensures var next := i + Size(o, words[i]);
      && Known(o, words[i]) && i < next <= |words| && Grammatical(o, words[next..])
      && edits + Deletions(o, parts, words, i)
         == (if Name(words[i]) == KEY then edits + [Edit(parts[i].start, parts[next - 1].end, "")] else edits)
             + Deletions(o, parts, words, next)
  {
    KeptStep(o, words, words, i);
    assert words[i..][0] == words[i];
    var next := i + Size(o, words[i]);
    EditsJoin(edits, Edit(parts[i].start, parts[next - 1].end, ""), Deletions(o, parts, words, next));
  }

  lemma EditsJoin(edits: seq<Edit>, e: Edit, more: seq<Edit>)
    ensures edits + ([e] + more) == edits + [e] + more
  {
  }

  method CollectEdits(o: Options, parts: seq<Span>, words: seq<string>, key: string) returns (edits: seq<Edit>)
    requires |parts| == |words| && Head(words) <= |words| && Grammatical(o, words[Head(words)..])
    ensures edits == AllEdits(o, parts, words, key)
  {
    var i := Head(words);
    edits := [Insertion(parts, words, key)];
    while i < |words| && !Stops(words[i])
      invariant i <= |words| && Grammatical(o, words[i..])
      invariant edits + Deletions(o, parts, words, i) == AllEdits(o, parts, words, key)
      decreases |words| - i
    {
      CollectStep(o, parts, words, i, edits);
      SizeByFlags(o, words[i]);
      if Name(words[i]) == KEY {
        var last := if HasValue(words[i]) then i else i + 1;
        edits := edits + [Edit(parts[i].start, parts[last].end, "")];
      }
      if Name(words[i]) in o.flags || HasValue(words[i]) {
        i := i + 1;
      } else {
        i := i + 2;
      }
    }
    assert edits + [] == edits;
  }

  /** Apply sorted edits from the right. */
  method ApplyEdits(text: string, edits: seq<Edit>) returns (r: string)
    requires edits != [] && edits[0].start == edits[0].end && Later(edits[1..], edits[0].end)
    ensures r == Patched(text, edits)
  {
    r := text;
    var k := |edits|;
    assert edits[k..] == [];
    while k > 0
      invariant 0 <= k <= |edits| && r == Patched(text, edits[k..])
      decreases k
    {
      k := k - 1;
      assert edits[k..][1..] == edits[k + 1..];
      r := Splice(r, edits[k]);
    }
    assert edits[k..] == edits;
  }

  lemma {:induction false} LiteralIsClean(text: string, parts: seq<Span>, words: seq<string>)
    requires Texts(parts) == Tokens(text) && Laid(text, parts)
    requires Edge(parts, |parts|) <= |text| && Blank(text, Edge(parts, |parts|), |text|)
    requires Literal(text) && Reads(Texts(parts), words)
    ensures Clean(text, parts)
  {
    TokensAreMeasured(text);
    forall k | 0 <= k < |parts| ensures Atom(parts[k].text) {
      TextsAt(parts, k);
      assert Measured(Tokens(text)[k]);
    }
    LaidAtomsAreOrdered(text, parts);
  }

  /** What a bound text is like: it reads, token by token, as the bound words of the command,
      and holds no more odd space. */
  predicate IsBoundText(o: Options, command: string, result: string, key: string)
    requires WordsOf(command).Some?
  {
    && Literal(result) && WordsOf(result).Some? && Odds(result, Bare) <= Odds(command, Bare)
    && Some(Form(WordsOf(result).value)) == Bind(o, Form(WordsOf(command).value), key)
  }

  /** The text edit refines the word edit. Nothing is returned exactly when the words cannot be
      read or bound; a command already bound is returned as it is; otherwise, for a command
      without operators, the result reads as the bound words, and every word that is not a
      session key keeps its source text. */
  method BindRunnerText(o: Options, command: string, key: string) returns (r: Option<string>)
    ensures r.None? <==> WordsOf(command).None? || Bind(o, Form(WordsOf(command).value), key).None?
    ensures r.Some? && Bind(o, Form(WordsOf(command).value), key) == Some(Form(WordsOf(command).value)) ==>
      r.value == command
    ensures r.Some? && Literal(command) ==> IsBoundText(o, command, r.value, key)
    ensures r.Some? && Literal(command) && r.value != command ==>
      var words := WordsOf(command).value;
      && |words| == |Tokens(command)| && Head(words) <= |words| && Grammatical(o, words[Head(words)..])
      && Tokens(r.value) == BoundTokens(o, Tokens(command), words, key)
  {
    var parts := Spans(command);
    var read := ReadWords(parts);
    if read.None? {
      return None;
    }
    var words := read.value;
    UnquoteAllReads(Texts(parts), words);
    var bound := BindRunner(o, Form(words), key);
    if bound.None? {
      return None;
    }
    if bound.value == Form(words) {
      return Some(command);
    }
    BoundWordsAreBound(o, words, key);
    var edits := CollectEdits(o, parts, words, key);
    DeletionsAreLater(o, command, parts, words, Head(words));
    assert edits[1..] == Deletions(o, parts, words, Head(words));
    var text := ApplyEdits(command, edits);
    if Literal(command) {
      LiteralIsClean(command, parts, words);
      EditedTokens(o, command, parts, words, key);
      EditedOdds(o, command, parts, words, key);
      BoundTokensRead(o, Texts(parts), words, key);
      UnquoteAllReads(Tokens(text), BoundWords(o, words, key));
      BoundTokensAreLiteral(o, Texts(parts), words, key);
    }
    r := Some(text);
  }

  /** What the text edit promises, said of the texts alone. Where no space but the splitter's
      separates the command's words, the result read in one pass is the bound words of the
      command read in one pass, and binding it again leaves it alone. */
  lemma {:induction false} BoundTextReadsBound(o: Options, command: string, result: string, key: string)
    requires Literal(command) && WordsOf(command).Some? && IsBoundText(o, command, result, key)
    requires Odds(command, Bare) == 0
    ensures var before, after := Split(command, Bare, None), Split(result, Bare, None);
      && before.Some? && after.Some?
      && Bind(o, Form(before.value), key) == Some(Form(after.value))
      && Bind(o, Form(after.value), key) == Some(Form(after.value))
  {
    TokensReadAsText(command);
    TokensReadAsText(result);
    BindForgets(o, Form(WordsOf(command).value), key, key);
  }
}

/** The options of `memcap run`. */
module RunnerOptions {
  import opened SessionIdentity

  const VALUES: set<string> := {
    "--classification-code", "--resource", "--memory", "--wait", "--cwd", "--session-key", "--shell",
    "--shell-command", "--analytics-operation", "--analytics-turn", "--purpose", "--compose"
  }
  const FLAGS: set<string> := {"--wait-forever", "--login"}

  function Table(): Options {
    assert |"--wait-forever"| == 14 && |"--login"| == 7;
    OptionTable(VALUES, FLAGS)
  }
}
