/** Why binding a text relies on the splitter's own separators: with a wider space between two
    words, the scanner and the splitter disagree on what the runner's child is. */
module WideSpace {
  import opened Common
  import opened Words
  import opened OnePass
  import opened SessionIdentity
  import opened BindText

  const NBSP: char := '\U{A0}'

  /** A character the splitter takes as it is. */
  predicate Plain(c: char) { !Separator(c) && c != '\\' && c != '\'' && c != '\"' }

  predicate AllPlain(s: string) { forall k :: 0 <= k < |s| ==> Plain(s[k]) }

  lemma {:induction false} PlainWord(token: string, rest: string, word: string)
    requires AllPlain(token) && Separated(rest)
    ensures Split(token + rest, Bare, Some(word)) == Following(Some(word + token), Split(rest, Bare, None))
  {
    if token == "" {
      assert token + rest == rest && word + token == word && [word] + [] == [word];
      if rest != "" {
        SplitSpace(rest, word);
      }
    } else {
      assert (token + rest)[1..] == token[1..] + rest && Step(Bare, token[0]) == Bare;
      PlainWord(token[1..], rest, word + [token[0]]);
      assert word + [token[0]] + token[1..] == word + token;
    }
  }

  /** The splitter reads one plain word, then what follows the space behind it. */
  lemma PlainThen(token: string, rest: string)
    requires token != "" && AllPlain(token)
    ensures Split(token + (" " + rest), Bare, None) == Following(Some(token), Split(rest, Bare, None))
  {
    var tail := " " + rest;
    PlainWord(token, tail, "");
    var text := token + tail;
    assert "" + Piece(Bare, text[0]) == Piece(Bare, text[0]) && "" + token == token;
    assert Split(text, Bare, None) == Split(text, Bare, Some(""));
    assert tail[1..] == rest;
    var after := Split(rest, Bare, None);
    assert after.Some? ==> [] + after.value == after.value;
  }

  lemma PlainLast(token: string)
    requires token != "" && AllPlain(token)
    ensures Split(token, Bare, None) == Some([token])
  {
    PlainWord(token, "", "");
    assert token + "" == token && "" + token == token && [token] + [] == [token];
    assert "" + Piece(Bare, token[0]) == Piece(Bare, token[0]);
  }

  /** The scanner reads one word, then what follows a space of any kind behind it. */
  lemma TokenThen(token: string, sep: char, rest: string)
    requires token != "" && AllSafe(token) && Space(sep)
    ensures Tokens(token + ([sep] + rest)) == [token] + Tokens(rest) && Unquote(token) == Some(token)
  {
    SafeReadsBack(token);
    AtomFirst(token, [sep] + rest);
    assert ([sep] + rest)[1..] == rest;
  }

  lemma TokenLast(token: string)
    requires token != "" && AllSafe(token)
    ensures Tokens(token) == [token] && Unquote(token) == Some(token)
  {
    SafeReadsBack(token);
    AtomFirst(token, "");
    assert token + "" == token;
  }

  lemma ReadFirst(token: string, tokens: seq<string>)
    requires Unquote(token) == Some(token)
    ensures UnquoteAll([token] + tokens) == Following(Some(token), UnquoteAll(tokens))
  {
    assert ([token] + tokens)[1..] == tokens;
  }

  lemma {:induction false} SafeIsPlain(s: string)
    requires AllSafe(s)
    ensures AllPlain(s)
  {
  }

  // --------------------------------------------------------------- the commands

  /** Words of a command: its program and `run`, an option with its value, a session key that
      follows that value behind a no-break space, and the child. */
  datatype Line = Line(program: string, run: string, option: string, value: string, former: string, child: string)

  predicate IsWord(s: string) { s != "" && AllSafe(s) }

  predicate Usual(o: Options, x: Line) {
    && IsWord(x.program) && IsWord(x.run) && IsWord(x.option) && IsWord(x.value) && IsWord(x.former) && IsWord(x.child)
    && IsOption(o, [x.option, x.value]) && Size(o, x.option) == 2 && Name(x.option) != KEY
    && x.child[0] != '-'
  }

  /** The session key and what follows. */
  function FromKey(x: Line): string { KEY + (" " + (x.former + (" " + x.child))) }

  function FromOption(x: Line): string { x.option + (" " + (x.value + ([NBSP] + FromKey(x)))) }

  function Command(x: Line): string { x.program + (" " + (x.run + (" " + FromOption(x)))) }

  /** The word the splitter sees where the scanner sees two. */
  function Wide(x: Line): string { x.value + [NBSP] + KEY }

  function Scanned(x: Line): seq<string> { [x.program, x.run] + ([x.option, x.value] + ([KEY, x.former] + [x.child])) }

  function Splitted(x: Line): seq<string> { [x.program, x.run] + ([x.option, Wide(x)] + [x.former, x.child]) }

  lemma TwoTokens(a: string, b: string, sep: char, tail: seq<string>)
    requires Unquote(a) == Some(a) && Unquote(b) == Some(b)
    ensures UnquoteAll([a, b] + tail) == Following(Some(a), Following(Some(b), UnquoteAll(tail)))
  {
    ReadFirst(b, tail);
    ReadFirst(a, [b] + tail);
    assert [a, b] + tail == [a] + ([b] + tail);
  }

  lemma Pair(a: string, b: string, tail: seq<string>)
    ensures [a] + ([b] + tail) == [a, b] + tail
  {
  }

  lemma TwoThen(a: string, b: string, s: char, t: char, rest: string)
    requires IsWord(a) && IsWord(b) && Space(s) && Space(t)
    ensures Tokens(a + ([s] + (b + ([t] + rest)))) == [a, b] + Tokens(rest)
    ensures UnquoteAll(Tokens(rest)) == Some(Tokens(rest)) ==>
      UnquoteAll([a, b] + Tokens(rest)) == Some([a, b] + Tokens(rest))
  {
    TokenThen(b, t, rest);
    TokenThen(a, s, b + ([t] + rest));
    Pair(a, b, Tokens(rest));
    TwoTokens(a, b, s, Tokens(rest));
  }

  lemma KeyIsWord()
    ensures IsWord(KEY) && Unquote(KEY) == Some(KEY)
  {
    assert AllSafe(KEY);
    SafeReadsBack(KEY);
  }

  lemma CommandTokens(o: Options, x: Line)
    requires Usual(o, x)
    ensures Tokens(Command(x)) == Scanned(x) && WordsOf(Command(x)) == Some(Scanned(x))
  {
    KeyIsWord();
    TokenLast(x.child);
    ReadFirst(x.child, []);
    assert [x.child] + [] == [x.child];
    TwoThen(KEY, x.former, ' ', ' ', x.child);
    TwoThen(x.option, x.value, ' ', NBSP, FromKey(x));
    TwoThen(x.program, x.run, ' ', ' ', FromOption(x));
  }

  lemma TwoPlain(a: string, b: string, rest: string)
    requires a != "" && AllPlain(a) && b != "" && AllPlain(b) && Split(rest, Bare, None).Some?
    ensures Split(a + (" " + (b + (" " + rest))), Bare, None) == Some([a, b] + Split(rest, Bare, None).value)
  {
    PlainThen(b, rest);
    PlainThen(a, b + (" " + rest));
    Pair(a, b, Split(rest, Bare, None).value);
  }

  lemma PlainJoin(a: string, b: string)
    requires AllPlain(a) && AllPlain(b)
    ensures AllPlain(a + b)
  {
  }

  lemma WideIsPlain(x: Line)
    requires AllSafe(x.value)
    ensures AllPlain(Wide(x)) && Wide(x) != ""
  {
    KeyIsWord();
    SafeIsPlain(x.value);
    SafeIsPlain(KEY);
    PlainJoin(x.value, [NBSP]);
    PlainJoin(x.value + [NBSP], KEY);
  }

  lemma Widened(x: Line)
    ensures FromOption(x) == x.option + (" " + (Wide(x) + (" " + (x.former + (" " + x.child)))))
  {
    var tail := " " + (x.former + (" " + x.child));
    assert x.value + ([NBSP] + (KEY + tail)) == x.value + [NBSP] + KEY + tail;
  }

  lemma ChildSplits(x: Line)
    requires IsWord(x.former) && IsWord(x.child)
    ensures Split(x.former + (" " + x.child), Bare, None) == Some([x.former, x.child])
  {
    SafeIsPlain(x.former);
    SafeIsPlain(x.child);
    PlainLast(x.child);
    PlainThen(x.former, x.child);
    assert [x.former] + [x.child] == [x.former, x.child];
  }

  lemma CommandSplits(o: Options, x: Line)
    requires Usual(o, x)
    ensures Split(Command(x), Bare, None) == Some(Splitted(x))
  {
    WideIsPlain(x);
    Widened(x);
    ChildSplits(x);
    SafeIsPlain(x.option);
    SafeIsPlain(x.run);
    SafeIsPlain(x.program);
    TwoPlain(x.option, Wide(x), x.former + (" " + x.child));
    TwoPlain(x.program, x.run, FromOption(x));
  }

  // ------------------------------------------------------------ what they become

  lemma ChildStops(o: Options, words: seq<string>)
    requires words != [] && Stops(words[0])
    ensures Grammatical(o, words) && Kept(o, words, words) == words
  {
  }

  /** The bound words, of an ordinary value or a wide one. */
  function Bound(x: Line, key: string, value: string, child: seq<string>): seq<string> {
    [x.program, x.run] + ([KEY, key] + ([x.option, value] + child))
  }

  lemma RunIsBound(o: Options, x: Line, key: string, tail: seq<string>)
    requires key != "" && x.run == "run" && Grammatical(o, tail)
    ensures var words := [x.program, x.run] + tail;
      && Form(words) == words
      && Bind(o, words, key) == Some([x.program, x.run] + ([KEY, key] + Kept(o, tail, tail)))
  {
    var words := [x.program, x.run] + tail;
    assert words[1] == "run" && |"run"| != |"environment"|;
    assert words[2..] == tail && words[..2] == [x.program, x.run];
    assert [x.program, x.run] + [KEY, key] + Kept(o, tail, tail)
        == [x.program, x.run] + ([KEY, key] + Kept(o, tail, tail));
  }

  lemma ScannedBinds(o: Options, x: Line, key: string)
    requires Usual(o, x) && key != "" && x.run == "run"
    ensures Form(Scanned(x)) == Scanned(x) && Bind(o, Scanned(x), key) == Some(Bound(x, key, x.value, [x.child]))
  {
    ChildStops(o, [x.child]);
    KeyInFront(o, x.former, [x.child]);
    OptionInFront(o, [x.option, x.value], [KEY, x.former] + [x.child]);
    RunIsBound(o, x, key, [x.option, x.value] + ([KEY, x.former] + [x.child]));
  }

  lemma SplittedBinds(o: Options, x: Line, key: string)
    requires Usual(o, x) && key != "" && x.run == "run" && x.former[0] != '-'
    ensures Form(Splitted(x)) == Splitted(x)
      && Bind(o, Splitted(x), key) == Some(Bound(x, key, Wide(x), [x.former, x.child]))
  {
    ChildStops(o, [x.former, x.child]);
    OptionInFront(o, [x.option, Wide(x)], [x.former, x.child]);
    RunIsBound(o, x, key, [x.option, Wide(x)] + [x.former, x.child]);
  }

  lemma LengthTwo(a: string, b: string, rest: seq<string>)
    ensures Length([a, b] + rest) == |a| + |b| + Length(rest)
  {
    LengthFront(b, rest);
    LengthFront(a, [b] + rest);
    Pair(a, b, rest);
  }

  lemma BoundLength(x: Line, key: string, value: string, child: seq<string>)
    ensures Length(Bound(x, key, value, child))
         == |x.program| + |x.run| + |KEY| + |key| + |x.option| + |value| + Length(child)
  {
    LengthTwo(x.option, value, child);
    LengthTwo(KEY, key, [x.option, value] + child);
    LengthTwo(x.program, x.run, [KEY, key] + ([x.option, value] + child));
  }

  lemma CommandLengths(x: Line)
    ensures Length([x.child]) == |x.child| && Length([x.former, x.child]) == |x.former| + |x.child|
    ensures Length(Splitted(x)) == Length(Scanned(x)) + 1
  {
    LengthFront(x.child, []);
    assert [x.child] + [] == [x.child] && [x.former, x.child] + [] == [x.former, x.child];
    LengthTwo(x.former, x.child, []);
    LengthTwo(KEY, x.former, [x.child]);
    LengthTwo(x.option, x.value, [KEY, x.former] + [x.child]);
    LengthTwo(x.program, x.run, [x.option, x.value] + ([KEY, x.former] + [x.child]));
    LengthTwo(x.option, Wide(x), [x.former, x.child]);
    LengthTwo(x.program, x.run, [x.option, Wide(x)] + [x.former, x.child]);
  }

  lemma FormIsShorter(words: seq<string>)
    ensures Length(Form(words)) <= Length(words) <= Length(Form(words)) + 11
  {
    if Environment(words) {
      assert words == [words[0], words[1]] + words[2..];
      LengthTwo(words[0], words[1], words[2..]);
      LengthFront(words[0], words[2..]);
    }
  }

  /** Binding such a command misreads it, however the edit does it: read in one pass, the
      result is not the bound words of the command read in one pass, because words of the
      child are gone. */
  lemma BindingMisreads(o: Options, x: Line, key: string, result: string)
    requires Usual(o, x) && key != "" && x.run == "run" && x.former[0] != '-'
    requires WordsOf(Command(x)).Some? && IsBoundText(o, Command(x), result, key)
    ensures Odds(Command(x), Bare) == 1
    ensures var before, after := Split(Command(x), Bare, None), Split(result, Bare, None);
      && before.Some? && Bind(o, Form(before.value), key).Some?
      && (after.Some? ==> Bind(o, Form(before.value), key) != Some(Form(after.value)))
  {
    CommandTokens(o, x);
    CommandSplits(o, x);
    CommandIsLiteral(o, x);
    CommandLengths(x);
    SplitLength(Command(x), Bare, None);
    TokensLength(Command(x));
    ScannedBinds(o, x, key);
    SplittedBinds(o, x, key);
    BoundLength(x, key, x.value, [x.child]);
    BoundLength(x, key, Wide(x), [x.former, x.child]);
    ResultIsShort(o, x, key, result);
  }

  lemma NoOperatorsJoin(a: seq<string>, b: seq<string>)
    requires NoOperators(a) && NoOperators(b)
    ensures NoOperators(a + b)
  {
  }

  lemma WordsHaveNone(a: string, b: string)
    requires IsWord(a) && IsWord(b)
    ensures NoOperators([a, b]) && NoOperators([b])
  {
    assert Safe(a[0]) && Safe(b[0]);
  }

  lemma CommandIsLiteral(o: Options, x: Line)
    requires Usual(o, x)
    ensures Literal(Command(x))
  {
    CommandTokens(o, x);
    KeyIsWord();
    WordsHaveNone(x.program, x.run);
    WordsHaveNone(x.option, x.value);
    WordsHaveNone(KEY, x.former);
    WordsHaveNone(KEY, x.child);
    NoOperatorsJoin([KEY, x.former], [x.child]);
    NoOperatorsJoin([x.option, x.value], [KEY, x.former] + [x.child]);
    NoOperatorsJoin([x.program, x.run], [x.option, x.value] + ([KEY, x.former] + [x.child]));
  }

  lemma ResultIsShort(o: Options, x: Line, key: string, result: string)
    requires WordsOf(Command(x)).Some? && IsBoundText(o, Command(x), result, key)
    ensures var after := Split(result, Bare, None);
      after.Some? ==> Length(Form(after.value)) <= Length(Form(WordsOf(result).value)) + 11 + Odds(Command(x), Bare)
  {
    var after := Split(result, Bare, None);
    if after.Some? {
      SplitLength(result, Bare, None);
      TokensLength(result);
      FormIsShorter(WordsOf(result).value);
      FormIsShorter(after.value);
    }
  }
}

/** One of those commands, for the options of `memcap run`. */
module WideSpaceInstance {
  import opened Common
  import opened SessionIdentity
  import RunnerOptions
  import opened WideSpace

  lemma CwdIsOption()
    ensures "--cwd" in RunnerOptions.Table().values && Name("--cwd") == "--cwd"
      && Size(RunnerOptions.Table(), "--cwd") == 2
  {
    NameIsPlain("--cwd");
  }

  /** memcap run --cwd a~--session-key b cmd, where ~ is a no-break space. */
  lemma RunnerCommand() returns (x: Line)
    ensures x == Line("memcap", "run", "--cwd", "a", "b", "cmd") && Usual(RunnerOptions.Table(), x)
    ensures x.run == "run" && x.former[0] != '-'
  {
    x := Line("memcap", "run", "--cwd", "a", "b", "cmd");
    CwdIsOption();
    assert |KEY| != |"--cwd"| && "--cwd"[2] == 'c';
  }
}
