/** Shell word spans (libexec/inspection.py) and the quoting rules that read them. */
module Words {
  import opened Common

  predicate Space(c: char) {
    || '\t' <= c <= '\r' || '\U{1C}' <= c <= ' ' || c == '\U{85}' || c == '\U{A0}' || c == '\U{1680}'
    || '\U{2000}' <= c <= '\U{200A}' || c == '\U{2028}' || c == '\U{2029}' || c == '\U{202F}' || c == '\U{205F}'
       || c == '\U{3000}'
  }

  predicate Operator(c: char) { c == '|' || c == '&' || c == ';' || c == '<' || c == '>' }

  predicate Breaks(c: char) { Space(c) || Operator(c) }

  predicate Glob(c: char) { c == '*' || c == '?' || c == '[' || c == '{' }

  predicate Blank(text: string, from: nat, to: nat)
    requires to <= |text|
    decreases if from <= to then to - from else 0
  {
    from >= to || (Space(text[from]) && Blank(text, from + 1, to))
  }

  /** Where a character stands: outside quotes, inside them, or behind a backslash. */
  datatype Mode = Bare | Single | Double | EscapedBare | EscapedDouble

  function Step(m: Mode, c: char): Mode {
    match m
    case Bare => if c == '\\' then EscapedBare else if c == '\'' then Single else if c == '\"' then Double else Bare
    case Single => if c == '\'' then Bare else Single
    case Double => if c == '\\' then EscapedDouble else if c == '\"' then Bare else Double
    case EscapedBare => Bare
    case EscapedDouble => Double
  }

  predicate Ends(text: string, m: Mode) { text == "" || (m.Bare? && Breaks(text[0])) }

  /** Length of the word that begins here. */
  function WordRun(text: string, m: Mode): (n: nat)
    ensures n <= |text|
  {
    if Ends(text, m) then 0 else 1 + WordRun(text[1..], Step(m, text[0]))
  }

  /** Whether that word holds a glob character outside quotes and escapes. */
  predicate Globs(text: string, m: Mode) {
    !Ends(text, m) && ((m.Bare? && Glob(text[0])) || Globs(text[1..], Step(m, text[0])))
  }

  function OperatorRun(text: string): (n: nat)
    ensures n <= |text|
  {
    if text == "" || !Operator(text[0]) then 0 else 1 + OperatorRun(text[1..])
  }

  function TokenRun(text: string): nat {
    if text != "" && Operator(text[0]) then OperatorRun(text) else WordRun(text, Bare)
  }

  /** The source text of each word and operator run. */
  function Tokens(text: string): seq<string>
    decreases |text|
  {
    if text == "" then [] else
    if Space(text[0]) then Tokens(text[1..])
    else [text[..TokenRun(text)]] + Tokens(text[TokenRun(text)..])
  }

  // ------------------------------------------------------------------- scanner

  datatype Span = Span(start: nat, end: nat, text: string, glob: bool)

  function Texts(parts: seq<Span>): (r: seq<string>)
    ensures |r| == |parts|
  {
    if parts == [] then [] else Texts(parts[..|parts| - 1]) + [parts[|parts| - 1].text]
  }

  lemma {:induction false} TextsAt(parts: seq<Span>, k: nat)
    requires k < |parts|
    ensures Texts(parts)[k] == parts[k].text
    decreases |parts|
  {
    if k < |parts| - 1 {
      TextsAt(parts[..|parts| - 1], k);
    }
  }

  /** Where the k-th span starts looking: the end of the one before. */
  function Edge(parts: seq<Span>, k: nat): nat
    requires k <= |parts|
  {
    if k == 0 then 0 else parts[k - 1].end
  }

  /** A span found when looking from an edge on: nothing but space before it, and a word
      is followed by space, an operator or the end. */
  predicate Found(text: string, edge: nat, p: Span) {
    && edge <= p.start < p.end <= |text| && p.text == text[p.start..p.end]
    && Blank(text, edge, p.start) && !Space(text[p.start])
    && p.glob == (!Operator(text[p.start]) && Globs(text[p.start..], Bare))
    && (p.end < |text| && !Operator(text[p.start]) ==> Breaks(text[p.end]))
  }

  /** The spans lie in the text in order, with nothing but space between them. */
  predicate Laid(text: string, parts: seq<Span>) {
    parts == [] ||
    var n := |parts| - 1;
    Laid(text, parts[..n]) && Found(text, Edge(parts, n), parts[n])
  }

  lemma {:induction false} LaidAt(text: string, parts: seq<Span>, k: nat)
    requires Laid(text, parts) && k < |parts|
    ensures Found(text, Edge(parts, k), parts[k])
    decreases |parts|
  {
    var n := |parts| - 1;
    if k < n {
      LaidAt(text, parts[..n], k);
      assert Edge(parts[..n], k) == Edge(parts, k);
    }
  }

  lemma WordEndsAtBreak(text: string, m: Mode)
    ensures WordRun(text, m) < |text| ==> Breaks(text[WordRun(text, m)])
  {
  }

  method WordEnd(text: string, start: nat) returns (i: nat, glob: bool)
    requires start < |text| && !Breaks(text[start])
    ensures i == start + WordRun(text[start..], Bare) && start < i <= |text|
    ensures glob == Globs(text[start..], Bare)
  {
    i, glob := start, false;
    var quote: Option<char> := None;
    ghost var m := Bare;
    while i < |text|
      invariant start <= i <= |text| && (i == start ==> m == Bare)
      invariant i < |text| ==> m == if quote == None then Bare else if quote == Some('\'') then Single else Double
      invariant quote.Some? ==> quote.value == '\'' || quote.value == '\"'
      invariant WordRun(text[start..], Bare) == i - start + WordRun(text[i..], m)
      invariant Globs(text[start..], Bare) == (glob || Globs(text[i..], m))
      decreases |text| - i
    {
      var c := text[i];
      if quote == None && Breaks(c) {
        break;
      }
      assert text[i..][1..] == text[i + 1..];
      if c == '\\' && quote != Some('\'') && i + 1 < |text| {
        assert text[i + 1..][1..] == text[i + 2..];
        i := i + 2;
        continue;
      }
      if c == '\"' || c == '\'' {
        if quote == Some(c) {
          quote := None;
        } else if quote == None {
          quote := Some(c);
        }
      } else if quote == None && Glob(c) {
        glob := true;
      }
      m := Step(m, c);
      i := i + 1;
    }
  }

  method OperatorEnd(text: string, start: nat) returns (i: nat)
    requires start < |text| && Operator(text[start])
    ensures i == start + OperatorRun(text[start..]) && start < i <= |text|
  {
    i := start;
    while i < |text| && Operator(text[i])
      invariant start <= i <= |text|
      invariant OperatorRun(text[start..]) == i - start + OperatorRun(text[i..])
      decreases |text| - i
    {
      assert text[i..][1..] == text[i + 1..];
      i := i + 1;
    }
  }

  lemma LaidExtends(text: string, parts: seq<Span>, p: Span)
    requires Laid(text, parts) && Found(text, Edge(parts, |parts|), p)
    ensures Laid(text, parts + [p])
  {
    assert (parts + [p])[..|parts|] == parts;
    assert Edge(parts + [p], |parts|) == Edge(parts, |parts|);
  }

  lemma {:induction false} BlankExtends(text: string, from: nat, to: nat)
    requires from <= to < |text| && Blank(text, from, to) && Space(text[to])
    ensures Blank(text, from, to + 1)
    decreases if from <= to then to - from else 0
  {
    if from < to {
      BlankExtends(text, from + 1, to);
    }
  }

  lemma TokenTaken(parts: seq<Span>, p: Span, rest: seq<string>)
    ensures Texts(parts + [p]) + rest == Texts(parts) + ([p.text] + rest)
  {
    assert (parts + [p])[..|parts|] == parts;
  }

  lemma SpaceSkipped(text: string, i: nat)
    requires i < |text| && Space(text[i])
    ensures Tokens(text[i..]) == Tokens(text[i + 1..])
  {
    assert text[i..][1..] == text[i + 1..];
  }

  lemma NextToken(text: string, i: nat, end: nat)
    requires i < end <= |text| && !Space(text[i]) && end == i + TokenRun(text[i..])
    ensures Tokens(text[i..]) == [text[i..end]] + Tokens(text[end..])
  {
    var rest := text[i..];
    assert rest[..TokenRun(rest)] == text[i..end] && rest[TokenRun(rest)..] == text[end..];
  }

  method NextSpan(text: string, start: nat) returns (p: Span)
    requires start < |text| && !Space(text[start])
    ensures p.start == start && p.end == start + TokenRun(text[start..]) && Found(text, start, p)
  {
    var i, glob := start, false;
    if Operator(text[start]) {
      i := OperatorEnd(text, start);
    } else {
      i, glob := WordEnd(text, start);
      WordEndsAtBreak(text[start..], Bare);
    }
    p := Span(start, i, text[start..i], glob);
  }

  lemma FoundFrom(text: string, edge: nat, p: Span)
    requires edge <= p.start && Found(text, p.start, p) && Blank(text, edge, p.start)
    ensures Found(text, edge, p)
  {
  }

  /** The text up to i has been scanned. */
  predicate Scanned(text: string, parts: seq<Span>, i: nat) {
    && i <= |text| && Laid(text, parts) && Edge(parts, |parts|) <= i && Blank(text, Edge(parts, |parts|), i)
    && Texts(parts) + Tokens(text[i..]) == Tokens(text)
  }

  lemma ScannedSpace(text: string, parts: seq<Span>, i: nat)
    requires Scanned(text, parts, i) && i < |text| && Space(text[i])
    ensures Scanned(text, parts, i + 1)
  {
    SpaceSkipped(text, i);
    BlankExtends(text, Edge(parts, |parts|), i);
  }

  lemma ScannedSpan(text: string, parts: seq<Span>, i: nat, p: Span)
    requires Scanned(text, parts, i) && i < |text| && !Space(text[i])
    requires p.start == i && p.end == i + TokenRun(text[i..]) && Found(text, i, p)
    ensures Scanned(text, parts + [p], p.end)
  {
    NextToken(text, i, p.end);
    FoundFrom(text, Edge(parts, |parts|), p);
    LaidExtends(text, parts, p);
    TokenTaken(parts, p, Tokens(text[p.end..]));
  }

  lemma ScannedAll(text: string, parts: seq<Span>)
    requires Scanned(text, parts, |text|)
    ensures Texts(parts) == Tokens(text)
  {
    assert text[|text|..] == "" && Texts(parts) + [] == Texts(parts);
  }

  /** The scanner finds every token, where it lies, and whether the shell would expand it. */
  method Spans(text: string) returns (parts: seq<Span>)
    ensures Texts(parts) == Tokens(text) && Laid(text, parts)
    ensures Edge(parts, |parts|) <= |text| && Blank(text, Edge(parts, |parts|), |text|)
  {
    var i := 0;
    parts := [];
    assert text[0..] == text;
    while i < |text|
      invariant Scanned(text, parts, i)
      decreases |text| - i
    {
      if Space(text[i]) {
        ScannedSpace(text, parts, i);
        i := i + 1;
        continue;
      }
      var p := NextSpan(text, i);
      ScannedSpan(text, parts, i, p);
      parts := parts + [p];
      i := p.end;
    }
    ScannedAll(text, parts);
  }

  // ------------------------------------------------------------------- quoting

  function Prefixed(s: string, r: Option<string>): Option<string> {
    match r
    case None => None
    case Some(t) => Some(s + t)
  }

  /** What a POSIX word reader makes of one token; nothing if a quote or escape is left open. */
  function Unquoted(text: string, m: Mode): Option<string> {
    if text == "" then (if m.Bare? then Some("") else None) else
    var rest := Unquoted(text[1..], Step(m, text[0]));
    if m.EscapedDouble? && text[0] != '\\' && text[0] != '\"' then Prefixed(['\\', text[0]], rest)
    else if (m.Bare? || m.Double?) && (text[0] == '\\' || text[0] == '\"') then rest
    else if (m.Bare? || m.Single?) && text[0] == '\'' then rest
    else Prefixed([text[0]], rest)
  }

  function Unquote(token: string): Option<string> { Unquoted(token, Bare) }

  predicate Safe(c: char) {
    || 'a' <= c <= 'z' || 'A' <= c <= 'Z' || '0' <= c <= '9' || c == '_' || c == '@' || c == '%'
    || c == '+' || c == '=' || c == ':' || c == ',' || c == '.' || c == '/' || c == '-'
  }

  predicate AllSafe(s: string) { forall k :: 0 <= k < |s| ==> Safe(s[k]) }

  /** The inside of a single-quoted string: each single quote leaves the quotes for a moment. */
  function Escaped(s: string): string {
    if s == "" then "" else (if s[0] == '\'' then "'\"'\"'" else [s[0]]) + Escaped(s[1..])
  }

  function Quote(s: string): string {
    if s != "" && AllSafe(s) then s else "'" + Escaped(s) + "'"
  }

  /** One complete word: it reads as one token and nothing is left open. */
  predicate Atom(token: string) {
    token != "" && WordRun(token, Bare) == |token| && Unquote(token).Some?
  }

  lemma {:induction false} SafeReadsBack(s: string)
    requires AllSafe(s)
    ensures WordRun(s, Bare) == |s| && Unquoted(s, Bare) == Some(s)
  {
    if s != "" {
      assert Step(Bare, s[0]) == Bare;
      SafeReadsBack(s[1..]);
      assert [s[0]] + s[1..] == s;
    }
  }

  lemma {:induction false} EscapedReadsBack(s: string)
    ensures var t := Escaped(s) + "'";
      WordRun(t, Single) == |t| && Unquoted(t, Single) == Some(s)
  {
    var t := Escaped(s) + "'";
    if s == "" {
      assert t[1..] == "";
    } else {
      EscapedReadsBack(s[1..]);
      var rest := Escaped(s[1..]) + "'";
      if s[0] == '\'' {
        assert t == "'\"'\"'" + rest;
        QuoteInQuotes(t, rest);
      } else {
        assert t[1..] == rest;
      }
      assert [s[0]] + s[1..] == s;
    }
  }

  /** The five characters that stand for one single quote. */
  lemma QuoteInQuotes(t: string, rest: string)
    requires t == "'\"'\"'" + rest
    ensures WordRun(t, Single) == 5 + WordRun(rest, Single)
    ensures Unquoted(t, Single) == Prefixed("'", Unquoted(rest, Single))
  {
    var t1, t2, t3, t4 := t[1..], t[2..], t[3..], t[4..];
    assert t1[1..] == t2 && t2[1..] == t3 && t3[1..] == t4 && t4[1..] == rest;
    assert t[0] == '\'' && t1[0] == '\"' && t2[0] == '\'' && t3[0] == '\"' && t4[0] == '\'';
    assert WordRun(t4, Bare) == 1 + WordRun(rest, Single) && Unquoted(t4, Bare) == Unquoted(rest, Single);
    assert WordRun(t3, Double) == 1 + WordRun(t4, Bare) && Unquoted(t3, Double) == Unquoted(t4, Bare);
    assert WordRun(t2, Double) == 1 + WordRun(t3, Double)
        && Unquoted(t2, Double) == Prefixed("'", Unquoted(t3, Double));
    assert WordRun(t1, Bare) == 1 + WordRun(t2, Double) && Unquoted(t1, Bare) == Unquoted(t2, Double);
  }

  /** Quoting round trip: any string, quoted, is one complete word that reads back as that string. */
  lemma QuoteRoundTrip(s: string)
    ensures Atom(Quote(s)) && Unquote(Quote(s)) == Some(s)
    ensures !Breaks(Quote(s)[0])
  {
    if s != "" && AllSafe(s) {
      SafeReadsBack(s);
    } else {
      EscapedReadsBack(s);
      var t := Quote(s);
      assert t == "'" + (Escaped(s) + "'");
      assert t[1..] == Escaped(s) + "'";
    }
  }

  // ------------------------------------------------------------- concatenation

  predicate StartsBlank(text: string) { text == "" || Space(text[0]) }

  /** A complete word ends where it did whatever space or text follows it. */
  lemma {:induction false} AtomEnds(token: string, rest: string, m: Mode)
    requires WordRun(token, m) == |token| && Unquoted(token, m).Some? && StartsBlank(rest)
    ensures WordRun(token + rest, m) == |token|
  {
    if token != "" {
      assert (token + rest)[1..] == token[1..] + rest;
      AtomEnds(token[1..], rest, Step(m, token[0]));
    } else {
      assert token + rest == rest;
    }
  }

  lemma {:induction false} BlankSkipped(text: string, from: nat, to: nat, rest: string)
    requires from <= to <= |text| && Blank(text, from, to)
    ensures Tokens(text[from..to] + rest) == Tokens(rest)
    decreases if from <= to then to - from else 0
  {
    if from == to {
      assert text[from..to] + rest == rest;
    } else {
      assert (text[from..to] + rest)[1..] == text[from + 1..to] + rest;
      BlankSkipped(text, from + 1, to, rest);
    }
  }

  /** A complete word, then text that starts with space. */
  lemma AtomFirst(token: string, rest: string)
    requires Atom(token) && StartsBlank(rest)
    ensures Tokens(token + rest) == [token] + Tokens(rest)
  {
    AtomEnds(token, rest, Bare);
    var t := token + rest;
    assert t[..|token|] == token && t[|token|..] == rest;
    assert !Breaks(token[0]);
  }

  /** A token measures itself: cut out of the text, it still reads as one token. */
  lemma {:induction false} RunOfPrefix(text: string, m: Mode)
    ensures WordRun(text[..WordRun(text, m)], m) == WordRun(text, m)
  {
    if !Ends(text, m) {
      var run := text[..WordRun(text, m)];
      assert run[1..] == text[1..][..WordRun(text[1..], Step(m, text[0]))];
      RunOfPrefix(text[1..], Step(m, text[0]));
    }
  }

  predicate Measured(token: string) { token != "" && (Operator(token[0]) || WordRun(token, Bare) == |token|) }

  lemma {:induction false} TokensAreMeasured(text: string)
    ensures forall t :: t in Tokens(text) ==> Measured(t)
    decreases |text|
  {
    if text != "" {
      if Space(text[0]) {
        TokensAreMeasured(text[1..]);
      } else {
        RunOfPrefix(text, Bare);
        TokensAreMeasured(text[TokenRun(text)..]);
      }
    }
  }

  /** No token is a run of shell operators. */
  predicate Literal(text: string) { forall t :: t in Tokens(text) && t != "" ==> !Operator(t[0]) }

  // ----------------------------------------------------------------- clean text

  /** Spans that are complete words, in order, with space between them and nothing else. */
  predicate Ordered(text: string, parts: seq<Span>) {
    parts == [] ||
    var n := |parts| - 1;
    Ordered(text, parts[..n]) && Found(text, Edge(parts, n), parts[n]) && Atom(parts[n].text)
  }

  predicate Clean(text: string, parts: seq<Span>) {
    Ordered(text, parts) && Edge(parts, |parts|) <= |text| && Blank(text, Edge(parts, |parts|), |text|)
  }

  lemma {:induction false} LaidAtomsAreOrdered(text: string, parts: seq<Span>)
    requires Laid(text, parts) && forall k :: 0 <= k < |parts| ==> Atom(parts[k].text)
    ensures Ordered(text, parts)
  {
    if parts != [] {
      LaidAtomsAreOrdered(text, parts[..|parts| - 1]);
    }
  }

  lemma {:induction false} OrderedAt(text: string, parts: seq<Span>, k: nat)
    requires Ordered(text, parts) && k < |parts|
    ensures Found(text, Edge(parts, k), parts[k]) && Atom(parts[k].text)
    decreases |parts|
  {
    var n := |parts| - 1;
    if k < n {
      OrderedAt(text, parts[..n], k);
      assert Edge(parts[..n], k) == Edge(parts, k);
    }
  }

  lemma {:induction false} EdgesAscend(text: string, parts: seq<Span>, i: nat, j: nat)
    requires Clean(text, parts) && i <= j <= |parts|
    ensures Edge(parts, i) <= Edge(parts, j) <= |text|
    decreases j - i
  {
    if 0 < j {
      OrderedAt(text, parts, j - 1);
    }
    if i < j {
      EdgesAscend(text, parts, i, j - 1);
    }
  }

  /** After a word comes space. */
  lemma EdgeIsBlank(text: string, parts: seq<Span>, k: nat)
    requires Clean(text, parts) && 0 < k <= |parts|
    ensures Edge(parts, k) <= |text| && StartsBlank(text[Edge(parts, k)..])
    ensures k < |parts| ==> Edge(parts, k) < parts[k].start
  {
    OrderedAt(text, parts, k - 1);
    if k < |parts| {
      OrderedAt(text, parts, k);
    }
  }

  /** The text between two edges. */
  function Cut(text: string, parts: seq<Span>, i: nat, j: nat): string
    requires i <= |parts| && j <= |parts|
  {
    if Edge(parts, i) <= Edge(parts, j) <= |text| then text[Edge(parts, i)..Edge(parts, j)] else ""
  }

  lemma Joined(text: string, a: nat, b: nat, c: nat, rest: string)
    requires a <= b <= c <= |text|
    ensures text[a..c] + rest == text[a..b] + (text[b..c] + rest)
  {
  }

  lemma OneToken(text: string, parts: seq<Span>, i: nat, rest: string)
    requires Clean(text, parts) && i < |parts| && StartsBlank(rest)
    ensures Tokens(Cut(text, parts, i, i + 1) + rest) == [parts[i].text] + Tokens(rest)
  {
    OrderedAt(text, parts, i);
    var edge, p := Edge(parts, i), parts[i];
    AtomFirst(p.text, rest);
    BlankSkipped(text, edge, p.start, p.text + rest);
    Joined(text, edge, p.start, p.end, rest);
  }

  lemma CutStep(text: string, parts: seq<Span>, i: nat, j: nat, rest: string)
    requires Clean(text, parts) && i < j <= |parts|
    ensures Cut(text, parts, i, j) + rest == Cut(text, parts, i, i + 1) + (Cut(text, parts, i + 1, j) + rest)
  {
    EdgesAscend(text, parts, i, i + 1);
    EdgesAscend(text, parts, i + 1, j);
    Joined(text, Edge(parts, i), Edge(parts, i + 1), Edge(parts, j), rest);
  }

  lemma CutIsBlank(text: string, parts: seq<Span>, i: nat, j: nat, rest: string)
    requires Clean(text, parts) && 0 < i <= j <= |parts| && StartsBlank(rest)
    ensures StartsBlank(Cut(text, parts, i, j) + rest)
  {
    EdgesAscend(text, parts, i, j);
    EdgeIsBlank(text, parts, i);
    var cut := Cut(text, parts, i, j);
    if cut == "" {
      assert cut + rest == rest;
    } else {
      assert cut[0] == text[Edge(parts, i)..][0];
    }
  }

  lemma SliceStep(texts: seq<string>, i: nat, j: nat, rest: seq<string>)
    requires i < j <= |texts|
    ensures texts[i..j] + rest == [texts[i]] + (texts[i + 1..j] + rest)
  {
  }

  /** Reading on from any edge finds the tokens from there on, whatever clean text replaces the rest. */
  lemma {:induction false} TokensBetween(text: string, parts: seq<Span>, i: nat, j: nat, rest: string)
    requires Clean(text, parts) && i <= j <= |parts| && StartsBlank(rest)
    ensures Tokens(Cut(text, parts, i, j) + rest) == Texts(parts)[i..j] + Tokens(rest)
    decreases j - i
  {
    if i == j {
      assert Cut(text, parts, i, j) + rest == rest;
    } else {
      TokensBetween(text, parts, i + 1, j, rest);
      CutIsBlank(text, parts, i + 1, j, rest);
      OneToken(text, parts, i, Cut(text, parts, i + 1, j) + rest);
      CutStep(text, parts, i, j, rest);
      TextsAt(parts, i);
      SliceStep(Texts(parts), i, j, Tokens(rest));
    }
  }

  lemma {:induction false} BlankHasNoTokens(text: string, from: nat)
    requires from <= |text| && Blank(text, from, |text|)
    ensures Tokens(text[from..]) == [] && StartsBlank(text[from..])
  {
    BlankSkipped(text, from, |text|, "");
    assert text[from..|text|] + "" == text[from..];
  }

  lemma Rejoined(text: string, a: nat, b: nat)
    requires a <= b <= |text|
    ensures text[a..b] + text[b..] == text[a..]
  {
  }

  lemma WholeSlice(texts: seq<string>, i: nat)
    requires i <= |texts|
    ensures texts[i..|texts|] + [] == texts[i..]
  {
  }

  lemma {:induction false} TokensFrom(text: string, parts: seq<Span>, i: nat)
    requires Clean(text, parts) && i <= |parts|
    ensures Edge(parts, i) <= |text| && Tokens(text[Edge(parts, i)..]) == Texts(parts)[i..]
  {
    var n := |parts|;
    var last := Edge(parts, n);
    EdgesAscend(text, parts, i, n);
    BlankHasNoTokens(text, last);
    TokensBetween(text, parts, i, n, text[last..]);
    Rejoined(text, Edge(parts, i), last);
    WholeSlice(Texts(parts), i);
  }

  function Following(word: Option<string>, rest: Option<seq<string>>): Option<seq<string>> {
    if word.Some? && rest.Some? then Some([word.value] + rest.value) else None
  }

  /** The words a sequence of tokens reads as; nothing if any is left open. */
  function UnquoteAll(tokens: seq<string>): Option<seq<string>> {
    if tokens == [] then Some([]) else Following(Unquote(tokens[0]), UnquoteAll(tokens[1..]))
  }
}
