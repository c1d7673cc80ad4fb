/** Binding a wrapped command to the session that runs it (libexec/session_identity.py):
    the option words of the runner are rewritten, its child is not. */
module SessionIdentity {
  import opened Common
  import opened Words

  // ------------------------------------------------------------------- grammar

  const KEY: string := "--session-key"

  /** The runner's options: those that take a value, as the next word or after '=', and those that do not. */
  datatype OptionTable = OptionTable(values: set<string>, flags: set<string>)
  type Options = o: OptionTable | KEY in o.values && o.values !! o.flags witness OptionTable({KEY}, {})

  /** Index of the first '=', or the length. */
  function NameEnd(word: string): (n: nat)
    ensures n <= |word|
  {
    if word == "" || word[0] == '=' then 0 else 1 + NameEnd(word[1..])
  }

  function Name(word: string): string { word[..NameEnd(word)] }

  predicate HasValue(word: string) { NameEnd(word) < |word| }

  /** Options end at "--" or at the first word that is not an option. */
  predicate Stops(word: string) { word == "--" || word == "" || word[0] != '-' }

  predicate Known(o: Options, word: string) { Name(word) in o.values || word in o.flags }

  /** How many words an option takes. */
  function Size(o: Options, word: string): nat { if Name(word) in o.values && !HasValue(word) then 2 else 1 }

  predicate Grammatical(o: Options, words: seq<string>) {
    words == [] || Stops(words[0]) ||
    (Known(o, words[0]) && Size(o, words[0]) <= |words| && Grammatical(o, words[Size(o, words[0])..]))
  }

  // -------------------------------------------------------------------- meaning

  /** What the runner makes of its words. */
  datatype Setting = Setting(option: string, value: Option<string>)
  datatype Invocation = Invocation(settings: seq<Setting>, child: seq<string>)

  function SettingOf(o: Options, words: seq<string>): Setting
    requires words != [] && Size(o, words[0]) <= |words|
  {
    var word := words[0];
    if Name(word) in o.values
    then Setting(Name(word), Some(if HasValue(word) then word[NameEnd(word) + 1..] else words[1]))
    else Setting(word, None)
  }

  function Parsed(o: Options, words: seq<string>): Invocation
    requires Grammatical(o, words)
  {
    if words == [] || Stops(words[0]) then Invocation([], words)
    else
      var rest := Parsed(o, words[Size(o, words[0])..]);
      rest.(settings := [SettingOf(o, words)] + rest.settings)
  }

  function Without(settings: seq<Setting>, option: string): seq<Setting> {
    if settings == [] then []
    else (if settings[0].option == option then [] else [settings[0]]) + Without(settings[1..], option)
  }

  // ------------------------------------------------------------------ rewriting

  /** Everything but session keys, taken from a parallel sequence: the words themselves,
      or the source text they were read from. */
  function Kept(o: Options, words: seq<string>, source: seq<string>): seq<string>
    requires Grammatical(o, words) && |source| == |words|
  {
    if words == [] || Stops(words[0]) then source
    else
      var n := Size(o, words[0]);
      (if Name(words[0]) == KEY then [] else source[..n]) + Kept(o, words[n..], source[n..])
  }

  predicate Runs(argv: seq<string>) { |argv| >= 2 && (argv[1] == "run" || argv[1] == "_inspect") }

  /** The runner's words bound to a session; nothing when they are not a runner's, or not in its grammar. */
  function Bind(o: Options, argv: seq<string>, key: string): Option<seq<string>> {
    if key == "" || !Runs(argv) || !Grammatical(o, argv[2..]) then None
    else Some(argv[..2] + [KEY, key] + Kept(o, argv[2..], argv[2..]))
  }

  method BindRunner(o: Options, argv: seq<string>, key: string) returns (bound: Option<seq<string>>)
    ensures bound == Bind(o, argv, key)
  {
    if key == "" || |argv| < 2 || (argv[1] != "run" && argv[1] != "_inspect") {
      return None;
    }
    var result, i := argv[..2] + [KEY, key], 2;
    while i < |argv|
      invariant 2 <= i <= |argv|
      invariant Grammatical(o, argv[2..]) <==> Grammatical(o, argv[i..])
      invariant Grammatical(o, argv[i..]) ==> result + Kept(o, argv[i..], argv[i..]) == Bind(o, argv, key).value
      decreases |argv| - i
    {
      var arg := argv[i];
      assert argv[i..][0] == arg;
      if arg == "--" || arg == "" || arg[0] != '-' {
        return Some(result + argv[i..]);
      }
      if Name(arg) in o.values {
        var size := if HasValue(arg) then 1 else 2;
        if i + size > |argv| {
          return None;
        }
        OptionTaken(o, argv, i, size, result);
        if Name(arg) != KEY {
          result := result + argv[i..i + size];
        }
        i := i + size;
      } else if arg in o.flags {
        OptionTaken(o, argv, i, 1, result);
        result := result + [arg];
        i := i + 1;
      } else {
        return None;
      }
    }
    assert argv[i..] == [] && result + [] == result;
    bound := Some(result);
  }

  lemma OptionTaken(o: Options, argv: seq<string>, i: nat, size: nat, result: seq<string>)
    requires i + size <= |argv| && 0 < size && !Stops(argv[i]) && Known(o, argv[i]) && size == Size(o, argv[i])
    ensures Grammatical(o, argv[i..]) <==> Grammatical(o, argv[i + size..])
    ensures Grammatical(o, argv[i..]) ==>
      result + Kept(o, argv[i..], argv[i..])
        == (if Name(argv[i]) == KEY then result else result + argv[i..i + size])
            + Kept(o, argv[i + size..], argv[i + size..])
  {
    var rest := argv[i..];
    assert rest[0] == argv[i] && rest[size..] == argv[i + size..] && rest[..size] == argv[i..i + size];
  }

  lemma {:induction false} NameIsPlain(word: string)
    requires forall k :: 0 <= k < |word| ==> word[k] != '='
    ensures NameEnd(word) == |word|
  {
    if word != "" {
      NameIsPlain(word[1..]);
    }
  }

  lemma {:induction false} KeyIsPlain()
    ensures NameEnd(KEY) == |KEY|
  {
    NameIsPlain(KEY);
  }

  lemma {:induction false} KeyTakesValue(o: Options)
    ensures Name(KEY) == KEY && Size(o, KEY) == 2 && !Stops(KEY)
  {
    KeyIsPlain();
  }

  /** One option with its words. */
  predicate IsOption(o: Options, front: seq<string>) {
    front != [] && !Stops(front[0]) && Known(o, front[0]) && |front| == Size(o, front[0])
  }

  lemma FrontSplits(front: seq<string>, words: seq<string>)
    requires front != []
    ensures var all := front + words; all[0] == front[0] && all[|front|..] == words && all[..|front|] == front
  {
  }

  /** Reading an option in front of words that are in the grammar. */
  lemma OptionInFront(o: Options, front: seq<string>, words: seq<string>)
    requires IsOption(o, front) && Grammatical(o, words)
    ensures Grammatical(o, front + words)
    ensures Kept(o, front + words, front + words) == (if Name(front[0]) == KEY then [] else front)
      + Kept(o, words, words)
  {
    FrontSplits(front, words);
  }

  lemma OptionParses(o: Options, front: seq<string>, words: seq<string>)
    requires IsOption(o, front) && Grammatical(o, words) && Grammatical(o, front + words)
    ensures Parsed(o, front + words)
      == Invocation([SettingOf(o, front)] + Parsed(o, words).settings, Parsed(o, words).child)
  {
    FrontSplits(front, words);
    assert |front| == 2 ==> (front + words)[1] == front[1];
  }

  lemma Halves(words: seq<string>, n: nat)
    requires n <= |words|
    ensures words[..n] + words[n..] == words
  {
  }

  lemma OptionSplits(o: Options, words: seq<string>)
    requires Grammatical(o, words) && words != [] && !Stops(words[0])
    ensures var n := Size(o, words[0]);
      0 < n <= |words| && IsOption(o, words[..n]) && words[..n] + words[n..] == words && words[..n][0] == words[0]
          && Grammatical(o, words[n..])
  {
    Halves(words, Size(o, words[0]));
  }

  lemma SettingName(o: Options, front: seq<string>)
    requires IsOption(o, front)
    ensures SettingOf(o, front).option == KEY <==> Name(front[0]) == KEY
  {
    KeyTakesValue(o);
  }

  lemma {:induction false} KeptIsGrammatical(o: Options, words: seq<string>)
    requires Grammatical(o, words)
    ensures Grammatical(o, Kept(o, words, words))
      && Kept(o, Kept(o, words, words), Kept(o, words, words)) == Kept(o, words, words)
  {
    if words != [] && !Stops(words[0]) {
      var n := Size(o, words[0]);
      OptionSplits(o, words);
      KeptIsGrammatical(o, words[n..]);
      OptionInFront(o, words[..n], words[n..]);
      if Name(words[0]) != KEY {
        OptionInFront(o, words[..n], Kept(o, words[n..], words[n..]));
      } else {
        assert Kept(o, words, words) == Kept(o, words[n..], words[n..]);
      }
    }
  }

  /** What is kept parses to the same child and to the same settings without session keys. */
  lemma {:induction false} KeptParses(o: Options, words: seq<string>)
    requires Grammatical(o, words) && Grammatical(o, Kept(o, words, words))
    ensures Parsed(o, Kept(o, words, words))
      == Invocation(Without(Parsed(o, words).settings, KEY), Parsed(o, words).child)
  {
    if words != [] && !Stops(words[0]) {
      var n := Size(o, words[0]);
      var front, rest := words[..n], words[n..];
      OptionSplits(o, words);
      KeptIsGrammatical(o, rest);
      KeptParses(o, rest);
      OptionInFront(o, front, rest);
      OptionParses(o, front, rest);
      SettingName(o, front);
      WithoutStep(SettingOf(o, front), Parsed(o, rest).settings);
      if Name(words[0]) != KEY {
        OptionInFront(o, front, Kept(o, rest, rest));
        OptionParses(o, front, Kept(o, rest, rest));
      } else {
        assert Kept(o, words, words) == Kept(o, rest, rest);
      }
    }
  }

  lemma WithoutStep(first: Setting, rest: seq<Setting>)
    ensures Without([first] + rest, KEY) == (if first.option == KEY then [] else [first]) + Without(rest, KEY)
  {
    assert ([first] + rest)[1..] == rest;
  }

  lemma {:induction false} KeyInFront(o: Options, key: string, words: seq<string>)
    requires Grammatical(o, words)
    ensures Grammatical(o, [KEY, key] + words)
      && Kept(o, [KEY, key] + words, [KEY, key] + words) == Kept(o, words, words)
    ensures Parsed(o, [KEY, key] + words)
      == Invocation([Setting(KEY, Some(key))] + Parsed(o, words).settings, Parsed(o, words).child)
  {
    KeyTakesValue(o);
    OptionInFront(o, [KEY, key], words);
    OptionParses(o, [KEY, key], words);
  }

  lemma BoundTail(o: Options, argv: seq<string>, key: string)
    requires Bind(o, argv, key).Some?
    ensures var b := Bind(o, argv, key).value;
      b[..2] == argv[..2] && b[2..] == [KEY, key] + Kept(o, argv[2..], argv[2..]) && Runs(b)
  {
  }

  /** Binding changes one setting only: the runner reads the given session key, every other
      setting in its order, and exactly the child it had. */
  lemma {:induction false} BindSetsTheKey(o: Options, argv: seq<string>, key: string)
    requires Bind(o, argv, key).Some?
    ensures var b := Bind(o, argv, key).value;
      && b[..2] == argv[..2] && Grammatical(o, b[2..])
      && Parsed(o, b[2..]) == Invocation([Setting(KEY, Some(key))] + Without(Parsed(o, argv[2..]).settings, KEY),
                                         Parsed(o, argv[2..]).child)
  {
    BoundTail(o, argv, key);
    KeptIsGrammatical(o, argv[2..]);
    KeptParses(o, argv[2..]);
    KeyInFront(o, key, Kept(o, argv[2..], argv[2..]));
  }

  /** The child is a verbatim suffix of the words, before and after. */
  lemma {:induction false} ChildIsSuffix(o: Options, words: seq<string>)
    requires Grammatical(o, words)
    ensures |Parsed(o, words).child| <= |words| && words[|words| - |Parsed(o, words).child|..] == Parsed(o, words).child
    ensures Parsed(o, words).child != [] ==> Stops(Parsed(o, words).child[0])
  {
    if words != [] && !Stops(words[0]) {
      ChildIsSuffix(o, words[Size(o, words[0])..]);
    }
  }

  /** Binding again forgets the earlier key; with the same key it changes nothing. */
  lemma {:induction false} BindForgets(o: Options, argv: seq<string>, key: string, next: string)
    requires Bind(o, argv, key).Some? && next != ""
    ensures Bind(o, Bind(o, argv, key).value, next) == Bind(o, argv, next)
    ensures Bind(o, Bind(o, argv, key).value, key) == Bind(o, argv, key)
  {
    BoundTail(o, argv, key);
    KeptIsGrammatical(o, argv[2..]);
    KeyInFront(o, key, Kept(o, argv[2..], argv[2..]));
  }
}
