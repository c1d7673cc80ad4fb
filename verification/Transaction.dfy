/** Committing a set of prepared file edits, with rollback (commit in libexec/integrate.py),
    while other programs write to the same files and any operation of ours may fail. */
module Transaction {
  import opened Common

  type Content = string

  datatype Path = Target(name: Token) | BackupOf(name: Token)

  /** A prepared edit: what was read, and what it becomes. */
  datatype Edit = Edit(target: Token, before: Option<Content>, after: Content)

  /** Changes other programs make between two of our operations; None removes a file. */
  type Changes = map<Path, Option<Content>>

  /** What happened to the files, in order: changes of others; a backup; a replacement, with
      what it found, what it put there and what it had checked for; a file spared because it
      held something else; an operation that broke, perhaps because a file to remove was gone. */
  datatype Entry =
    | Foreign(changes: Changes)
    | Saved(path: Path, content: Content)
    | Own(path: Path, was: Option<Content>, now: Option<Content>, expected: Option<Content>)
    | Spared(path: Path, found: Option<Content>, expected: Option<Content>)
    | Broke(path: Path, removing: bool)

  /** What others do before our operation t, and whether that operation fails. */
  datatype Env = Env(others: nat -> Changes, fails: nat -> bool)

  /** The files and the next operation's number now, what both were when the log began, and
      everything that happened since. */
  datatype World = World(start: map<Path, Content>, began: nat, files: map<Path, Content>, step: nat, log: seq<Entry>)

  datatype Swap = Swapped | Unexpected | Failed

  datatype Outcome = Refused | Committed(count: nat) | RolledBack(began: nat, conflicts: seq<Token>)

  function Apply(files: map<Path, Content>, changes: Changes): map<Path, Content> {
    map p | p in files.Keys + changes.Keys && (p in changes ==> changes[p].Some?) ::
      if p in changes then changes[p].value else files[p]
  }

  function Put(files: map<Path, Content>, p: Path, c: Option<Content>): map<Path, Content> {
    if c.Some? then files[p := c.value] else files - {p}
  }

  function At(w: World, p: Path): Option<Content> { Lookup(w.files, p) }

  // ------------------------------------------------------------------ the record

  function StepFiles(files: map<Path, Content>, x: Entry): map<Path, Content> {
    match x
    case Foreign(changes) => Apply(files, changes)
    case Saved(p, c) => Put(files, p, Some(c))
    case Own(p, _, now, _) => Put(files, p, now)
    case _ => files
  }

  /** The files a log leads to. */
  function FilesAfter(start: map<Path, Content>, log: seq<Entry>): map<Path, Content> {
    if log == [] then start else StepFiles(FilesAfter(start, log[..|log| - 1]), log[|log| - 1])
  }

  /** Operations in a log: each lets others make their changes first. */
  function Steps(log: seq<Entry>): nat {
    if log == [] then 0 else Steps(log[..|log| - 1]) + if log[|log| - 1].Foreign? then 1 else 0
  }

  predicate EndsForeign(log: seq<Entry>) { log != [] && log[|log| - 1].Foreign? }

  /** An entry tells the truth about what led to it. Changes of others are those of that
      moment. A replacement found what the file held, right after one round of others'
      changes, before which the file had been found as expected. A file was spared because it
      held something else; an operation broke because it failed, or had nothing to remove. */
  ghost predicate Holds(env: Env, began: nat, start: map<Path, Content>, log: seq<Entry>, x: Entry) {
    match x
    case Foreign(changes) => changes == env.others(began + Steps(log))
    case Saved(_, _) => EndsForeign(log)
    case Own(p, was, _, expected) =>
      && EndsForeign(log) && Lookup(FilesAfter(start, log), p) == was
      && Lookup(FilesAfter(start, log[..|log| - 1]), p) == expected
    case Spared(p, found, expected) =>
      EndsForeign(log) && Lookup(FilesAfter(start, log), p) == found && found != expected
    case Broke(p, removing) =>
      && EndsForeign(log) && began + Steps(log) > 0
      && (env.fails(began + Steps(log) - 1) || (removing && Lookup(FilesAfter(start, log), p) == None))
  }

  ghost predicate AllHold(env: Env, began: nat, start: map<Path, Content>, log: seq<Entry>) {
    log == [] ||
    var n := |log| - 1;
    AllHold(env, began, start, log[..n]) && Holds(env, began, start, log[..n], log[n])
  }

  /** The log is true, and replaying it from where it began gives the files there are. */
  ghost predicate Replays(env: Env, w: World) {
    && w.step == w.began + Steps(w.log) && w.files == FilesAfter(w.start, w.log)
    && AllHold(env, w.began, w.start, w.log)
  }

  /** A world reached from another: the same record, continued. */
  ghost predicate Leads(env: Env, w: World, after: World) {
    Replays(env, after) && after.start == w.start && after.began == w.began && after.step >= w.step
  }

  function Logged(w: World, x: Entry): World {
    w.(files := StepFiles(w.files, x), step := w.step + if x.Foreign? then 1 else 0, log := w.log + [x])
  }

  lemma LoggedReplays(env: Env, w: World, x: Entry)
    requires Replays(env, w) && Holds(env, w.began, w.start, w.log, x)
    ensures Replays(env, Logged(w, x)) && Leads(env, w, Logged(w, x))
    ensures Trace(Logged(w, x).log) == Trace(w.log) + ActionsOf(x)
  {
    assert (w.log + [x])[..|w.log|] == w.log;
  }

  /** One operation's worth of time: others make their changes first. */
  function Passed(env: Env, w: World): World { Logged(w, Foreign(env.others(w.step))) }

  function Written(w: World, p: Path, now: Option<Content>, expected: Option<Content>): World {
    Logged(w, Own(p, At(w, p), now, expected))
  }

  /** Nobody else ever writes this file. */
  ghost predicate Alone(env: Env, p: Path) { forall t :: p !in env.others(t) }

  ghost predicate FailedBetween(env: Env, from: nat, to: nat) { exists t :: from <= t < to && env.fails(t) }

  /** What we did, in order, whatever others did in between. */
  datatype Action =
    | Save(target: Token, content: Content)
    | Write(path: Path, now: Option<Content>, expected: Option<Content>)
    | Spare(path: Path, expected: Option<Content>)
    | Break(path: Path)

  function ActionsOf(x: Entry): seq<Action> {
    match x
    case Foreign(_) => []
    case Saved(p, c) => [Save(p.name, c)]
    case Own(p, _, now, expected) => [Write(p, now, expected)]
    case Spared(p, _, expected) => [Spare(p, expected)]
    case Broke(p, _) => [Break(p)]
  }

  function Trace(log: seq<Entry>): seq<Action> {
    if log == [] then [] else Trace(log[..|log| - 1]) + ActionsOf(log[|log| - 1])
  }

  // ------------------------------------------------------------- what a log shows

  lemma {:induction false} HoldsAt(env: Env, began: nat, start: map<Path, Content>, log: seq<Entry>, i: nat)
    requires AllHold(env, began, start, log) && i < |log|
    ensures Holds(env, began, start, log[..i], log[i])
    decreases |log|
  {
    var n := |log| - 1;
    if i < n {
      HoldsAt(env, began, start, log[..n], i);
      assert log[..n][..i] == log[..i];
    }
  }

  lemma {:induction false} ForeignAt(env: Env, began: nat, start: map<Path, Content>, log: seq<Entry>, i: nat)
    requires AllHold(env, began, start, log) && i < |log| && log[i].Foreign?
    ensures log[i] == Foreign(env.others(began + Steps(log[..i])))
    ensures FilesAfter(start, log[..i + 1]) == Apply(FilesAfter(start, log[..i]), log[i].changes)
  {
    HoldsAt(env, began, start, log, i);
    assert log[..i + 1][..i] == log[..i];
  }

  /** The exact condition of the race. A replacement overwrites just what had been checked
      for if and only if what others did right before it leaves the file out, or leaves it
      holding that very content. */
  lemma OverwritesAsChecked(env: Env, w: World, i: nat)
    requires Replays(env, w) && i < |w.log| && w.log[i].Own?
    ensures var x := w.log[i];
      && i > 0 && w.log[i - 1] == Foreign(env.others(w.began + Steps(w.log[..i - 1])))
      && x.was == Lookup(FilesAfter(w.start, w.log[..i]), x.path)
      && x.expected == Lookup(FilesAfter(w.start, w.log[..i - 1]), x.path)
      && (x.was == x.expected
          <==> x.path !in w.log[i - 1].changes || w.log[i - 1].changes[x.path] == x.expected)
  {
    HoldsAt(env, w.began, w.start, w.log, i);
    assert w.log[..i][..i - 1] == w.log[..i - 1];
    ForeignAt(env, w.began, w.start, w.log, i - 1);
  }

  /** A file is spared only for holding something else, and an operation breaks only by
      failing or for want of a file to remove. */
  lemma SparedForCause(env: Env, w: World, i: nat)
    requires Replays(env, w) && i < |w.log| && (w.log[i].Spared? || w.log[i].Broke?)
    ensures w.log[i].Spared? ==>
      Lookup(FilesAfter(w.start, w.log[..i]), w.log[i].path) == w.log[i].found != w.log[i].expected
    ensures w.log[i].Broke? ==>
      var t := w.began + Steps(w.log[..i]);
      t > 0 && (env.fails(t - 1)
                || (w.log[i].removing && Lookup(FilesAfter(w.start, w.log[..i]), w.log[i].path) == None))
  {
    HoldsAt(env, w.began, w.start, w.log, i);
  }

  // ------------------------------------------------------------------ operations

  /** Files nobody else writes are as they were, but for one. */
  ghost predicate SameBut(env: Env, w: World, after: World, but: Option<Path>) {
    forall q :: Alone(env, q) && but != Some(q) ==> At(after, q) == At(w, q)
  }

  lemma PassedKeeps(env: Env, w: World)
    requires Replays(env, w)
    ensures Leads(env, w, Passed(env, w)) && Trace(Passed(env, w).log) == Trace(w.log)
    ensures SameBut(env, w, Passed(env, w), None)
  {
    LoggedReplays(env, w, Foreign(env.others(w.step)));
    forall q | Alone(env, q) ensures At(Passed(env, w), q) == At(w, q) {
    }
  }

  /** What a read finds; nothing when it fails. */
  function Found(env: Env, w: World, p: Path): Option<Option<Content>> {
    if env.fails(w.step) then None else Some(At(Passed(env, w), p))
  }

  /** Read a file; nothing is returned when the read fails. */
  method Read(env: Env, w: World, p: Path) returns (r: Option<Option<Content>>, after: World)
    requires Replays(env, w)
    ensures after == Passed(env, w) && Leads(env, w, after) && Trace(after.log) == Trace(w.log)
    ensures r == Found(env, w, p)
    ensures SameBut(env, w, after, None)
  {
    PassedKeeps(env, w);
    after := Passed(env, w);
    r := if env.fails(w.step) then None else Some(At(after, p));
  }

  lemma LastPassed(env: Env, w: World)
    requires Replays(env, w)
    ensures var log := Passed(env, w).log;
      EndsForeign(log) && log[..|log| - 1] == w.log && Steps(log) == Steps(w.log) + 1
  {
    assert Passed(env, w).log[..|w.log|] == w.log;
  }

  /** One operation and what it recorded. */
  lemma PassedAndLogged(env: Env, w: World, x: Entry)
    requires Replays(env, w)
    requires var raced := Passed(env, w); Holds(env, w.began, w.start, raced.log, x)
    ensures var after := Logged(Passed(env, w), x);
      Leads(env, w, after) && Trace(after.log) == Trace(w.log) + ActionsOf(x)
  {
    PassedKeeps(env, w);
    LoggedReplays(env, Passed(env, w), x);
  }

  /** A check as it is recorded when it does not find what it expects. */
  function Stopped(w: World, p: Path, found: Option<Option<Content>>, expected: Option<Content>): World {
    Logged(w, if found.None? then Broke(p, false) else Spared(p, found.value, expected))
  }

  /** What stops a step on a file: it holds something else, or an operation broke. */
  predicate Stop(a: Action, p: Path, expected: Option<Content>) { a == Spare(p, expected) || a == Break(p) }

  lemma StoppedReplays(env: Env, w: World, p: Path, found: Option<Option<Content>>, expected: Option<Content>)
    requires Replays(env, w)
    requires found == Found(env, w, p) && found != Some(expected)
    ensures Leads(env, w, Stopped(Passed(env, w), p, found, expected))
    ensures SameBut(env, w, Stopped(Passed(env, w), p, found, expected), None)
    ensures Trace(Stopped(Passed(env, w), p, found, expected).log)
         == Trace(w.log) + [if found.None? then Break(p) else Spare(p, expected)]
  {
    PassedKeeps(env, w);
    LastPassed(env, w);
    if found.None? {
      PassedAndLogged(env, w, Broke(p, false));
    } else {
      PassedAndLogged(env, w, Spared(p, found.value, expected));
    }
  }

  /** The world after a replacement of a file that was found as expected. */
  function Replaced(env: Env, w: World, p: Path, now: Option<Content>): World {
    var raced := Passed(env, w);
    if env.fails(w.step) || (now.None? && At(raced, p).None?) then Logged(raced, Broke(p, now.None?))
    else Written(raced, p, now, At(w, p))
  }

  predicate Replaces(env: Env, w: World, p: Path, now: Option<Content>) {
    !env.fails(w.step) && !(now.None? && At(Passed(env, w), p).None?)
  }

  lemma ReplacedWrites(env: Env, w: World, p: Path, now: Option<Content>)
    requires Replays(env, w) && Replaces(env, w, p, now)
    ensures var after := Replaced(env, w, p, now);
      Leads(env, w, after) && Trace(after.log) == Trace(w.log) + [Write(p, now, At(w, p))]
  {
    LastPassed(env, w);
    PassedAndLogged(env, w, Own(p, At(Passed(env, w), p), now, At(w, p)));
  }

  lemma ReplacedBreaks(env: Env, w: World, p: Path, now: Option<Content>)
    requires Replays(env, w) && !Replaces(env, w, p, now)
    ensures var after := Replaced(env, w, p, now);
      Leads(env, w, after) && Trace(after.log) == Trace(w.log) + [Break(p)]
  {
    LastPassed(env, w);
    PassedAndLogged(env, w, Broke(p, now.None?));
  }

  lemma ReplacedReplays(env: Env, w: World, p: Path, now: Option<Content>)
    requires Replays(env, w)
    ensures var after := Replaced(env, w, p, now);
      && Leads(env, w, after)
      && Trace(after.log) == Trace(w.log) + [if Replaces(env, w, p, now) then Write(p, now, At(w, p)) else Break(p)]
  {
    if Replaces(env, w, p, now) {
      ReplacedWrites(env, w, p, now);
    } else {
      ReplacedBreaks(env, w, p, now);
    }
  }

  lemma ReplacedSame(env: Env, w: World, p: Path, now: Option<Content>)
    requires Replays(env, w)
    ensures var ok := Replaces(env, w, p, now);
      SameBut(env, w, Replaced(env, w, p, now), if ok then Some(p) else None)
          && (ok ==> At(Replaced(env, w, p, now), p) == now)
  {
    PassedKeeps(env, w);
  }

  /** Replace or remove a file that was found as expected, unless the operation fails. */
  method Replace(env: Env, w: World, p: Path, now: Option<Content>) returns (ok: bool, after: World)
    requires Replays(env, w)
    ensures after == Replaced(env, w, p, now) && ok == Replaces(env, w, p, now)
    ensures Leads(env, w, after)
    ensures Trace(after.log) == Trace(w.log) + [if ok then Write(p, now, At(w, p)) else Break(p)]
    ensures ok ==> At(after, p) == now
    ensures SameBut(env, w, after, if ok then Some(p) else None)
  {
    ReplacedReplays(env, w, p, now);
    ReplacedSame(env, w, p, now);
    after := Passed(env, w);
    ok := !env.fails(w.step) && !(now.None? && At(after, p).None?);
    after := if ok then Written(after, p, now, At(w, p)) else Logged(after, Broke(p, now.None?));
  }

  /** A check and, if it finds what is expected, a replacement. */
  function Exchanged(env: Env, w: World, p: Path, expected: Option<Content>, now: Option<Content>): (Swap, World) {
    var found := Found(env, w, p);
    var read := Passed(env, w);
    if found != Some(expected) then (if found.None? then Failed else Unexpected, Stopped(read, p, found, expected))
    else (if Replaces(env, read, p, now) then Swapped else Failed, Replaced(env, read, p, now))
  }

  function ActionFor(r: Swap, p: Path, expected: Option<Content>, now: Option<Content>): Action {
    match r
    case Swapped => Write(p, now, expected)
    case Unexpected => Spare(p, expected)
    case Failed => Break(p)
  }

  lemma LeadsOn(env: Env, a: World, b: World, c: World)
    requires Leads(env, a, b) && Leads(env, b, c)
    ensures Leads(env, a, c)
  {
  }

  /** What one exchange comes to. */
  ghost predicate Exchange(env: Env, w: World, p: Path, expected: Option<Content>, now: Option<Content>, r: Swap,
                           after: World) {
    && Leads(env, w, after) && after.step > w.step
       && Trace(after.log) == Trace(w.log) + [ActionFor(r, p, expected, now)]
    && (r.Swapped? ==> At(after, p) == now) && SameBut(env, w, after, if r.Swapped? then Some(p) else None)
  }

  lemma ExchangeStops(env: Env, w: World, p: Path, expected: Option<Content>, now: Option<Content>)
    requires Replays(env, w) && Found(env, w, p) != Some(expected)
    ensures var e := Exchanged(env, w, p, expected, now); Exchange(env, w, p, expected, now, e.0, e.1)
  {
    StoppedReplays(env, w, p, Found(env, w, p), expected);
  }

  lemma ExchangeReplaces(env: Env, w: World, p: Path, expected: Option<Content>, now: Option<Content>)
    requires Replays(env, w) && Found(env, w, p) == Some(expected)
    ensures var e := Exchanged(env, w, p, expected, now); Exchange(env, w, p, expected, now, e.0, e.1)
  {
    PassedKeeps(env, w);
    var read := Passed(env, w);
    ReplacedReplays(env, read, p, now);
    ReplacedSame(env, read, p, now);
    LeadsOn(env, w, read, Replaced(env, read, p, now));
  }

  /** Replace a file if it still holds what is expected: a check, then the replacement, with
      just one round of others' changes before each. */
  method CompareAndWrite(env: Env, w: World, p: Path, expected: Option<Content>, now: Option<Content>)
    returns (r: Swap, after: World)
    requires Replays(env, w)
    ensures (r, after) == Exchanged(env, w, p, expected, now) && Exchange(env, w, p, expected, now, r, after)
  {
    var found, read := Read(env, w, p);
    if found != Some(expected) {
      ExchangeStops(env, w, p, expected, now);
      return if found.None? then Failed else Unexpected, Stopped(read, p, found, expected);
    }
    ExchangeReplaces(env, w, p, expected, now);
    var ok;
    ok, after := Replace(env, read, p, now);
    r := if ok then Swapped else Failed;
  }

  /** While nobody else writes the file, it is spared just when it does not hold what is
      expected, and an exchange that found it breaks only if an operation failed. */
  lemma ExchangeAlone(env: Env, w: World, p: Path, expected: Option<Content>, now: Option<Content>)
    requires Replays(env, w) && Alone(env, p)
    ensures var e := Exchanged(env, w, p, expected, now);
      && (e.0.Swapped? ==> At(w, p) == expected) && (e.0.Unexpected? ==> At(w, p) != expected)
      && (e.0.Failed? && (expected.Some? || now.Some?) ==> FailedBetween(env, w.step, e.1.step))
  {
    PassedKeeps(env, w);
    PassedKeeps(env, Passed(env, w));
  }

  /** The race is real. Others write a file between the check of a restoration and the
      restoration itself, which then overwrites what they wrote. */
  lemma RestorationMayOverwrite() returns (env: Env, w: World, e: Edit)
    ensures Replays(env, w) && At(w, Target(e.target)) == Some(e.after)
    ensures var p := Target(e.target);
            var others := At(Passed(env, Passed(env, w)), p);
            var restored := Exchanged(env, w, p, Some(e.after), e.before);
      && others.Some? && others != e.before && others != Some(e.after)
      && restored.0.Swapped? && At(restored.1, p) == e.before
  {
    e := Edit(1, Some("before"), "after");
    var p := Target(1);
    env := Env(t => if t == 1 then map[p := Some("foreign")] else map[], t => false);
    w := World(map[p := "after"], 0, map[p := "after"], 0, []);
    assert |"foreign"| == 7 && |"before"| == 6 && |"after"| == 5;
    assert Passed(env, w).files == map[p := "after"];
    assert Passed(env, Passed(env, w)).files == map[p := "foreign"];
  }

  // -------------------------------------------------------------- whole commits

  function Forward(e: Edit): Action { Write(Target(e.target), Some(e.after), e.before) }

  function Restore(e: Edit): Action { Write(Target(e.target), e.before, Some(e.after)) }

  function Saves(edits: seq<Edit>): seq<Action> {
    if edits == [] then [] else
    var e := edits[|edits| - 1];
    Saves(edits[..|edits| - 1]) + if e.before.Some? then [Save(e.target, e.before.value)] else []
  }

  function Forwards(edits: seq<Edit>): seq<Action> {
    if edits == [] then [] else Forwards(edits[..|edits| - 1]) + [Forward(edits[|edits| - 1])]
  }

  predicate Changing(edits: seq<Edit>) { forall e :: e in edits ==> e.before != Some(e.after) }

  /** Nobody else writes any of the targets. */
  ghost predicate AllAlone(env: Env, edits: seq<Edit>) { forall e :: e in edits ==> Alone(env, Target(e.target)) }

  predicate AllBefore(w: World, edits: seq<Edit>) { forall e :: e in edits ==> At(w, Target(e.target)) == e.before }

  predicate AllAfter(w: World, edits: seq<Edit>) { forall e :: e in edits ==> At(w, Target(e.target)) == Some(e.after) }

  predicate Targeted(edits: seq<Edit>, p: Path) { exists e :: e in edits && p == Target(e.target) }

  predicate Distinct(edits: seq<Edit>) { forall i, j :: 0 <= i < j < |edits| ==> edits[i].target != edits[j].target }

  ghost predicate SameOutside(env: Env, w: World, after: World, edits: seq<Edit>) {
    forall q :: Alone(env, q) && !Targeted(edits, q) ==> At(after, q) == At(w, q)
  }

  /** The edits that change anything. */
  function ChangedOf(edits: seq<Edit>): (r: seq<Edit>)
    ensures Changing(r)
  {
    if edits == [] then []
    else
      var e := edits[|edits| - 1];
      ChangedOf(edits[..|edits| - 1]) + if e.before != Some(e.after) then [e] else []
  }

  /** Every file checked so far held what was read. */
  ghost predicate Checking(env: Env, w: World, now: World, edits: seq<Edit>, k: nat) {
    && k <= |edits| && Leads(env, w, now) && SameBut(env, w, now, None) && Trace(now.log) == Trace(w.log)
    && (AllAlone(env, edits) ==> AllBefore(w, edits[..k]))
  }

  lemma CheckingNext(env: Env, w: World, now: World, edits: seq<Edit>, k: nat)
    requires k < |edits| && Checking(env, w, now, edits, k)
      && Found(env, now, Target(edits[k].target)) == Some(edits[k].before)
    ensures Checking(env, w, Passed(env, now), edits, k + 1)
  {
    PassedKeeps(env, now);
    LeadsOn(env, w, now, Passed(env, now));
    BeforeStep(env, w, edits, k);
  }

  lemma CheckingStops(env: Env, w: World, now: World, edits: seq<Edit>, k: nat)
    requires k < |edits| && Checking(env, w, now, edits, k)
      && Found(env, now, Target(edits[k].target)) != Some(edits[k].before)
    ensures var e := edits[k];
            var p := Target(e.target);
            var after := Stopped(Passed(env, now), p, Found(env, now, p), e.before);
      && Leads(env, w, after) && SameBut(env, w, after, None)
      && StoppedAt(edits, Trace(w.log), 0, Trace(after.log))
  {
    var e := edits[k];
    var p := Target(e.target);
    StoppedReplays(env, now, p, Found(env, now, p), e.before);
    LeadsOn(env, w, now, Stopped(Passed(env, now), p, Found(env, now, p), e.before));
    assert edits[..0] == [] && Trace(w.log) + Saves([]) == Trace(w.log);
    assert e in edits && Hinders(if Found(env, now, p).None? then Break(p) else Spare(p, e.before), e);
  }

  /** What keeps an edit from being prepared. */
  predicate Hinders(a: Action, e: Edit) { Stop(a, Target(e.target), e.before) || a == Break(BackupOf(e.target)) }

  /** Nothing was done but the first n backups, because a file no longer held what was read,
      or an operation on it or its backup broke. */
  ghost predicate StoppedAt(edits: seq<Edit>, before: seq<Action>, n: nat, trace: seq<Action>) {
    n <= |edits| && exists e, a :: e in edits && trace == before + Saves(edits[..n]) + [a] && Hinders(a, e)
  }

  /** Does every file still hold what was read? */
  method CheckAll(env: Env, edits: seq<Edit>, w: World) returns (same: bool, after: World)
    requires Replays(env, w)
    ensures Leads(env, w, after) && SameBut(env, w, after, None)
    ensures same ==> Checking(env, w, after, edits, |edits|)
    ensures !same ==> StoppedAt(edits, Trace(w.log), 0, Trace(after.log))
  {
    same, after := true, w;
    for k := 0 to |edits|
      invariant Checking(env, w, after, edits, k)
    {
      var p := Target(edits[k].target);
      var found, read := Read(env, after, p);
      if found != Some(edits[k].before) {
        CheckingStops(env, w, after, edits, k);
        return false, Stopped(read, p, found, edits[k].before);
      }
      CheckingNext(env, w, after, edits, k);
      after := read;
    }
  }

  lemma BeforeStep(env: Env, w: World, edits: seq<Edit>, k: nat)
    requires k < |edits| && (AllAlone(env, edits) ==> AllBefore(w, edits[..k]))
    requires Alone(env, Target(edits[k].target)) ==> At(w, Target(edits[k].target)) == edits[k].before
    ensures AllAlone(env, edits) ==> AllBefore(w, edits[..k + 1])
  {
    assert edits[..k + 1] == edits[..k] + [edits[k]];
    assert edits[k] in edits;
  }

  lemma SavesStep(edits: seq<Edit>, k: nat)
    requires k < |edits|
    ensures Saves(edits[..k + 1]) == Saves(edits[..k])
      + if edits[k].before.Some? then [Save(edits[k].target, edits[k].before.value)] else []
  {
    assert edits[..k + 1][..k] == edits[..k];
  }

  /** The world after an attempt to write a backup. */
  function Backed(env: Env, w: World, p: Path, c: Content): World {
    Logged(Passed(env, w), if env.fails(w.step) then Broke(p, false) else Saved(p, c))
  }

  lemma BackedReplays(env: Env, w: World, p: Path, c: Content)
    requires Replays(env, w)
    ensures Leads(env, w, Backed(env, w, p, c)) && SameBut(env, w, Backed(env, w, p, c), Some(p))
    ensures Trace(Backed(env, w, p, c).log) == Trace(w.log) + [if env.fails(w.step) then Break(p) else Save(p.name, c)]
  {
    PassedKeeps(env, w);
    LastPassed(env, w);
    if env.fails(w.step) {
      PassedAndLogged(env, w, Broke(p, false));
    } else {
      PassedAndLogged(env, w, Saved(p, c));
    }
  }

  /** Write one backup next to its file. */
  method Back(env: Env, w: World, p: Path, c: Content) returns (ok: bool, after: World)
    requires Replays(env, w)
    ensures ok == !env.fails(w.step) && after == Backed(env, w, p, c)
    ensures Leads(env, w, after) && SameBut(env, w, after, Some(p))
    ensures Trace(after.log) == Trace(w.log) + [if ok then Save(p.name, c) else Break(p)]
  {
    BackedReplays(env, w, p, c);
    ok := !env.fails(w.step);
    after := Logged(Passed(env, w), if ok then Saved(p, c) else Broke(p, false));
  }

  ghost predicate TargetsSame(env: Env, w: World, after: World) {
    forall name :: Alone(env, Target(name)) ==> At(after, Target(name)) == At(w, Target(name))
  }

  /** The first k backups are written. */
  ghost predicate Saving(env: Env, w: World, now: World, edits: seq<Edit>, k: nat) {
    && k <= |edits| && Leads(env, w, now) && TargetsSame(env, w, now)
    && Trace(now.log) == Trace(w.log) + Saves(edits[..k])
  }

  lemma SavingNext(env: Env, w: World, now: World, next: World, edits: seq<Edit>, k: nat)
    requires k < |edits| && Saving(env, w, now, edits, k)
    requires var e := edits[k];
      if e.before.Some? then
        && Leads(env, now, next) && SameBut(env, now, next, Some(BackupOf(e.target)))
        && Trace(next.log) == Trace(now.log) + [Save(e.target, e.before.value)]
      else next == now
    ensures Saving(env, w, next, edits, k + 1)
  {
    SavesStep(edits, k);
  }

  lemma SavingStops(env: Env, w: World, now: World, next: World, edits: seq<Edit>, k: nat)
    requires k < |edits| && Saving(env, w, now, edits, k) && Leads(env, now, next)
    requires var p := BackupOf(edits[k].target);
      SameBut(env, now, next, Some(p)) && Trace(next.log) == Trace(now.log) + [Break(p)]
    ensures Leads(env, w, next) && TargetsSame(env, w, next) && StoppedAt(edits, Trace(w.log), k, Trace(next.log))
  {
    assert edits[k] in edits && Hinders(Break(BackupOf(edits[k].target)), edits[k]);
  }

  /** Back up every file that exists. */
  method SaveAll(env: Env, edits: seq<Edit>, w: World) returns (ok: bool, after: World)
    requires Replays(env, w)
    ensures Leads(env, w, after) && TargetsSame(env, w, after)
    ensures ok ==> Saving(env, w, after, edits, |edits|)
    ensures !ok ==> exists n: nat :: StoppedAt(edits, Trace(w.log), n, Trace(after.log))
  {
    ok, after := true, w;
    assert edits[..0] == [];
    for k := 0 to |edits|
      invariant Saving(env, w, after, edits, k)
    {
      if edits[k].before.Some? {
        var done, next := Back(env, after, BackupOf(edits[k].target), edits[k].before.value);
        if !done {
          SavingStops(env, w, after, next, edits, k);
          return false, next;
        }
        SavingNext(env, w, after, next, edits, k);
        after := next;
      } else {
        SavingNext(env, w, after, after, edits, k);
      }
    }
  }

  /** So far, with nobody else writing the targets, every edit made stands, everything else
      is untouched, and no file was edited twice. */
  ghost predicate Made(env: Env, w: World, now: World, done: seq<Edit>) {
    AllAfter(now, done) && Distinct(done) && SameOutside(env, w, now, done)
  }

  lemma MadeOne(env: Env, w: World, now: World, next: World, done: seq<Edit>, e: Edit, edits: seq<Edit>)
    requires AllAlone(env, edits) && AllBefore(w, edits) && Changing(edits)
    requires e in edits && forall x :: x in done ==> x in edits
    requires Made(env, w, now, done) && At(now, Target(e.target)) == e.before
    requires At(next, Target(e.target)) == Some(e.after) && SameBut(env, now, next, Some(Target(e.target)))
    ensures Made(env, w, next, done + [e])
  {
    forall x | x in done ensures x.target != e.target && At(next, Target(x.target)) == Some(x.after) {
      assert At(w, Target(x.target)) == x.before && At(now, Target(x.target)) == Some(x.after);
    }
    forall q | Alone(env, q) && !Targeted(done + [e], q) ensures At(next, q) == At(w, q) {
      TargetedGrows(done, e, q);
    }
  }

  lemma TargetedGrows(done: seq<Edit>, e: Edit, q: Path)
    ensures Targeted(done + [e], q) <==> Targeted(done, q) || q == Target(e.target)
  {
    assert e in done + [e];
    if Targeted(done, q) {
      var x :| x in done && q == Target(x.target);
      assert x in done + [e];
    }
  }

  /** Nobody else writes the targets, and they hold what was read. */
  ghost predicate Calm(env: Env, w: World, edits: seq<Edit>) { AllAlone(env, edits) && AllBefore(w, edits) }

  lemma MadeNext(env: Env, w: World, now: World, next: World, edits: seq<Edit>, k: nat)
    requires k < |edits| && Changing(edits) && (Calm(env, w, edits) ==> Made(env, w, now, edits[..k]))
    requires var e := edits[k]; var p := Target(e.target);
      && At(next, p) == Some(e.after) && SameBut(env, now, next, Some(p)) && (Alone(env, p) ==> At(now, p) == e.before)
    ensures Calm(env, w, edits) ==> Made(env, w, next, edits[..k + 1])
  {
    if Calm(env, w, edits) {
      assert edits[..k + 1] == edits[..k] + [edits[k]];
      assert edits[k] in edits;
      MadeOne(env, w, now, next, edits[..k], edits[k], edits);
    }
  }

  /** The first k edits are made. */
  ghost predicate Writing(env: Env, w: World, now: World, edits: seq<Edit>, k: nat) {
    && k <= |edits| && Leads(env, w, now) && SameOutside(env, w, now, edits)
    && (Calm(env, w, edits) ==> Made(env, w, now, edits[..k]))
  }

  lemma WritingNext(env: Env, w: World, now: World, edits: seq<Edit>, k: nat)
    requires k < |edits| && Changing(edits) && Writing(env, w, now, edits, k)
    requires var e := edits[k]; var x := Exchanged(env, now, Target(e.target), e.before, Some(e.after));
      Exchange(env, now, Target(e.target), e.before, Some(e.after), x.0, x.1)
    ensures var e := edits[k]; var x := Exchanged(env, now, Target(e.target), e.before, Some(e.after));
      Writing(env, w, x.1, edits, if x.0.Swapped? then k + 1 else k)
  {
    var e := edits[k];
    var p := Target(e.target);
    var x := Exchanged(env, now, p, e.before, Some(e.after));
    LeadsOn(env, w, now, x.1);
    OutsideNext(env, w, now, x.1, edits, e, if x.0.Swapped? then Some(p) else None);
    if x.0.Swapped? {
      if Alone(env, p) {
        ExchangeAlone(env, now, p, e.before, Some(e.after));
      }
      MadeNext(env, w, now, x.1, edits, k);
    } else {
      StillMade(env, w, now, x.1, edits, k);
    }
  }

  /** What making edits did: all of them, or the first ones and then what stopped the next. */
  ghost predicate Forwarded(edits: seq<Edit>, before: seq<Action>, count: nat, trace: seq<Action>) {
    count <= |edits| &&
    if count == |edits| then trace == before + Forwards(edits)
    else exists a :: && Stop(a, Target(edits[count].target), edits[count].before)
                     && trace == before + Forwards(edits[..count]) + [a]
  }

  lemma ForwardedStops(edits: seq<Edit>, count: nat, before: seq<Action>, a: Action)
    requires count < |edits| && Stop(a, Target(edits[count].target), edits[count].before)
    ensures Forwarded(edits, before, count, before + Forwards(edits[..count]) + [a])
  {
  }

  /** The first k edits are made, and nothing else was done. */
  ghost predicate Going(env: Env, w: World, now: World, edits: seq<Edit>, k: nat) {
    Writing(env, w, now, edits, k) && Trace(now.log) == Trace(w.log) + Forwards(edits[..k])
  }

  lemma GoingNext(env: Env, w: World, now: World, edits: seq<Edit>, k: nat, r: Swap, next: World)
    requires k < |edits| && Changing(edits) && Going(env, w, now, edits, k)
    requires var e := edits[k];
      && (r, next) == Exchanged(env, now, Target(e.target), e.before, Some(e.after))
      && Exchange(env, now, Target(e.target), e.before, Some(e.after), r, next)
    ensures r.Swapped? ==> Going(env, w, next, edits, k + 1)
    ensures !r.Swapped? ==> Writing(env, w, next, edits, k) && Forwarded(edits, Trace(w.log), k, Trace(next.log))
  {
    WritingNext(env, w, now, edits, k);
    ForwardsStep(edits, k);
    if !r.Swapped? {
      var e := edits[k];
      ForwardedStops(edits, k, Trace(w.log), ActionFor(r, Target(e.target), e.before, Some(e.after)));
    }
  }

  /** Make the edits one by one, each only if its file still holds what was read. */
  method WriteAll(env: Env, edits: seq<Edit>, w: World) returns (count: nat, after: World)
    requires Replays(env, w) && Changing(edits)
    ensures Writing(env, w, after, edits, count) && Forwarded(edits, Trace(w.log), count, Trace(after.log))
  {
    count, after := 0, w;
    assert edits[..0] == [] && Forwards([]) == [];
    while count < |edits|
      invariant Going(env, w, after, edits, count)
    {
      var e := edits[count];
      var r, next := CompareAndWrite(env, after, Target(e.target), e.before, Some(e.after));
      GoingNext(env, w, after, edits, count, r, next);
      after := next;
      if !r.Swapped? {
        return;
      }
      count := count + 1;
    }
    assert edits[..count] == edits;
  }

  lemma ForwardsStep(edits: seq<Edit>, k: nat)
    requires k < |edits|
    ensures Forwards(edits[..k + 1]) == Forwards(edits[..k]) + [Forward(edits[k])]
  {
    assert edits[..k + 1][..k] == edits[..k];
  }

  lemma StillMade(env: Env, w: World, now: World, next: World, edits: seq<Edit>, k: nat)
    requires k <= |edits| && SameBut(env, now, next, None)
    requires Calm(env, w, edits) ==> Made(env, w, now, edits[..k])
    ensures Calm(env, w, edits) ==> Made(env, w, next, edits[..k])
  {
  }

  /** What a rollback did about one edit: it restored the file, or was stopped. */
  predicate Handles(a: Action, e: Edit) { a == Restore(e) || Stop(a, Target(e.target), Some(e.after)) }

  /** One action for each edit, the last edit first. */
  predicate Undoes(edits: seq<Edit>, actions: seq<Action>) {
    if edits == [] then actions == []
    else
      && actions != [] && Handles(actions[|actions| - 1], edits[0])
      && Undoes(edits[1..], actions[..|actions| - 1])
  }

  /** The files a rollback did not restore. */
  function Named(actions: seq<Action>): seq<Token> {
    if actions == [] then []
    else
      var a := actions[|actions| - 1];
      Named(actions[..|actions| - 1]) + if a.Spare? || a.Break? then [a.path.name] else []
  }

  /** An edit that was made is taken back, or what stopped that is on record and it is named. */
  lemma {:induction false} TakenBackOrNamed(edits: seq<Edit>, actions: seq<Action>, e: Edit)
    requires Undoes(edits, actions) && e in edits
    ensures || Restore(e) in actions
            || (e.target in Named(actions) && exists a :: a in actions && Stop(a, Target(e.target), Some(e.after)))
  {
    var n := |actions| - 1;
    if e == edits[0] {
      assert actions[n] in actions;
    } else {
      TakenBackOrNamed(edits[1..], actions[..n], e);
    }
  }

  /** Nothing else is named. */
  lemma {:induction false} NamedWasStopped(edits: seq<Edit>, actions: seq<Action>, name: Token)
    returns (e: Edit, a: Action)
    requires Undoes(edits, actions) && name in Named(actions)
    ensures e in edits && e.target == name && a in actions && Stop(a, Target(name), Some(e.after))
  {
    var n := |actions| - 1;
    if name in Named(actions[..n]) {
      e, a := NamedWasStopped(edits[1..], actions[..n], name);
    } else {
      e, a := edits[0], actions[n];
    }
  }

  /** With nobody else writing the targets: edits not yet taken back stand, the others are
      as before or named, and names need failures. */
  ghost predicate BackTo(env: Env, now: World, edits: seq<Edit>, k: nat, conflicts: seq<Token>)
    requires k <= |edits|
  {
    && AllAfter(now, edits[..k])
    && (forall e :: e in edits[k..] && e.target !in conflicts ==> At(now, Target(e.target)) == e.before)
  }

  lemma BackToOne(env: Env, now: World, next: World, edits: seq<Edit>, k: nat, conflicts: seq<Token>, swapped: bool)
    requires 0 < k <= |edits| && AllAlone(env, edits) && Distinct(edits) && BackTo(env, now, edits, k, conflicts)
    requires var e := edits[k - 1]; var p := Target(e.target);
      SameBut(env, now, next, if swapped then Some(p) else None) && (swapped ==> At(next, p) == e.before)
    ensures BackTo(env, next, edits, k - 1, if swapped then conflicts else conflicts + [edits[k - 1].target])
  {
    var e := edits[k - 1];
    var c := if swapped then conflicts else conflicts + [e.target];
    forall x | x in edits[..k - 1] ensures At(next, Target(x.target)) == Some(x.after) {
      assert x in edits[..k] && x in edits && x.target != e.target;
    }
    forall x | x in edits[k - 1..] && x.target !in c ensures At(next, Target(x.target)) == x.before {
      if x != e {
        assert x in edits[k..] && x in edits && x.target != e.target;
      }
    }
  }

  /** Nobody else writes the targets, which are distinct and hold what we wrote. */
  ghost predicate Standing(env: Env, w: World, edits: seq<Edit>) {
    AllAlone(env, edits) && Distinct(edits) && AllAfter(w, edits)
  }

  /** How far a rollback has come while nobody else writes the targets. */
  ghost predicate Restoring(env: Env, w: World, now: World, edits: seq<Edit>, k: nat, conflicts: seq<Token>)
    requires k <= |edits|
  {
    Standing(env, w, edits) ==>
      BackTo(env, now, edits, k, conflicts) && (conflicts != [] ==> FailedBetween(env, w.step, now.step))
  }

  lemma RestoringNext(env: Env, w: World, now: World, edits: seq<Edit>, k: nat, conflicts: seq<Token>)
    requires 0 < k <= |edits| && Restoring(env, w, now, edits, k, conflicts) && Leads(env, w, now)
    requires var e := edits[k - 1]; var x := Exchanged(env, now, Target(e.target), Some(e.after), e.before);
      Exchange(env, now, Target(e.target), Some(e.after), e.before, x.0, x.1)
    ensures var e := edits[k - 1]; var x := Exchanged(env, now, Target(e.target), Some(e.after), e.before);
      Restoring(env, w, x.1, edits, k - 1, if x.0.Swapped? then conflicts else conflicts + [e.target])
  {
    if Standing(env, w, edits) {
      var e := edits[k - 1];
      var p := Target(e.target);
      assert e in edits[..k] && e in edits;
      ExchangeAlone(env, now, p, Some(e.after), e.before);
      var x := Exchanged(env, now, p, Some(e.after), e.before);
      BackToOne(env, now, x.1, edits, k, conflicts, x.0.Swapped?);
    }
  }

  lemma OutsideNext(env: Env, w: World, now: World, next: World, edits: seq<Edit>, e: Edit, but: Option<Path>)
    requires SameOutside(env, w, now, edits) && e in edits
    requires SameBut(env, now, next, but) && (but == None || but == Some(Target(e.target)))
    ensures SameOutside(env, w, next, edits)
  {
    forall q | Alone(env, q) && !Targeted(edits, q) ensures At(next, q) == At(w, q) {
      assert q != Target(e.target);
    }
  }

  lemma UndoesNext(edits: seq<Edit>, k: nat, actions: seq<Action>, a: Action)
    requires 0 < k <= |edits| && Undoes(edits[k..], actions) && Handles(a, edits[k - 1])
    ensures Undoes(edits[k - 1..], actions + [a])
    ensures Named(actions + [a])
      == if a == Restore(edits[k - 1]) then Named(actions) else Named(actions) + [edits[k - 1].target]
  {
    var rest := edits[k - 1..];
    assert rest[1..] == edits[k..] && rest[0] == edits[k - 1];
    assert (actions + [a])[..|actions|] == actions;
  }

  /** A rollback after it has dealt with all edits from the k-th on. */
  ghost predicate Rolling(env: Env, w: World, now: World, edits: seq<Edit>, k: nat, conflicts: seq<Token>) {
    && k <= |edits| && Leads(env, w, now)
    && Restoring(env, w, now, edits, k, conflicts) && SameOutside(env, w, now, edits)
  }

  /** What it did until then. */
  predicate Undone(edits: seq<Edit>, k: nat, before: seq<Action>, actions: seq<Action>, trace: seq<Action>,
                   conflicts: seq<Token>) {
    k <= |edits| && trace == before + actions && Undoes(edits[k..], actions) && conflicts == Named(actions)
  }

  lemma RollingNext(env: Env, w: World, now: World, edits: seq<Edit>, k: nat, conflicts: seq<Token>)
    requires 0 < k && Rolling(env, w, now, edits, k, conflicts)
    requires var e := edits[k - 1]; var x := Exchanged(env, now, Target(e.target), Some(e.after), e.before);
      Exchange(env, now, Target(e.target), Some(e.after), e.before, x.0, x.1)
    ensures var e := edits[k - 1]; var x := Exchanged(env, now, Target(e.target), Some(e.after), e.before);
      Rolling(env, w, x.1, edits, k - 1, if x.0.Swapped? then conflicts else conflicts + [e.target])
  {
    var e := edits[k - 1];
    var x := Exchanged(env, now, Target(e.target), Some(e.after), e.before);
    RestoringNext(env, w, now, edits, k, conflicts);
    LeadsOn(env, w, now, x.1);
    OutsideNext(env, w, now, x.1, edits, e, if x.0.Swapped? then Some(Target(e.target)) else None);
  }

  /** Take edits back, the last one first, each only if its file still holds what we wrote;
      a file that holds anything else, or cannot be restored, is named, and no other. */
  method RollBack(env: Env, edits: seq<Edit>, w: World) returns (conflicts: seq<Token>, after: World)
    requires Replays(env, w)
    ensures Rolling(env, w, after, edits, 0, conflicts)
    ensures exists actions :: Undone(edits, 0, Trace(w.log), actions, Trace(after.log), conflicts)
  {
    conflicts, after := [], w;
    ghost var actions: seq<Action> := [];
    var k := |edits|;
    RollingStarts(env, w, edits);
    while k > 0
      invariant 0 <= k && Rolling(env, w, after, edits, k, conflicts)
      invariant Undone(edits, k, Trace(w.log), actions, Trace(after.log), conflicts)
      decreases k
    {
      var e := edits[k - 1];
      var r, next := CompareAndWrite(env, after, Target(e.target), Some(e.after), e.before);
      RollingNext(env, w, after, edits, k, conflicts);
      ghost var a := ActionFor(r, Target(e.target), Some(e.after), e.before);
      UndoesNext(edits, k, actions, a);
      UndoneStep(Trace(w.log), actions, a);
      actions := actions + [a];
      if !r.Swapped? {
        conflicts := conflicts + [e.target];
      }
      after := next;
      k := k - 1;
    }
  }

  lemma UndoneStep(before: seq<Action>, actions: seq<Action>, a: Action)
    ensures before + (actions + [a]) == before + actions + [a]
  {
  }

  lemma RollingStarts(env: Env, w: World, edits: seq<Edit>)
    requires Replays(env, w)
    ensures Rolling(env, w, w, edits, |edits|, []) && Undone(edits, |edits|, Trace(w.log), [], Trace(w.log), [])
  {
    assert edits[|edits|..] == [] && edits[..|edits|] == edits && Trace(w.log) + [] == Trace(w.log);
  }

  // ------------------------------------------------------------------- outcomes

  /** Files nobody else writes, other than backups. */
  ghost predicate TargetsAt(env: Env, w: World, after: World, edits: seq<Edit>) {
    forall name :: Alone(env, Target(name)) && !Targeted(edits, Target(name)) ==>
        At(after, Target(name)) == At(w, Target(name))
  }

  /** While nobody else writes the targets: everything is written, or everything is as it was
      but for files named because restoring them failed. */
  ghost predicate AllOrNothing(env: Env, w: World, after: World, changed: seq<Edit>, outcome: Outcome) {
    match outcome
    case Refused => forall e :: e in changed ==> At(after, Target(e.target)) == At(w, Target(e.target))
    case Committed(_) => AllAfter(after, changed)
    case RolledBack(began, conflicts) =>
      && (forall e :: e in changed && e.target !in conflicts ==> At(after, Target(e.target)) == At(w, Target(e.target)))
      && (conflicts != [] ==> FailedBetween(env, began, after.step))
  }

  lemma RolledAll(env: Env, saved: World, written: World, rolled: World, changed: seq<Edit>, n: nat,
                  conflicts: seq<Token>)
    requires n <= |changed| && Calm(env, saved, changed) && Made(env, saved, written, changed[..n])
    requires Rolling(env, written, rolled, changed[..n], 0, conflicts)
    ensures AllOrNothing(env, saved, rolled, changed, RolledBack(written.step, conflicts))
  {
    var done := changed[..n];
    assert forall e :: e in done ==> e in changed;
    assert Standing(env, written, done);
    assert done[0..] == done;
    forall e | e in changed && e.target !in conflicts
        ensures At(rolled, Target(e.target)) == At(saved, Target(e.target)) {
      if Targeted(done, Target(e.target)) {
        var x :| x in done && Target(e.target) == Target(x.target);
        assert At(rolled, Target(x.target)) == x.before;
      }
    }
  }

  lemma OutsideBoth(env: Env, saved: World, written: World, rolled: World, changed: seq<Edit>, n: nat)
    requires n <= |changed| && SameOutside(env, saved, written, changed)
      && SameOutside(env, written, rolled, changed[..n])
    ensures SameOutside(env, saved, rolled, changed)
  {
    forall q | Alone(env, q) && !Targeted(changed, q) ensures At(rolled, q) == At(saved, q) {
      assert !Targeted(changed[..n], q) by {
        assert forall e :: e in changed[..n] ==> e in changed;
      }
    }
  }

  /** What a rollback followed and did: the first edits, what stopped the next, and then one
      action for each edit made, the last one first; named are the files not restored. */
  ghost predicate RolledBackFrom(changed: seq<Edit>, before: seq<Action>, trace: seq<Action>, conflicts: seq<Token>,
                                 n: nat, made: seq<Action>, actions: seq<Action>)
  {
    && n < |changed| && Forwarded(changed, before, n, made)
    && trace == made + actions && Undoes(changed[..n], actions) && conflicts == Named(actions)
  }

  /** What a commit may have done, in order: nothing, when it was busy; backups, until
      something stopped it; all backups and every edit; or a rollback. */
  ghost predicate Accounted(outcome: Outcome, busy: bool, changed: seq<Edit>, trace: seq<Action>) {
    match outcome
    case Refused => if busy then trace == [] else exists n: nat :: StoppedAt(changed, [], n, trace)
    case Committed(count) => count == |changed| && trace == Saves(changed) + Forwards(changed)
    case RolledBack(_, conflicts) =>
      exists n: nat, made, actions :: RolledBackFrom(changed, Saves(changed), trace, conflicts, n, made, actions)
  }

  method WriteOrRollBack(env: Env, changed: seq<Edit>, saved: World) returns (outcome: Outcome, after: World)
    requires Replays(env, saved) && Changing(changed) && Trace(saved.log) == Saves(changed)
    ensures Leads(env, saved, after) && SameOutside(env, saved, after, changed)
    ensures !outcome.Refused? && Accounted(outcome, false, changed, Trace(after.log))
    ensures Calm(env, saved, changed) ==> AllOrNothing(env, saved, after, changed, outcome)
  {
    var count, written := WriteAll(env, changed, saved);
    if count == |changed| {
      assert changed[..count] == changed;
      return Committed(count), written;
    }
    var conflicts;
    conflicts, after := RollBack(env, changed[..count], written);
    ghost var actions :| Undone(changed[..count], 0, Trace(written.log), actions, Trace(after.log), conflicts);
    if Calm(env, saved, changed) {
      RolledAll(env, saved, written, after, changed, count, conflicts);
    }
    OutsideBoth(env, saved, written, after, changed, count);
    LeadsOn(env, saved, written, after);
    assert changed[..count][0..] == changed[..count];
    assert RolledBackFrom(changed, Saves(changed), Trace(after.log), conflicts, count, Trace(written.log), actions);
    outcome := RolledBack(written.step, conflicts);
  }

  lemma StillCalm(env: Env, w: World, saved: World, changed: seq<Edit>)
    requires TargetsSame(env, w, saved) && Calm(env, w, changed)
    ensures Calm(env, saved, changed)
  {
  }

  lemma CarriedBack(env: Env, w: World, saved: World, after: World, changed: seq<Edit>, outcome: Outcome)
    requires TargetsSame(env, w, saved) && AllAlone(env, changed) && AllOrNothing(env, saved, after, changed, outcome)
    ensures AllOrNothing(env, w, after, changed, outcome)
  {
  }

  /** A record that begins now. */
  ghost predicate Opens(w: World) { w.log == [] && w.start == w.files && w.began == w.step }

  lemma OpensReplays(env: Env, w: World)
    requires Opens(w)
    ensures Replays(env, w) && Trace(w.log) == []
  {
  }

  /** Check and back up. */
  method Prepare(env: Env, changed: seq<Edit>, w: World) returns (ok: bool, saved: World)
    requires Opens(w)
    ensures Leads(env, w, saved) && TargetsSame(env, w, saved)
    ensures ok ==> Trace(saved.log) == Saves(changed) && (AllAlone(env, changed) ==> Calm(env, saved, changed))
    ensures !ok ==> Accounted(Refused, false, changed, Trace(saved.log))
  {
    OpensReplays(env, w);
    var checked;
    ok, checked := CheckAll(env, changed, w);
    if !ok {
      return false, checked;
    }
    ok, saved := SaveAll(env, changed, checked);
    LeadsOn(env, w, checked, saved);
    assert changed[..|changed|] == changed && [] + Saves(changed) == Saves(changed);
    if AllAlone(env, changed) {
      StillCalm(env, w, saved, changed);
    }
  }

  /** Commit the edits that change anything, or take back what was written. */
  method Commit(env: Env, edits: seq<Edit>, busy: bool, w: World) returns (outcome: Outcome, after: World)
    requires Opens(w)
    ensures Leads(env, w, after) && Accounted(outcome, busy, ChangedOf(edits), Trace(after.log))
    ensures AllAlone(env, ChangedOf(edits)) ==> AllOrNothing(env, w, after, ChangedOf(edits), outcome)
    ensures TargetsAt(env, w, after, ChangedOf(edits))
  {
    OpensReplays(env, w);
    var changed := ChangedOf(edits);
    if busy {
      return Refused, w;
    }
    var ok, saved := Prepare(env, changed, w);
    if !ok {
      return Refused, saved;
    }
    outcome, after := WriteOrRollBack(env, changed, saved);
    LeadsOn(env, w, saved, after);
    if AllAlone(env, changed) {
      CarriedBack(env, w, saved, after, changed, outcome);
    }
  }

  // ------------------------------------------------------------------ no clobber

  lemma {:induction false} OwnIsTraced(log: seq<Entry>, i: nat)
    requires i < |log| && log[i].Own?
    ensures Write(log[i].path, log[i].now, log[i].expected) in Trace(log)
    decreases |log|
  {
    if i < |log| - 1 {
      OwnIsTraced(log[..|log| - 1], i);
    }
  }

  lemma {:induction false} SavesWriteNothing(edits: seq<Edit>, a: Action)
    requires a in Saves(edits)
    ensures a.Save?
  {
    if a in Saves(edits[..|edits| - 1]) {
      SavesWriteNothing(edits[..|edits| - 1], a);
    }
  }

  lemma {:induction false} ForwardsWrite(edits: seq<Edit>, a: Action) returns (e: Edit)
    requires a in Forwards(edits)
    ensures e in edits && a == Forward(e)
  {
    e := edits[|edits| - 1];
    if a in Forwards(edits[..|edits| - 1]) {
      e := ForwardsWrite(edits[..|edits| - 1], a);
    }
  }

  lemma {:induction false} UndoesWrite(edits: seq<Edit>, actions: seq<Action>, a: Action) returns (e: Edit)
    requires Undoes(edits, actions) && a in actions && a.Write?
    ensures e in edits && a == Restore(e)
  {
    e := edits[0];
    if a in actions[..|actions| - 1] {
      e := UndoesWrite(edits[1..], actions[..|actions| - 1], a);
    }
  }

  lemma ForwardedWrite(changed: seq<Edit>, count: nat, made: seq<Action>, a: Action) returns (e: Edit)
    requires Forwarded(changed, Saves(changed), count, made) && a in made && a.Write?
    ensures e in changed && a == Forward(e)
  {
    assert changed[..|changed|] == changed;
    if a in Saves(changed) {
      SavesWriteNothing(changed, a);
    }
    assert a in Forwards(changed[..count]);
    e := ForwardsWrite(changed[..count], a);
  }

  /** Whatever a commit writes to a target is an edit or its restoration. */
  lemma AccountedWrite(outcome: Outcome, busy: bool, changed: seq<Edit>, trace: seq<Action>, a: Action)
    returns (e: Edit)
    requires Accounted(outcome, busy, changed, trace) && a in trace && a.Write?
    ensures e in changed && (a == Forward(e) || (outcome.RolledBack? && a == Restore(e)))
  {
    match outcome
    case Refused =>
      var n: nat :| StoppedAt(changed, [], n, trace);
      assert a in Saves(changed[..n]);
      SavesWriteNothing(changed[..n], a);
      assert false;
    case Committed(count) =>
      e := ForwardedWrite(changed, count, trace, a);
    case RolledBack(_, conflicts) =>
      var n: nat, made, actions :| RolledBackFrom(changed, Saves(changed), trace, conflicts, n, made, actions);
      if a in made {
        e := ForwardedWrite(changed, n, made, a);
      } else {
        e := UndoesWrite(changed[..n], actions, a);
      }
  }

  /** No clobber. Every replacement a commit makes, forwards or back, is of a file that was
      found, one round of others' changes before, to hold exactly what it was read to hold,
      or exactly what we had written. It overwrites anything else if and only if that one
      round itself changed the file to something else. */
  lemma NoClobber(env: Env, w: World, after: World, outcome: Outcome, busy: bool, changed: seq<Edit>, i: nat)
    returns (e: Edit)
    requires Opens(w) && Leads(env, w, after) && Accounted(outcome, busy, changed, Trace(after.log))
    requires i < |after.log| && after.log[i].Own?
    ensures var x := after.log[i];
      && e in changed && x.path == Target(e.target)
      && ((x.expected == e.before && x.now == Some(e.after)) || (x.expected == Some(e.after) && x.now == e.before))
      && i > 0 && after.log[i - 1].Foreign?
      && Lookup(FilesAfter(w.files, after.log[..i - 1]), x.path) == x.expected
      && Lookup(FilesAfter(w.files, after.log[..i]), x.path) == x.was
      && (x.was == x.expected
          <==> x.path !in after.log[i - 1].changes || after.log[i - 1].changes[x.path] == x.expected)
  {
    var x := after.log[i];
    OwnIsTraced(after.log, i);
    OverwritesAsChecked(env, after, i);
    e := AccountedWrite(outcome, busy, changed, Trace(after.log), Write(x.path, x.now, x.expected));
  }
}
