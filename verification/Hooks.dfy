/** Merging generated hooks into a user's configuration (merge_hooks in libexec/integrate.py).
    Trust in a hook is keyed by its event, group index and handler index, so the hooks of
    others must keep theirs. */
module Hooks {
  import opened Common

  datatype Role = Feedback | QueueHook

  /** A handler is one of memcap's own, with the role its command names, or somebody else's. */
  datatype Handler = Memcap(role: Role, body: Token) | Other(body: Token)

  /** A matcher group; `extra` is any further key. Anything that is not a group of objects is malformed. */
  datatype Group = Group(matcher: Option<Token>, extra: set<Token>, hooks: seq<Handler>) | Malformed

  datatype Groups = Listed(groups: seq<Group>) | NotAList

  datatype HooksField = Absent | Object(events: map<Token, Groups>) | NotAnObject

  datatype Data = Data(hooks: HooksField, others: Token)

  /** Generated groups hold one memcap handler each. */
  predicate IsGenerated(groups: seq<Group>) {
    forall k :: 0 <= k < |groups| ==> groups[k].Group? && |groups[k].hooks| == 1 && groups[k].hooks[0].Memcap?
  }

  predicate Mixed(hooks: seq<Handler>) { exists k :: 0 <= k < |hooks| && hooks[k].Other? }

  // ------------------------------------------------------------------ one group

  /** Progress through a group: the handlers kept so far, the generated groups not yet
      placed, and the generated group that replaces this one. */
  datatype Slot = Slot(remaining: seq<Handler>, pending: seq<Group>, shell: Option<Group>)

  predicate Suits(g: Group, role: Role, group: Group, mixed: bool, remaining: seq<Handler>)
    requires group.Group?
  {
    && g.Group? && g.hooks != [] && g.hooks[0].Memcap? && g.hooks[0].role == role
    && (mixed || remaining == [])
    && (mixed ==> g.matcher == group.matcher && group.extra == {})
  }

  /** The first pending group that suits, if any. */
  function FirstSuiting(pending: seq<Group>, role: Role, group: Group, mixed: bool,
                        remaining: seq<Handler>): (k: Option<nat>)
    requires group.Group?
    ensures k.Some? ==> k.value < |pending| && Suits(pending[k.value], role, group, mixed, remaining)
  {
    if pending == [] then None
    else if Suits(pending[0], role, group, mixed, remaining) then Some(0)
    else
      match FirstSuiting(pending[1..], role, group, mixed, remaining)
      case None => None
      case Some(k) => Some(k + 1)
  }

  function Dropped(groups: seq<Group>, k: nat): seq<Group>
    requires k < |groups|
  {
    groups[..k] + groups[k + 1..]
  }

  /** One handler: others stay, memcap's are replaced or dropped; dropping one that
      another's handler follows is refused. */
  function PlaceOne(group: Group, mixed: bool, s: Slot, h: Handler, later: seq<Handler>): Option<Slot>
    requires group.Group?
  {
    if h.Other? then Some(s.(remaining := s.remaining + [h]))
    else
      match FirstSuiting(s.pending, h.role, group, mixed, s.remaining)
      case Some(k) =>
        Some(Slot(s.remaining + s.pending[k].hooks, Dropped(s.pending, k),
                  if mixed then s.shell else Some(s.pending[k])))
      case None => if Mixed(later) then None else Some(s)
  }

  function Place(group: Group, mixed: bool, s: Slot, hooks: seq<Handler>): Option<Slot>
    requires group.Group?
    decreases |hooks|
  {
    if hooks == [] then Some(s)
    else
      match PlaceOne(group, mixed, s, hooks[0], hooks[1..])
      case None => None
      case Some(next) => Place(group, mixed, next, hooks[1..])
  }

  function PlaceGroup(group: Group, pending: seq<Group>): Option<Slot>
    requires group.Group?
  {
    Place(group, Mixed(group.hooks), Slot([], pending, None), group.hooks)
  }

  /** The group kept in that place, possibly emptied. */
  function Final(group: Group, s: Slot): Group
    requires group.Group?
  {
    match s.shell
    case Some(Group(matcher, extra, _)) => Group(matcher, extra, s.remaining)
    case _ => group.(hooks := s.remaining)
  }

  /** Memcap's handlers among some, each as often as it occurs. */
  function Ours(hooks: seq<Handler>): multiset<Handler> {
    if hooks == [] then multiset{}
    else Ours(hooks[..|hooks| - 1])
         + (if hooks[|hooks| - 1].Memcap? then multiset{hooks[|hooks| - 1]} else multiset{})
  }

  function OursIn(groups: seq<Group>): multiset<Handler> {
    if groups == [] then multiset{}
    else OursIn(groups[..|groups| - 1])
         + (if groups[|groups| - 1].Group? then Ours(groups[|groups| - 1].hooks) else multiset{})
  }

  lemma {:induction false} OursJoin(a: seq<Handler>, b: seq<Handler>)
    ensures Ours(a + b) == Ours(a) + Ours(b)
  {
    if b == [] {
      assert a + b == a;
    } else {
      assert (a + b)[..|a + b| - 1] == a + b[..|b| - 1];
      OursJoin(a, b[..|b| - 1]);
    }
  }

  lemma {:induction false} OursInJoin(a: seq<Group>, b: seq<Group>)
    ensures OursIn(a + b) == OursIn(a) + OursIn(b)
  {
    if b == [] {
      assert a + b == a;
    } else {
      assert (a + b)[..|a + b| - 1] == a + b[..|b| - 1];
      OursInJoin(a, b[..|b| - 1]);
    }
  }

  lemma OursInOne(g: Group)
    requires g.Group?
    ensures OursIn([g]) == Ours(g.hooks)
  {
    assert [g][..0] == [];
  }

  lemma OursInDropped(groups: seq<Group>, k: nat)
    requires k < |groups| && groups[k].Group?
    ensures OursIn(groups) == OursIn(Dropped(groups, k)) + Ours(groups[k].hooks)
  {
    assert groups == groups[..k] + ([groups[k]] + groups[k + 1..]);
    OursInJoin(groups[..k], [groups[k]] + groups[k + 1..]);
    OursInJoin([groups[k]], groups[k + 1..]);
    OursInJoin(groups[..k], groups[k + 1..]);
    OursInOne(groups[k]);
  }

  lemma OursOfOne(h: Handler)
    ensures Ours([h]) == if h.Memcap? then multiset{h} else multiset{}
  {
    assert [h][..0] == [];
  }

  // ------------------------------------------------------- what placing preserves

  /** What one step adds to the handlers kept. */
  function Placed(group: Group, mixed: bool, s: Slot, h: Handler): seq<Handler>
    requires group.Group?
  {
    if h.Other? then [h]
    else
      match FirstSuiting(s.pending, h.role, group, mixed, s.remaining)
      case Some(k) => s.pending[k].hooks
      case None => []
  }

  lemma PlaceOneAdds(group: Group, mixed: bool, s: Slot, h: Handler, later: seq<Handler>)
    requires group.Group? && IsGenerated(s.pending) && PlaceOne(group, mixed, s, h, later).Some?
    ensures PlaceOne(group, mixed, s, h, later).value.remaining == s.remaining + Placed(group, mixed, s, h)
    ensures var x := Placed(group, mixed, s, h);
      |x| <= 1 && (h.Other? ==> x == [h]) && (h.Memcap? && x != [] ==> x[0].Memcap?) && (Mixed(later) ==> x != [])
      && (x == [] ==> PlaceOne(group, mixed, s, h, later) == Some(s))
  {
  }

  lemma DroppedIsGenerated(groups: seq<Group>, k: nat)
    requires IsGenerated(groups) && k < |groups|
    ensures IsGenerated(Dropped(groups, k))
  {
  }

  /** One step keeps every memcap handler, placed or pending. */
  lemma PlaceOneConserves(group: Group, mixed: bool, s: Slot, h: Handler, later: seq<Handler>)
    requires group.Group? && IsGenerated(s.pending) && PlaceOne(group, mixed, s, h, later).Some?
    ensures var t := PlaceOne(group, mixed, s, h, later).value;
      IsGenerated(t.pending) && Ours(t.remaining) + OursIn(t.pending) == Ours(s.remaining) + OursIn(s.pending)
  {
    OursJoin(s.remaining, Placed(group, mixed, s, h));
    if h.Other? {
      OursOfOne(h);
    } else {
      var k := FirstSuiting(s.pending, h.role, group, mixed, s.remaining);
      if k.Some? {
        DroppedIsGenerated(s.pending, k.value);
        OursInDropped(s.pending, k.value);
      }
    }
  }

  /** Another's handler stands at the same index, and nothing else is another's. */
  predicate SameOthers(before: seq<Handler>, after: seq<Handler>) {
    && |after| <= |before|
    && (forall k :: 0 <= k < |before| && before[k].Other? ==> k < |after| && after[k] == before[k])
    && (forall k :: 0 <= k < |after| && after[k].Other? ==> before[k] == after[k])
  }

  lemma SameOthersStep(before: seq<Handler>, after: seq<Handler>, h: Handler, x: seq<Handler>)
    requires SameOthers(before, after) && (h.Other? ==> |after| == |before| && x == [h])
    requires |x| <= 1 && (h.Memcap? && x != [] ==> x[0].Memcap?)
    ensures SameOthers(before + [h], after + x)
  {
  }

  lemma MixedFront(hooks: seq<Handler>)
    requires hooks != []
    ensures Mixed(hooks) <==> hooks[0].Other? || Mixed(hooks[1..])
  {
    if Mixed(hooks) && !hooks[0].Other? {
      var k :| 0 <= k < |hooks| && hooks[k].Other?;
      assert hooks[1..][k - 1].Other?;
    }
  }

  lemma KeepsOthersOne(group: Group, mixed: bool, done: seq<Handler>, s: Slot, h: Handler, later: seq<Handler>)
    requires group.Group? && IsGenerated(s.pending) && PlaceOne(group, mixed, s, h, later).Some?
    requires SameOthers(done, s.remaining) && (h.Other? || Mixed(later) ==> |s.remaining| == |done|)
    ensures var t := PlaceOne(group, mixed, s, h, later).value;
      IsGenerated(t.pending) && SameOthers(done + [h], t.remaining) && (Mixed(later) ==> |t.remaining| == |done| + 1)
  {
    PlaceOneAdds(group, mixed, s, h, later);
    PlaceOneConserves(group, mixed, s, h, later);
    SameOthersStep(done, s.remaining, h, Placed(group, mixed, s, h));
  }

  lemma Shift(done: seq<Handler>, hooks: seq<Handler>)
    requires hooks != []
    ensures done + [hooks[0]] + hooks[1..] == done + hooks
  {
  }

  /** Placing a whole group keeps every other handler at its index. */
  lemma {:induction false} PlaceKeepsOthers(group: Group, mixed: bool, done: seq<Handler>, s: Slot, hooks: seq<Handler>)
    requires group.Group? && IsGenerated(s.pending) && Place(group, mixed, s, hooks).Some?
    requires SameOthers(done, s.remaining) && (Mixed(hooks) ==> |s.remaining| == |done|)
    ensures SameOthers(done + hooks, Place(group, mixed, s, hooks).value.remaining)
    decreases |hooks|
  {
    if hooks == [] {
      assert done + hooks == done;
    } else {
      MixedFront(hooks);
      KeepsOthersOne(group, mixed, done, s, hooks[0], hooks[1..]);
      PlaceKeepsOthers(group, mixed, done + [hooks[0]],
                       PlaceOne(group, mixed, s, hooks[0], hooks[1..]).value, hooks[1..]);
      Shift(done, hooks);
    }
  }

  lemma {:induction false} PlaceConserves(group: Group, mixed: bool, s: Slot, hooks: seq<Handler>)
    requires group.Group? && IsGenerated(s.pending) && Place(group, mixed, s, hooks).Some?
    ensures var t := Place(group, mixed, s, hooks).value;
      IsGenerated(t.pending) && Ours(t.remaining) + OursIn(t.pending) == Ours(s.remaining) + OursIn(s.pending)
    decreases |hooks|
  {
    if hooks != [] {
      PlaceOneConserves(group, mixed, s, hooks[0], hooks[1..]);
      PlaceConserves(group, mixed, PlaceOne(group, mixed, s, hooks[0], hooks[1..]).value, hooks[1..]);
    }
  }

  // ---------------------------------------------------------------- idempotence

  /** Groups that placing cannot tell apart: what decides a match in a mixed group agrees. */
  predicate Alike(a: Group, b: Group, mixed: bool) {
    a.Group? && b.Group? && (mixed ==> a.matcher == b.matcher && a.extra == b.extra)
  }

  lemma {:induction false} AlikeSuiting(pending: seq<Group>, role: Role, a: Group, b: Group, mixed: bool,
                                        remaining: seq<Handler>)
    requires Alike(a, b, mixed)
    ensures FirstSuiting(pending, role, a, mixed, remaining) == FirstSuiting(pending, role, b, mixed, remaining)
  {
    if pending != [] {
      AlikeSuiting(pending[1..], role, a, b, mixed, remaining);
    }
  }

  /** A step that kept something is taken again when what it kept is placed. */
  lemma StepRepeats(a: Group, b: Group, mixed: bool, s: Slot, h: Handler, later: seq<Handler>, kept: seq<Handler>)
    requires Alike(a, b, mixed) && IsGenerated(s.pending) && PlaceOne(a, mixed, s, h, later).Some?
    requires Placed(a, mixed, s, h) != []
    ensures PlaceOne(b, mixed, s, Placed(a, mixed, s, h)[0], kept) == PlaceOne(a, mixed, s, h, later)
  {
    if h.Memcap? {
      AlikeSuiting(s.pending, h.role, a, b, mixed, s.remaining);
    }
  }

  lemma PlaceFront(b: Group, mixed: bool, s: Slot, h: Handler, rest: seq<Handler>)
    requires b.Group? && PlaceOne(b, mixed, s, h, rest).Some?
    ensures Place(b, mixed, s, [h] + rest) == Place(b, mixed, PlaceOne(b, mixed, s, h, rest).value, rest)
  {
    assert ([h] + rest)[1..] == rest;
  }

  /** One step and the repetition of the rest. */
  lemma RepeatStep(a: Group, b: Group, mixed: bool, s: Slot, h: Handler, later: seq<Handler>, rest: seq<Handler>)
    requires Alike(a, b, mixed) && IsGenerated(s.pending) && PlaceOne(a, mixed, s, h, later).Some?
    ensures Place(b, mixed, s, Placed(a, mixed, s, h) + rest)
      == Place(b, mixed, PlaceOne(a, mixed, s, h, later).value, rest)
  {
    PlaceOneAdds(a, mixed, s, h, later);
    var x := Placed(a, mixed, s, h);
    if x != [] {
      assert x == [x[0]];
      StepRepeats(a, b, mixed, s, h, later, rest);
      PlaceFront(b, mixed, s, x[0], rest);
    } else {
      assert x + rest == rest;
    }
  }

  lemma Regrouped(a: seq<Handler>, b: seq<Handler>, c: seq<Handler>)
    ensures a + b + c == a + (b + c)
  {
  }

  /** Placing what an earlier run kept keeps the same again and consumes the same groups. */
  lemma {:induction false} PlaceRepeats(a: Group, b: Group, mixed: bool, s: Slot, hooks: seq<Handler>)
    returns (kept: seq<Handler>)
    requires Alike(a, b, mixed) && IsGenerated(s.pending) && Place(a, mixed, s, hooks).Some?
    ensures Place(a, mixed, s, hooks).value.remaining == s.remaining + kept
    ensures Place(b, mixed, s, kept) == Place(a, mixed, s, hooks)
    decreases |hooks|
  {
    if hooks == [] {
      kept := [];
    } else {
      var h, later := hooks[0], hooks[1..];
      PlaceOneAdds(a, mixed, s, h, later);
      PlaceOneConserves(a, mixed, s, h, later);
      var x := Placed(a, mixed, s, h);
      var rest := PlaceRepeats(a, b, mixed, PlaceOne(a, mixed, s, h, later).value, later);
      kept := x + rest;
      RepeatStep(a, b, mixed, s, h, later, rest);
      Regrouped(s.remaining, x, rest);
    }
  }

  // ---------------------------------------------------------------- whole groups

  /** Without others in the group, at most one generated group takes its place, whole. */
  predicate ShellHolds(mixed: bool, s: Slot) {
    if mixed then s.shell == None
    else if s.shell.None? then s.remaining == []
    else s.shell.value.Group? && s.remaining == s.shell.value.hooks && |s.remaining| == 1
  }

  lemma {:induction false} PlaceKeepsShell(group: Group, mixed: bool, s: Slot, hooks: seq<Handler>)
    requires group.Group? && IsGenerated(s.pending) && Place(group, mixed, s, hooks).Some?
    requires ShellHolds(mixed, s) && (Mixed(hooks) ==> mixed)
    ensures ShellHolds(mixed, Place(group, mixed, s, hooks).value)
    decreases |hooks|
  {
    if hooks != [] {
      MixedFront(hooks);
      PlaceOneConserves(group, mixed, s, hooks[0], hooks[1..]);
      PlaceKeepsShell(group, mixed, PlaceOne(group, mixed, s, hooks[0], hooks[1..]).value, hooks[1..]);
    }
  }

  lemma SameOthersMixed(before: seq<Handler>, after: seq<Handler>)
    requires SameOthers(before, after)
    ensures Mixed(before) <==> Mixed(after)
  {
    if Mixed(before) {
      var k :| 0 <= k < |before| && before[k].Other?;
      assert after[k].Other?;
    }
    if Mixed(after) {
      var k :| 0 <= k < |after| && after[k].Other?;
      assert before[k].Other?;
    }
  }

  lemma FinalHooks(group: Group, s: Slot)
    requires group.Group?
    ensures Final(group, s).Group? && Final(group, s).hooks == s.remaining
  {
  }

  lemma GroupKeepsOthers(group: Group, pending: seq<Group>)
    requires group.Group? && IsGenerated(pending) && PlaceGroup(group, pending).Some?
    ensures var s := PlaceGroup(group, pending).value;
      && IsGenerated(s.pending) && SameOthers(group.hooks, s.remaining)
      && Ours(s.remaining) + OursIn(s.pending) == OursIn(pending)
  {
    var start := Slot([], pending, None);
    PlaceKeepsOthers(group, Mixed(group.hooks), [], start, group.hooks);
    PlaceConserves(group, Mixed(group.hooks), start, group.hooks);
    assert [] + group.hooks == group.hooks;
  }

  /** Merging into the group an earlier merge left changes nothing. */
  lemma GroupRepeats(group: Group, pending: seq<Group>)
    requires group.Group? && IsGenerated(pending) && PlaceGroup(group, pending).Some?
    ensures var s := PlaceGroup(group, pending).value;
      PlaceGroup(Final(group, s), pending) == Some(s) && Final(Final(group, s), s) == Final(group, s)
  {
    var mixed := Mixed(group.hooks);
    var start := Slot([], pending, None);
    var s := PlaceGroup(group, pending).value;
    GroupKeepsOthers(group, pending);
    SameOthersMixed(group.hooks, s.remaining);
    PlaceKeepsShell(group, mixed, start, group.hooks);
    var kept := PlaceRepeats(group, Final(group, s), mixed, start, group.hooks);
    assert [] + kept == kept;
  }

  // ------------------------------------------------------------------ one event

  datatype Merged = Merged(kept: seq<Group>, pending: seq<Group>)

  function MergeGroups(groups: seq<Group>, pending: seq<Group>): Option<Merged> {
    if groups == [] then Some(Merged([], pending))
    else if groups[0].Malformed? then None
    else
      match PlaceGroup(groups[0], pending)
      case None => None
      case Some(s) =>
        match MergeGroups(groups[1..], s.pending)
        case None => None
        case Some(m) => Some(Merged([Final(groups[0], s)] + m.kept, m.pending))
  }

  /** What an event's groups become. */
  function MergeEvent(groups: seq<Group>, generated: seq<Group>): Option<seq<Group>> {
    match MergeGroups(groups, generated)
    case None => None
    case Some(m) => Some(m.kept + m.pending)
  }

  /** Slot by slot the same handlers of others. */
  predicate SameSlots(before: seq<Group>, after: seq<Group>) {
    |before| == |after| && forall k :: 0 <= k < |before| ==>
      before[k].Group? && after[k].Group? && SameOthers(before[k].hooks, after[k].hooks)
  }

  lemma SameSlotsFront(g: Group, f: Group, before: seq<Group>, after: seq<Group>)
    requires g.Group? && f.Group? && SameOthers(g.hooks, f.hooks) && SameSlots(before, after)
    ensures SameSlots([g] + before, [f] + after)
  {
  }

  lemma {:induction false} GroupsKeepOthers(groups: seq<Group>, pending: seq<Group>)
    requires IsGenerated(pending) && MergeGroups(groups, pending).Some?
    ensures var m := MergeGroups(groups, pending).value;
      IsGenerated(m.pending) && SameSlots(groups, m.kept) && OursIn(m.kept) + OursIn(m.pending) == OursIn(pending)
  {
    if groups != [] {
      var s := PlaceGroup(groups[0], pending).value;
      var f := Final(groups[0], s);
      GroupKeepsOthers(groups[0], pending);
      FinalHooks(groups[0], s);
      GroupsKeepOthers(groups[1..], s.pending);
      var m := MergeGroups(groups[1..], s.pending).value;
      SameSlotsFront(groups[0], f, groups[1..], m.kept);
      assert [groups[0]] + groups[1..] == groups;
      OursInJoin([f], m.kept);
      OursInOne(f);
    }
  }

  lemma MergeFront(g: Group, rest: seq<Group>, pending: seq<Group>)
    requires g.Group? && PlaceGroup(g, pending).Some?
    ensures var s := PlaceGroup(g, pending).value;
      MergeGroups([g] + rest, pending)
        == match MergeGroups(rest, s.pending)
           case None => None
           case Some(m) => Some(Merged([Final(g, s)] + m.kept, m.pending))
  {
    assert ([g] + rest)[1..] == rest;
  }

  lemma {:induction false} GroupsRepeat(groups: seq<Group>, pending: seq<Group>)
    requires IsGenerated(pending) && MergeGroups(groups, pending).Some?
    ensures MergeGroups(MergeGroups(groups, pending).value.kept, pending) == MergeGroups(groups, pending)
  {
    if groups != [] {
      var s := PlaceGroup(groups[0], pending).value;
      GroupKeepsOthers(groups[0], pending);
      GroupRepeats(groups[0], pending);
      GroupsRepeat(groups[1..], s.pending);
      FinalHooks(groups[0], s);
      MergeFront(Final(groups[0], s), MergeGroups(groups[1..], s.pending).value.kept, pending);
    }
  }

  lemma {:induction false} MergeJoin(a: seq<Group>, b: seq<Group>, pending: seq<Group>)
    requires MergeGroups(a, pending).Some?
    ensures var m := MergeGroups(a, pending).value;
      MergeGroups(a + b, pending)
        == match MergeGroups(b, m.pending)
           case None => None
           case Some(n) => Some(Merged(m.kept + n.kept, n.pending))
  {
    if a == [] {
      assert a + b == b;
      if MergeGroups(b, pending).Some? {
        assert [] + MergeGroups(b, pending).value.kept == MergeGroups(b, pending).value.kept;
      }
    } else {
      var s := PlaceGroup(a[0], pending).value;
      MergeJoin(a[1..], b, s.pending);
      assert a + b == [a[0]] + (a[1..] + b);
      MergeFront(a[0], a[1..] + b, pending);
      var m := MergeGroups(a[1..], s.pending).value;
      if MergeGroups(b, m.pending).Some? {
        KeptJoin(Final(a[0], s), m.kept, MergeGroups(b, m.pending).value.kept);
      }
    }
  }

  lemma KeptJoin(f: Group, a: seq<Group>, b: seq<Group>)
    ensures [f] + (a + b) == [f] + a + b
  {
  }

  lemma TakesItsOwnPlace(pending: seq<Group>)
    requires IsGenerated(pending) && pending != []
    ensures var g := pending[0];
      g.Group? && PlaceGroup(g, pending) == Some(Slot(g.hooks, pending[1..], Some(g)))
          && Final(g, PlaceGroup(g, pending).value) == g
  {
    var g := pending[0];
    var start, next := Slot([], pending, None), Slot(g.hooks, pending[1..], Some(g));
    assert !Mixed(g.hooks);
    assert g.hooks == [g.hooks[0]] + [];
    assert Dropped(pending, 0) == pending[1..];
    assert [] + g.hooks == g.hooks;
    assert FirstSuiting(pending, g.hooks[0].role, g, false, []) == Some(0);
    assert PlaceOne(g, false, start, g.hooks[0], []) == Some(next);
    PlaceFront(g, false, start, g.hooks[0], []);
    assert Place(g, false, next, []) == Some(next);
  }

  /** Groups that were appended take their own place the next time. */
  lemma {:induction false} AppendedRepeat(pending: seq<Group>)
    requires IsGenerated(pending)
    ensures MergeGroups(pending, pending) == Some(Merged(pending, []))
  {
    if pending != [] {
      TakesItsOwnPlace(pending);
      AppendedRepeat(pending[1..]);
      assert [pending[0]] + pending[1..] == pending;
    }
  }

  /** Merging twice is merging once. */
  lemma EventRepeats(groups: seq<Group>, generated: seq<Group>)
    requires IsGenerated(generated) && MergeEvent(groups, generated).Some?
    ensures MergeEvent(MergeEvent(groups, generated).value, generated) == MergeEvent(groups, generated)
  {
    GroupsKeepOthers(groups, generated);
    GroupsRepeat(groups, generated);
    var m := MergeGroups(groups, generated).value;
    AppendedRepeat(m.pending);
    MergeJoin(m.kept, m.pending, generated);
    assert m.kept + m.pending + [] == m.kept + m.pending;
  }

  predicate OtherAt(groups: seq<Group>, i: nat, j: nat, h: Handler) {
    i < |groups| && groups[i].Group? && j < |groups[i].hooks| && groups[i].hooks[j] == h && h.Other?
  }

  lemma OthersStay(groups: seq<Group>, kept: seq<Group>, pending: seq<Group>, i: nat, j: nat, h: Handler)
    requires SameSlots(groups, kept) && IsGenerated(pending)
    ensures OtherAt(groups, i, j, h) <==> OtherAt(kept + pending, i, j, h)
  {
    if i < |kept| {
      assert (kept + pending)[i] == kept[i] && SameOthers(groups[i].hooks, kept[i].hooks);
    } else if i < |kept + pending| {
      assert (kept + pending)[i] == pending[i - |kept|];
    }
  }

  /** Every handler of others keeps its group index and handler index, none appears, and
      memcap's handlers are exactly the generated ones, each as often as generated. */
  lemma EventKeepsOthers(groups: seq<Group>, generated: seq<Group>)
    requires IsGenerated(generated) && MergeEvent(groups, generated).Some?
    ensures var after := MergeEvent(groups, generated).value;
      && (forall i: nat, j: nat, h :: OtherAt(groups, i, j, h) <==> OtherAt(after, i, j, h))
      && OursIn(after) == OursIn(generated)
  {
    GroupsKeepOthers(groups, generated);
    var m := MergeGroups(groups, generated).value;
    OursInJoin(m.kept, m.pending);
    forall i: nat, j: nat, h ensures OtherAt(groups, i, j, h) <==> OtherAt(m.kept + m.pending, i, j, h) {
      OthersStay(groups, m.kept, m.pending, i, j, h);
    }
  }

  /** No memcap handler comes before one of others. */
  predicate OursLast(hooks: seq<Handler>) {
    forall j, k :: 0 <= j < k < |hooks| && hooks[k].Other? ==> hooks[j].Other?
  }

  lemma {:induction false} OursLastIsPlaced(group: Group, mixed: bool, s: Slot, hooks: seq<Handler>)
    requires group.Group? && OursLast(hooks)
    ensures Place(group, mixed, s, hooks).Some?
    decreases |hooks|
  {
    if hooks != [] {
      assert hooks[0].Memcap? ==> !Mixed(hooks[1..]);
      OursLastIsPlaced(group, mixed, PlaceOne(group, mixed, s, hooks[0], hooks[1..]).value, hooks[1..]);
    }
  }

  /** A refusal needs a malformed group, or a memcap handler in front of one of others. */
  lemma {:induction false} EventAccepts(groups: seq<Group>, pending: seq<Group>)
    requires forall k :: 0 <= k < |groups| ==> groups[k].Group? && OursLast(groups[k].hooks)
    ensures MergeGroups(groups, pending).Some?
  {
    if groups != [] {
      OursLastIsPlaced(groups[0], Mixed(groups[0].hooks), Slot([], pending, None), groups[0].hooks);
      EventAccepts(groups[1..], PlaceGroup(groups[0], pending).value.pending);
    }
  }

  // -------------------------------------------------------------------- methods

  method FindSuiting(pending: seq<Group>, role: Role, group: Group, mixed: bool, remaining: seq<Handler>)
    returns (k: Option<nat>)
    requires group.Group?
    ensures k == FirstSuiting(pending, role, group, mixed, remaining)
  {
    var i := 0;
    while i < |pending| && !Suits(pending[i], role, group, mixed, remaining)
      invariant i <= |pending|
      invariant FirstSuiting(pending, role, group, mixed, remaining)
             == match FirstSuiting(pending[i..], role, group, mixed, remaining)
                case None => None
                case Some(n) => Some(i + n)
    {
      assert pending[i..][1..] == pending[i + 1..];
      i := i + 1;
    }
    k := if i < |pending| then Some(i) else None;
  }

  /** Replace, drop or keep each handler of a group; nothing is returned when that would move one of others. */
  method MergeGroup(group: Group, pending: seq<Group>) returns (r: Option<Slot>)
    requires group.Group?
    ensures r == PlaceGroup(group, pending)
  {
    var mixed := Mixed(group.hooks);
    var remaining, left, shell := [], pending, None;
    var index := 0;
    while index < |group.hooks|
      invariant index <= |group.hooks|
      invariant Place(group, mixed, Slot(remaining, left, shell), group.hooks[index..]) == PlaceGroup(group, pending)
    {
      var handler := group.hooks[index];
      ghost var s := Slot(remaining, left, shell);
      assert group.hooks[index..] == [handler] + group.hooks[index + 1..];
      if PlaceOne(group, mixed, s, handler, group.hooks[index + 1..]).Some? {
        PlaceFront(group, mixed, s, handler, group.hooks[index + 1..]);
      }
      if handler.Other? {
        remaining := remaining + [handler];
      } else {
        var found := FindSuiting(left, handler.role, group, mixed, remaining);
        if found.Some? {
          remaining := remaining + left[found.value].hooks;
          if !mixed {
            shell := Some(left[found.value]);
          }
          left := Dropped(left, found.value);
        } else if Mixed(group.hooks[index + 1..]) {
          return None;
        }
      }
      index := index + 1;
    }
    r := Some(Slot(remaining, left, shell));
  }

  /** Merge one event's groups; what found no place is appended. */
  method MergeEventGroups(groups: seq<Group>, generated: seq<Group>) returns (r: Option<seq<Group>>)
    ensures r == MergeEvent(groups, generated)
  {
    var retained, pending := [], generated;
    var k := 0;
    assert groups[k..] == groups;
    ContinuedFromStart(MergeGroups(groups, generated));
    while k < |groups|
      invariant k <= |groups|
      invariant MergeGroups(groups, generated) == Continued(retained, MergeGroups(groups[k..], pending))
    {
      assert groups[k..][0] == groups[k] && groups[k..][1..] == groups[k + 1..];
      if groups[k].Malformed? {
        return None;
      }
      var s := MergeGroup(groups[k], pending);
      if s.None? {
        return None;
      }
      ContinuedStep(retained, Final(groups[k], s.value), MergeGroups(groups[k + 1..], s.value.pending));
      retained := retained + [Final(groups[k], s.value)];
      pending := s.value.pending;
      k := k + 1;
    }
    assert retained + [] == retained;
    r := Some(retained + pending);
  }

  function Continued(retained: seq<Group>, rest: Option<Merged>): Option<Merged> {
    match rest
    case None => None
    case Some(m) => Some(Merged(retained + m.kept, m.pending))
  }

  lemma ContinuedFromStart(rest: Option<Merged>)
    ensures Continued([], rest) == rest
  {
    if rest.Some? {
      assert [] + rest.value.kept == rest.value.kept;
    }
  }

  lemma ContinuedStep(retained: seq<Group>, f: Group, rest: Option<Merged>)
    ensures Continued(retained, Continued([f], rest)) == Continued(retained + [f], rest)
  {
    if rest.Some? {
      assert retained + ([f] + rest.value.kept) == retained + [f] + rest.value.kept;
    }
  }

  // -------------------------------------------------------------- configuration

  type Generated = map<Token, seq<Group>>

  predicate AllGenerated(g: Generated) { forall e :: e in g ==> IsGenerated(g[e]) }

  function EventsOf(d: Data): map<Token, Groups> {
    if d.hooks.Object? then d.hooks.events else map[]
  }

  function GroupsAt(d: Data, e: Token): seq<Group> {
    if e in EventsOf(d) && EventsOf(d)[e].Listed? then EventsOf(d)[e].groups else []
  }

  function GeneratedAt(g: Generated, e: Token): seq<Group> { Lookup(g, e).GetOr([]) }

  /** The groups of an event after a merge; nothing when they are not a list or a merge refuses. */
  function After(d: Data, g: Generated, e: Token): Option<seq<Group>> {
    if e in EventsOf(d) && EventsOf(d)[e].NotAList? then None else MergeEvent(GroupsAt(d, e), GeneratedAt(g, e))
  }

  predicate Accepts(d: Data, g: Generated) {
    !d.hooks.NotAnObject? && forall e :: e in EventsOf(d).Keys + g.Keys ==> After(d, g, e).Some?
  }

  /** Merge every event, in any order. */
  method MergeHooks(d: Data, g: Generated) returns (r: Option<Data>)
    ensures r.Some? <==> Accepts(d, g)
    ensures r.Some? ==> IsMerge(d, g, r.value)
  {
    if d.hooks.NotAnObject? {
      return None;
    }
    var events := EventsOf(d);
    var merged: map<Token, Groups> := map[];
    var rest := events.Keys + g.Keys;
    while rest != {}
      invariant rest <= events.Keys + g.Keys
      invariant merged.Keys == events.Keys + g.Keys - rest
      invariant forall e :: e in merged ==> merged[e].Listed? && After(d, g, e) == Some(merged[e].groups)
      decreases |rest|
    {
      var e := Take(rest);
      if e in events && events[e].NotAList? {
        return None;
      }
      var groups := MergeEventGroups(GroupsAt(d, e), GeneratedAt(g, e));
      if groups.None? {
        return None;
      }
      merged := merged[e := Listed(groups.value)];
      rest := rest - {e};
    }
    r := Some(Data(Object(merged), d.others));
  }

  predicate IsMerge(d: Data, g: Generated, after: Data) {
    && after.others == d.others && after.hooks.Object? && EventsOf(after).Keys == EventsOf(d).Keys + g.Keys
    && forall e :: e in EventsOf(after) ==> EventsOf(after)[e].Listed? && After(d, g, e) == Some(GroupsAt(after, e))
  }

  /** Everybody else's handlers keep their event, group index and handler index, and every
      event holds exactly the generated memcap handlers, each as often as generated. */
  lemma MergeKeepsOthers(d: Data, g: Generated, after: Data, e: Token)
    requires IsMerge(d, g, after) && AllGenerated(g) && Accepts(d, g)
    ensures forall i: nat, j: nat, h :: OtherAt(GroupsAt(d, e), i, j, h) <==> OtherAt(GroupsAt(after, e), i, j, h)
    ensures OursIn(GroupsAt(after, e)) == OursIn(GeneratedAt(g, e))
  {
    if e in EventsOf(after) {
      assert IsGenerated(GeneratedAt(g, e));
      EventKeepsOthers(GroupsAt(d, e), GeneratedAt(g, e));
    }
  }

  /** Merging what was merged is accepted and changes nothing. */
  lemma MergeIsIdempotent(d: Data, g: Generated, after: Data, again: Data)
    requires IsMerge(d, g, after) && AllGenerated(g) && Accepts(d, g)
    ensures Accepts(after, g)
    ensures IsMerge(after, g, again) ==> again == after
  {
    forall e | e in EventsOf(after) ensures After(after, g, e) == Some(GroupsAt(after, e)) {
      assert IsGenerated(GeneratedAt(g, e));
      EventRepeats(GroupsAt(d, e), GeneratedAt(g, e));
    }
    if IsMerge(after, g, again) {
      forall e | e in EventsOf(after) ensures EventsOf(again)[e] == EventsOf(after)[e] {
        assert e in EventsOf(again);
      }
      assert EventsOf(again) == EventsOf(after);
    }
  }
}
