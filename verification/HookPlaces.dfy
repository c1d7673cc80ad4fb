/** Where generated hooks end up: under the matcher they were generated for, and in the place of
    a hook of the same role (merge_hooks in libexec/integrate.py). */
module HookPlaces {
  import opened Common
  import opened Hooks

  // ------------------------------------------------------------------- matchers

  /** The handler was generated for this matcher. */
  predicate Generated(h: Handler, matcher: Option<Token>, all: seq<Group>) {
    exists k :: 0 <= k < |all| && all[k].Group? && all[k].hooks == [h] && all[k].matcher == matcher
  }

  /** The group is a generated one, or has no further keys and holds memcap's handlers under
      the matcher they were generated for. */
  predicate Homes(group: Group, all: seq<Group>) {
    || group in all
    || (group.Group? && forall j :: 0 <= j < |group.hooks| && group.hooks[j].Memcap? ==>
          group.extra == {} && Generated(group.hooks[j], group.matcher, all))
  }

  predicate Within(groups: seq<Group>, all: seq<Group>) { forall k :: 0 <= k < |groups| ==> groups[k] in all }

  predicate PlacedWell(group: Group, mixed: bool, s: Slot, all: seq<Group>)
    requires group.Group?
  {
    && Within(s.pending, all)
    && (mixed ==> forall j :: 0 <= j < |s.remaining| && s.remaining[j].Memcap? ==>
          group.extra == {} && Generated(s.remaining[j], group.matcher, all))
    && (s.shell.Some? ==> s.shell.value in all)
  }

  lemma DroppedWithin(groups: seq<Group>, k: nat, all: seq<Group>)
    requires Within(groups, all) && k < |groups|
    ensures Within(Dropped(groups, k), all)
  {
  }

  lemma OnePlacedWell(group: Group, mixed: bool, s: Slot, h: Handler, later: seq<Handler>, all: seq<Group>)
    requires group.Group? && IsGenerated(s.pending) && PlacedWell(group, mixed, s, all)
    requires PlaceOne(group, mixed, s, h, later).Some?
    ensures PlacedWell(group, mixed, PlaceOne(group, mixed, s, h, later).value, all)
  {
    if h.Memcap? {
      var k := FirstSuiting(s.pending, h.role, group, mixed, s.remaining);
      if k.Some? {
        DroppedWithin(s.pending, k.value, all);
        var g := s.pending[k.value];
        assert g.hooks == [g.hooks[0]] && g in all;
        if mixed {
          var i :| 0 <= i < |all| && all[i] == g;
          assert Generated(g.hooks[0], group.matcher, all);
        }
      }
    }
  }

  lemma {:induction false} AllPlacedWell(group: Group, mixed: bool, s: Slot, hooks: seq<Handler>, all: seq<Group>)
    requires group.Group? && IsGenerated(s.pending) && PlacedWell(group, mixed, s, all)
    requires Place(group, mixed, s, hooks).Some?
    ensures PlacedWell(group, mixed, Place(group, mixed, s, hooks).value, all)
    decreases |hooks|
  {
    if hooks != [] {
      OnePlacedWell(group, mixed, s, hooks[0], hooks[1..], all);
      PlaceOneConserves(group, mixed, s, hooks[0], hooks[1..]);
      AllPlacedWell(group, mixed, PlaceOne(group, mixed, s, hooks[0], hooks[1..]).value, hooks[1..], all);
    }
  }

  lemma GroupHomes(group: Group, pending: seq<Group>, all: seq<Group>)
    requires group.Group? && IsGenerated(pending) && Within(pending, all) && PlaceGroup(group, pending).Some?
    ensures var s := PlaceGroup(group, pending).value; Within(s.pending, all) && Homes(Final(group, s), all)
  {
    var mixed := Mixed(group.hooks);
    var start := Slot([], pending, None);
    AllPlacedWell(group, mixed, start, group.hooks, all);
    PlaceKeepsShell(group, mixed, start, group.hooks);
  }

  predicate AllHome(groups: seq<Group>, all: seq<Group>) { forall i :: 0 <= i < |groups| ==> Homes(groups[i], all) }

  lemma {:induction false} GroupsHome(groups: seq<Group>, pending: seq<Group>, all: seq<Group>)
    requires IsGenerated(pending) && Within(pending, all) && MergeGroups(groups, pending).Some?
    ensures var m := MergeGroups(groups, pending).value; Within(m.pending, all) && AllHome(m.kept, all)
  {
    if groups != [] {
      var s := PlaceGroup(groups[0], pending).value;
      GroupHomes(groups[0], pending, all);
      GroupKeepsOthers(groups[0], pending);
      GroupsHome(groups[1..], s.pending, all);
    }
  }

  /** Every memcap handler of an event ends up in a group that was generated whole, or, in a group
      without further keys, under the very matcher it was generated for. */
  lemma MatchersAreKept(groups: seq<Group>, generated: seq<Group>)
    requires IsGenerated(generated) && MergeEvent(groups, generated).Some?
    ensures AllHome(MergeEvent(groups, generated).value, generated)
  {
    GroupsHome(groups, generated, generated);
    var m := MergeGroups(groups, generated).value;
    forall i | 0 <= i < |m.kept + m.pending| ensures Homes((m.kept + m.pending)[i], generated) {
      if i >= |m.kept| {
        assert m.pending[i - |m.kept|] in generated;
      }
    }
  }

  // ----------------------------------------------------------------------- roles

  /** At the same index a memcap handler of the same role. */
  predicate SameRole(before: seq<Handler>, after: seq<Handler>, j: nat)
    requires j < |before| && before[j].Memcap?
  {
    j < |after| && after[j].Memcap? && after[j].role == before[j].role
  }

  /** So it is for all, and for those that a handler of others follows. */
  predicate Aligned(before: seq<Handler>, after: seq<Handler>) {
    |after| == |before| && forall j :: 0 <= j < |before| && before[j].Memcap? ==> SameRole(before, after, j)
  }

  predicate RolesKept(before: seq<Handler>, after: seq<Handler>) {
    forall j, k :: 0 <= j < k < |before| && before[j].Memcap? && before[k].Other? ==> SameRole(before, after, j)
  }

  /** Whatever stands there of memcap's has the role of a handler that stood there. */
  predicate NoNewRole(before: seq<Handler>, after: seq<Handler>) {
    forall j :: 0 <= j < |after| && after[j].Memcap? ==> HasRole(before, after[j].role)
  }

  predicate HasRole(hooks: seq<Handler>, role: Role) {
    exists k :: 0 <= k < |hooks| && hooks[k].Memcap? && hooks[k].role == role
  }

  lemma HasRoleMore(hooks: seq<Handler>, h: Handler, role: Role)
    ensures HasRole(hooks, role) || (h.Memcap? && h.role == role) ==> HasRole(hooks + [h], role)
  {
    if HasRole(hooks, role) {
      var k :| 0 <= k < |hooks| && hooks[k].Memcap? && hooks[k].role == role;
      assert (hooks + [h])[k] == hooks[k];
    }
    if h.Memcap? && h.role == role {
      assert (hooks + [h])[|hooks|] == h;
    }
  }

  lemma NoNewRoleOn(before: seq<Handler>, after: seq<Handler>, h: Handler, x: seq<Handler>)
    requires NoNewRole(before, after) && (h.Other? ==> x == [h])
    requires h.Memcap? && x != [] ==> |x| == 1 && x[0].Memcap? && x[0].role == h.role
    ensures NoNewRole(before + [h], after + x)
  {
    forall j | 0 <= j < |after + x| && (after + x)[j].Memcap? ensures HasRole(before + [h], (after + x)[j].role) {
      HasRoleMore(before, h, (after + x)[j].role);
    }
  }

  lemma RolesOn(before: seq<Handler>, after: seq<Handler>, h: Handler, x: seq<Handler>)
    requires RolesKept(before, after) && |after| <= |before| && (h.Other? ==> Aligned(before, after))
    requires h.Other? ==> x == [h]
    ensures RolesKept(before + [h], after + x)
    ensures Aligned(before, after) && |x| == 1 && (h.Memcap? ==> x[0].Memcap? && x[0].role == h.role) ==>
      Aligned(before + [h], after + x)
  {
    forall j, k | 0 <= j < k < |before + [h]| && (before + [h])[j].Memcap? && (before + [h])[k].Other?
      ensures SameRole(before + [h], after + x, j)
    {
      assert SameRole(before, after, j);
    }
    if Aligned(before, after) && |x| == 1 && (h.Memcap? ==> x[0].Memcap? && x[0].role == h.role) {
      forall j | 0 <= j < |before + [h]| && (before + [h])[j].Memcap? ensures SameRole(before + [h], after + x, j) {
        assert j < |before| ==> SameRole(before, after, j);
      }
    }
  }

  lemma PlacedRole(group: Group, mixed: bool, s: Slot, h: Handler)
    requires group.Group? && IsGenerated(s.pending) && h.Memcap? && Placed(group, mixed, s, h) != []
    ensures var x := Placed(group, mixed, s, h); |x| == 1 && x[0].Memcap? && x[0].role == h.role
  {
  }

  lemma {:induction false} PlaceKeepsRoles(group: Group, mixed: bool, done: seq<Handler>, s: Slot, hooks: seq<Handler>)
    requires group.Group? && IsGenerated(s.pending) && Place(group, mixed, s, hooks).Some?
    requires RolesKept(done, s.remaining) && |s.remaining| <= |done| && (Mixed(hooks) ==> Aligned(done, s.remaining))
    requires NoNewRole(done, s.remaining)
    ensures var after := Place(group, mixed, s, hooks).value.remaining;
      RolesKept(done + hooks, after) && NoNewRole(done + hooks, after)
    decreases |hooks|
  {
    if hooks == [] {
      assert done + hooks == done;
    } else {
      var h, later := hooks[0], hooks[1..];
      var x := Placed(group, mixed, s, h);
      MixedFront(hooks);
      PlaceOneAdds(group, mixed, s, h, later);
      PlaceOneConserves(group, mixed, s, h, later);
      RolesOn(done, s.remaining, h, x);
      if h.Memcap? && x != [] {
        PlacedRole(group, mixed, s, h);
      }
      NoNewRoleOn(done, s.remaining, h, x);
      PlaceKeepsRoles(group, mixed, done + [h], PlaceOne(group, mixed, s, h, later).value, later);
      Shift(done, hooks);
    }
  }

  /** A memcap handler that one of others follows is replaced where it stands, by one of its own
      role, and the group gets no role it did not have. */
  predicate RolesStay(before: Group, after: Group) {
    && before.Group? && after.Group?
    && RolesKept(before.hooks, after.hooks) && NoNewRole(before.hooks, after.hooks)
  }

  lemma GroupKeepsRoles(group: Group, pending: seq<Group>)
    requires group.Group? && IsGenerated(pending) && PlaceGroup(group, pending).Some?
    ensures RolesStay(group, Final(group, PlaceGroup(group, pending).value))
  {
    var s := PlaceGroup(group, pending).value;
    PlaceKeepsRoles(group, Mixed(group.hooks), [], Slot([], pending, None), group.hooks);
    assert [] + group.hooks == group.hooks;
    FinalHooks(group, s);
  }

  predicate RolesInPlace(before: seq<Group>, after: seq<Group>) {
    |before| <= |after| && forall i :: 0 <= i < |before| ==> RolesStay(before[i], after[i])
  }

  lemma {:induction false} GroupsKeepRoles(groups: seq<Group>, pending: seq<Group>)
    requires IsGenerated(pending) && MergeGroups(groups, pending).Some?
    ensures RolesInPlace(groups, MergeGroups(groups, pending).value.kept)
  {
    if groups != [] {
      GroupKeepsRoles(groups[0], pending);
      GroupKeepsOthers(groups[0], pending);
      GroupsKeepRoles(groups[1..], PlaceGroup(groups[0], pending).value.pending);
    }
  }

  /** So it is slot by slot, whatever the generated groups are. */
  lemma RolesAreKept(groups: seq<Group>, generated: seq<Group>)
    requires IsGenerated(generated) && MergeEvent(groups, generated).Some?
    ensures RolesInPlace(groups, MergeEvent(groups, generated).value)
  {
    GroupsKeepRoles(groups, generated);
  }
}
