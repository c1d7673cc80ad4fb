/** Installing memcap into agents' profiles (Installer in libexec/integrate.py): the hook merge,
    the timeout ceiling, the managed block and the metadata are planned as edits, for all
    selected profiles, and committed together. */
module Integration {
  import opened Common
  import Hooks
  import Markdown
  import Timeouts
  import opened Transaction

  datatype Agent = Claude | Codex

  /** A configuration: hooks and other settings, and the environment it gives to tools. */
  datatype Config = Config(data: Hooks.Data, env: Timeouts.Environment)

  const EMPTY_CONFIG: Config := Config(Hooks.Data(Hooks.Absent, 0), Timeouts.NoEnvironment)

  /** How configurations are written and read. */
  datatype Codec = Codec(encode: Config -> Content, decode: Content -> Option<Config>)

  ghost predicate Faithful(c: Codec) { forall d :: c.decode(c.encode(d)) == Some(d) }

  /** What is installed: generated hooks, guidance, and the metadata file. */
  datatype Setup = Setup(codec: Codec, generated: Agent -> Hooks.Generated, block: Markdown.Block,
                         metadata: Agent -> Content)

  /** The three files of a profile, each named by what its path resolves to. */
  datatype Profile = Profile(agent: Agent, config: Token, doc: Token, metadata: Token)

  datatype Part = ConfigPart | DocPart | MetadataPart

  /** One file of one profile. */
  datatype Request = Request(profile: Profile, part: Part)
  {
    function File(): Token {
      match part
      case ConfigPart => profile.config
      case DocPart => profile.doc
      case MetadataPart => profile.metadata
    }
  }

  function Requests(selected: seq<Profile>): seq<Request> {
    if selected == [] then []
    else
      var p := selected[|selected| - 1];
      Requests(selected[..|selected| - 1]) + [Request(p, ConfigPart), Request(p, DocPart), Request(p, MetadataPart)]
  }

  ghost predicate Sound(s: Setup) {
    Faithful(s.codec) && (forall a :: Hooks.AllGenerated(s.generated(a))) && Markdown.Proper(s.block)
  }

  // -------------------------------------------------------------------- one file

  /** A missing configuration reads as an empty object. */
  function ReadConfig(s: Setup, before: Option<Content>): Option<Config> {
    match before
    case None => Some(EMPTY_CONFIG)
    case Some(text) => s.codec.decode(text)
  }

  /** Only Claude's settings carry the timeout ceiling. */
  function EnvironmentFor(agent: Agent, e: Timeouts.Environment): Option<Timeouts.Environment> {
    if agent == Claude then Timeouts.Managed(e) else Some(e)
  }

  ghost predicate IsUpdate(s: Setup, agent: Agent, d: Config, merged: Config) {
    && Hooks.Accepts(d.data, s.generated(agent)) && Hooks.IsMerge(d.data, s.generated(agent), merged.data)
    && EnvironmentFor(agent, d.env) == Some(merged.env)
  }

  /** The configuration is rewritten only if the update changes what it says. */
  ghost predicate ConfigPlan(s: Setup, agent: Agent, before: Option<Content>, after: Content) {
    exists d, merged :: ConfigFrom(s, agent, before, after, d, merged)
  }

  ghost predicate ConfigFrom(s: Setup, agent: Agent, before: Option<Content>, after: Content, d: Config,
                             merged: Config) {
    && ReadConfig(s, before) == Some(d) && IsUpdate(s, agent, d, merged)
    && if merged == d then before == Some(after) else after == s.codec.encode(merged)
  }

  ghost predicate DocPlan(s: Setup, before: Option<Content>, after: Content) {
    s.block.begin != "" && s.block.end != "" && Markdown.Managed(s.block, before.GetOr("")) == Some(after)
  }

  /** What one file of a profile is to hold, given what it holds. */
  ghost predicate Plan(s: Setup, r: Request, before: Option<Content>, after: Content) {
    match r.part
    case ConfigPart => ConfigPlan(s, r.profile.agent, before, after)
    case DocPart => DocPlan(s, before, after)
    case MetadataPart => after == s.metadata(r.profile.agent)
  }

  method PlanConfig(s: Setup, agent: Agent, before: Option<Content>) returns (after: Option<Content>)
    ensures after.Some? ==> ConfigPlan(s, agent, before, after.value)
    ensures after.None? ==> forall a :: !ConfigPlan(s, agent, before, a)
  {
    var d := ReadConfig(s, before);
    if d.None? {
      return None;
    }
    var data := Hooks.MergeHooks(d.value.data, s.generated(agent));
    if data.None? {
      return None;
    }
    var env := EnvironmentFor(agent, d.value.env);
    if env.None? {
      return None;
    }
    var merged := Config(data.value, env.value);
    assert IsUpdate(s, agent, d.value, merged);
    after := if merged == d.value then before else Some(s.codec.encode(merged));
    assert merged.data.hooks.Object?;
    assert ConfigFrom(s, agent, before, after.value, d.value, merged);
  }

  method PlanPart(s: Setup, r: Request, before: Option<Content>) returns (after: Option<Content>)
    requires s.block.begin != "" && s.block.end != ""
    ensures after.Some? ==> Plan(s, r, before, after.value)
    ensures after.None? ==> forall a :: !Plan(s, r, before, a)
  {
    match r.part
    case ConfigPart => after := PlanConfig(s, r.profile.agent, before);
    case DocPart => after := Markdown.Managed(s.block, before.GetOr(""));
    case MetadataPart => after := Some(s.metadata(r.profile.agent));
  }

  lemma MergeIsUnique(d: Hooks.Data, g: Hooks.Generated, a: Hooks.Data, b: Hooks.Data)
    requires Hooks.IsMerge(d, g, a) && Hooks.IsMerge(d, g, b)
    ensures a == b
  {
    forall e | e in Hooks.EventsOf(a) ensures Hooks.EventsOf(a)[e] == Hooks.EventsOf(b)[e] {
      assert e in Hooks.EventsOf(b);
    }
    assert Hooks.EventsOf(a) == Hooks.EventsOf(b);
  }

  /** A file has one plan at most. */
  lemma PlanIsUnique(s: Setup, r: Request, before: Option<Content>, a: Content, b: Content)
    requires Plan(s, r, before, a) && Plan(s, r, before, b)
    ensures a == b
  {
    if r.part == ConfigPart {
      var d, merged :| ConfigFrom(s, r.profile.agent, before, a, d, merged);
      var e, merged' :| ConfigFrom(s, r.profile.agent, before, b, e, merged');
      MergeIsUnique(d.data, s.generated(r.profile.agent), merged.data, merged'.data);
    }
  }

  lemma UpdateSettles(s: Setup, agent: Agent, d: Config, merged: Config)
    requires Hooks.AllGenerated(s.generated(agent)) && IsUpdate(s, agent, d, merged)
    ensures IsUpdate(s, agent, merged, merged)
  {
    Hooks.MergeIsIdempotent(d.data, s.generated(agent), merged.data, merged.data);
    MergesIntoItself(d.data, s.generated(agent), merged.data);
    if agent == Claude {
      Timeouts.ManagedSettles(d.env);
    }
  }

  lemma MergesIntoItself(d: Hooks.Data, g: Hooks.Generated, merged: Hooks.Data)
    requires Hooks.AllGenerated(g) && Hooks.Accepts(d, g) && Hooks.IsMerge(d, g, merged)
    ensures Hooks.IsMerge(merged, g, merged)
  {
    forall e | e in Hooks.EventsOf(merged) ensures Hooks.After(merged, g, e) == Some(Hooks.GroupsAt(merged, e)) {
      assert Hooks.IsGenerated(Hooks.GeneratedAt(g, e));
      Hooks.EventRepeats(Hooks.GroupsAt(d, e), Hooks.GeneratedAt(g, e));
    }
  }

  /** Planned again from its own result, a configuration is accepted and left as it is. */
  lemma ConfigSettles(s: Setup, agent: Agent, before: Option<Content>, after: Content)
    requires Sound(s) && ConfigPlan(s, agent, before, after)
    ensures ConfigPlan(s, agent, Some(after), after)
  {
    var d, merged :| ConfigFrom(s, agent, before, after, d, merged);
    UpdateSettles(s, agent, d, merged);
    assert ConfigFrom(s, agent, Some(after), after, merged, merged);
  }

  lemma PlanSettles(s: Setup, r: Request, before: Option<Content>, after: Content)
    requires Sound(s) && Plan(s, r, before, after)
    ensures Plan(s, r, Some(after), after)
  {
    match r.part
    case ConfigPart => ConfigSettles(s, r.profile.agent, before, after);
    case DocPart => Markdown.ManagedIsIdempotent(s.block, before.GetOr(""));
    case MetadataPart =>
  }

  // ----------------------------------------------------------- all selected profiles

  function Held(w: World, name: Token): Option<Content> { At(w, Target(name)) }

  ghost predicate PlanNow(s: Setup, w: World, r: Request, after: Content) { Plan(s, r, Held(w, r.File()), after) }

  ghost predicate Unplannable(s: Setup, w: World, r: Request) { forall a :: !PlanNow(s, w, r, a) }

  /** Two requests want one file to hold different things. */
  ghost predicate Clash(s: Setup, w: World, r: Request, q: Request) {
    r.File() == q.File() && exists a, b :: PlanNow(s, w, r, a) && PlanNow(s, w, q, b) && a != b
  }

  /** A file that cannot be planned, or that two profiles want to be different. */
  ghost predicate Refused(s: Setup, w: World, reqs: seq<Request>) {
    || (exists r :: r in reqs && Unplannable(s, w, r))
    || (exists r, q :: r in reqs && q in reqs && Clash(s, w, r, q))
  }

  /** An edit that a request asks for. */
  ghost predicate Asks(s: Setup, w: World, r: Request, e: Edit) {
    e.target == r.File() && e.before == Held(w, e.target) && Plan(s, r, e.before, e.after)
  }

  ghost predicate Met(s: Setup, w: World, r: Request, edits: seq<Edit>) { exists e :: e in edits && Asks(s, w, r, e) }

  ghost predicate Wanted(s: Setup, w: World, reqs: seq<Request>, e: Edit) { exists r :: r in reqs && Asks(s, w, r, e) }

  /** The edits planned from the files as they are: one for each file, and it is what every
      request asks for that names the file. */
  ghost predicate Planned(s: Setup, w: World, reqs: seq<Request>, edits: seq<Edit>) {
    && Distinct(edits)
    && (forall e :: e in edits ==> Wanted(s, w, reqs, e))
    && (forall r :: r in reqs ==> Met(s, w, r, edits))
  }

  /** The place of a file among the planned edits, or their number. */
  function IndexOf(edits: seq<Edit>, target: Token): (k: nat)
    ensures k <= |edits| && (k < |edits| ==> edits[k].target == target)
    ensures forall i :: 0 <= i < k ==> edits[i].target != target
  {
    if edits == [] || edits[0].target == target then 0
    else
      assert forall i :: 0 < i < |edits| ==> edits[i] == edits[1..][i - 1];
      1 + IndexOf(edits[1..], target)
  }

  /** Enter an edit in the dictionary of planned edits, which keeps the order of first entry. */
  function Put(edits: seq<Edit>, e: Edit): seq<Edit> {
    var k := IndexOf(edits, e.target);
    if k < |edits| then edits[k := e] else edits + [e]
  }

  lemma MetMore(s: Setup, w: World, r: Request, edits: seq<Edit>, more: seq<Edit>)
    requires Met(s, w, r, edits) && forall e :: e in edits ==> e in more
    ensures Met(s, w, r, more)
  {
    var e :| e in edits && Asks(s, w, r, e);
    assert e in more;
  }

  lemma PlannedMore(s: Setup, w: World, reqs: seq<Request>, edits: seq<Edit>, r: Request, more: seq<Edit>, e: Edit)
    requires Planned(s, w, reqs, edits) && Asks(s, w, r, e) && Distinct(more)
    requires forall x :: x in more <==> x in edits || x == e
    ensures Planned(s, w, reqs + [r], more)
  {
    forall x | x in more ensures Wanted(s, w, reqs + [r], x) {
      if x in edits {
        var q :| q in reqs && Asks(s, w, q, x);
        assert q in reqs + [r];
      } else {
        assert r in reqs + [r];
      }
    }
    forall q | q in reqs + [r] ensures Met(s, w, q, more) {
      if q in reqs {
        MetMore(s, w, q, edits, more);
      } else {
        assert e in more;
      }
    }
  }

  lemma PutOne(edits: seq<Edit>, e: Edit)
    requires Distinct(edits)
    requires var k := IndexOf(edits, e.target); k < |edits| ==> edits[k] == e
    ensures Distinct(Put(edits, e)) && forall x :: x in Put(edits, e) <==> x in edits || x == e
  {
    var k := IndexOf(edits, e.target);
    if k < |edits| {
      assert edits[k := e] == edits;
    }
  }

  /** An edit that agrees with what is planned for its file can be entered. */
  lemma PutKeeps(s: Setup, w: World, reqs: seq<Request>, edits: seq<Edit>, r: Request, e: Edit)
    requires Planned(s, w, reqs, edits) && Asks(s, w, r, e)
    requires var k := IndexOf(edits, e.target); k < |edits| ==> edits[k].after == e.after
    ensures Planned(s, w, reqs + [r], Put(edits, e))
  {
    var k := IndexOf(edits, e.target);
    if k < |edits| {
      assert Wanted(s, w, reqs, edits[k]);
    }
    PutOne(edits, e);
    PlannedMore(s, w, reqs, edits, r, Put(edits, e), e);
  }

  /** One that does not agree is a conflict between two requests. */
  lemma Differs(s: Setup, w: World, reqs: seq<Request>, edits: seq<Edit>, r: Request, e: Edit, k: nat)
    requires Planned(s, w, reqs, edits) && Asks(s, w, r, e)
    requires k < |edits| && edits[k].target == e.target && edits[k].after != e.after
    ensures exists q :: q in reqs && Clash(s, w, q, r)
  {
    assert Wanted(s, w, reqs, edits[k]);
    var q :| q in reqs && Asks(s, w, q, edits[k]);
    assert PlanNow(s, w, q, edits[k].after) && PlanNow(s, w, r, e.after);
  }

  lemma MetNeverClash(s: Setup, w: World, r: Request, q: Request, edits: seq<Edit>)
    requires Distinct(edits) && Met(s, w, r, edits) && Met(s, w, q, edits)
    ensures !Clash(s, w, r, q)
  {
    if Clash(s, w, r, q) {
      var e :| e in edits && Asks(s, w, r, e);
      var f :| f in edits && Asks(s, w, q, f);
      SameTarget(edits, e, f);
      AgreedNeverClash(s, w, r, q, e.after);
    }
  }

  lemma AgreedNeverClash(s: Setup, w: World, r: Request, q: Request, c: Content)
    requires PlanNow(s, w, r, c) && PlanNow(s, w, q, c)
    ensures !Clash(s, w, r, q)
  {
    if Clash(s, w, r, q) {
      var a, b :| PlanNow(s, w, r, a) && PlanNow(s, w, q, b) && a != b;
      PlanIsUnique(s, r, Held(w, r.File()), a, c);
      PlanIsUnique(s, q, Held(w, q.File()), b, c);
    }
  }

  /** What is planned was not refused. */
  lemma PlannedIsFree(s: Setup, w: World, reqs: seq<Request>, edits: seq<Edit>)
    requires Planned(s, w, reqs, edits)
    ensures !Refused(s, w, reqs)
  {
    forall r | r in reqs ensures !Unplannable(s, w, r) {
      var e :| e in edits && Asks(s, w, r, e);
      assert PlanNow(s, w, r, e.after);
    }
    forall r, q | r in reqs && q in reqs ensures !Clash(s, w, r, q) {
      assert Met(s, w, r, edits) && Met(s, w, q, edits);
      MetNeverClash(s, w, r, q, edits);
    }
  }

  lemma SameTarget(edits: seq<Edit>, e: Edit, f: Edit)
    requires Distinct(edits) && e in edits && f in edits && e.target == f.target
    ensures e == f
  {
    var i :| 0 <= i < |edits| && edits[i] == e;
    var j :| 0 <= j < |edits| && edits[j] == f;
  }

  /** Plan every requested file, and refuse if a file cannot be planned or if two profiles that
      share a file want it to differ. */
  method Prepare(s: Setup, selected: seq<Profile>, w: World) returns (edits: Option<seq<Edit>>)
    requires s.block.begin != "" && s.block.end != ""
    ensures edits.Some? ==> Planned(s, w, Requests(selected), edits.value)
    ensures edits.None? <==> Refused(s, w, Requests(selected))
  {
    var reqs := Requests(selected);
    var planned: seq<Edit> := [];
    for k := 0 to |reqs|
      invariant Planned(s, w, reqs[..k], planned)
    {
      var r := reqs[k];
      assert reqs[..k + 1] == reqs[..k] + [r];
      var before := Held(w, r.File());
      var after := PlanPart(s, r, before);
      if after.None? {
        assert Unplannable(s, w, r);
        return None;
      }
      var e := Edit(r.File(), before, after.value);
      assert Asks(s, w, r, e);
      var i := IndexOf(planned, e.target);
      if i < |planned| && planned[i].after != e.after {
        Differs(s, w, reqs[..k], planned, r, e, i);
        return None;
      }
      PutKeeps(s, w, reqs[..k], planned, r, e);
      planned := Put(planned, e);
    }
    assert reqs[..|reqs|] == reqs;
    PlannedIsFree(s, w, reqs, planned);
    edits := Some(planned);
  }

  // ------------------------------------------------------------------ installing

  lemma {:induction false} NothingChanged(edits: seq<Edit>)
    requires forall k :: 0 <= k < |edits| ==> edits[k].before == Some(edits[k].after)
    ensures ChangedOf(edits) == []
  {
    if edits != [] {
      NothingChanged(edits[..|edits| - 1]);
    }
  }

  lemma {:induction false} ChangedIsPart(edits: seq<Edit>, e: Edit)
    ensures e in ChangedOf(edits) <==> e in edits && e.before != Some(e.after)
  {
    if edits != [] {
      var n := |edits| - 1;
      ChangedIsPart(edits[..n], e);
      assert edits == edits[..n] + [edits[n]];
    }
  }

  /** After a commit every planned file holds what was planned, changed or not. */
  lemma PlanIsInPlace(env: Env, w: World, after: World, edits: seq<Edit>, outcome: Outcome, e: Edit)
    requires e in edits && e.before == Held(w, e.target) && Distinct(edits)
    requires outcome.Committed? && AllAlone(env, edits)
    requires AllOrNothing(env, w, after, ChangedOf(edits), outcome) && TargetsAt(env, w, after, ChangedOf(edits))
    ensures Held(after, e.target) == Some(e.after)
  {
    ChangedIsPart(edits, e);
    if e.before == Some(e.after) {
      forall x | x in ChangedOf(edits) ensures x.target != e.target {
        ChangedIsPart(edits, x);
        if x.target == e.target {
          SameTarget(edits, x, e);
        }
      }
      assert Alone(env, Target(e.target)) && !Targeted(ChangedOf(edits), Target(e.target));
    }
  }

  /** Each request asks for nothing but what its file now holds. */
  ghost predicate Settled(s: Setup, after: World, r: Request) {
    Held(after, r.File()).Some? && PlanNow(s, after, r, Held(after, r.File()).value)
  }

  lemma SettledPart(s: Setup, env: Env, w: World, after: World, reqs: seq<Request>, edits: seq<Edit>,
                    outcome: Outcome, r: Request)
    requires Sound(s) && Planned(s, w, reqs, edits) && r in reqs && AllAlone(env, edits) && outcome.Committed?
    requires AllOrNothing(env, w, after, ChangedOf(edits), outcome) && TargetsAt(env, w, after, ChangedOf(edits))
    ensures Settled(s, after, r)
  {
    assert Met(s, w, r, edits);
    var e :| e in edits && Asks(s, w, r, e);
    PlanIsInPlace(env, w, after, edits, outcome, e);
    PlanSettles(s, r, e.before, e.after);
  }

  lemma SettledIsFree(s: Setup, w: World, reqs: seq<Request>)
    requires forall r :: r in reqs ==> Settled(s, w, r)
    ensures !Refused(s, w, reqs)
  {
    forall r | r in reqs ensures !Unplannable(s, w, r) {
      assert PlanNow(s, w, r, Held(w, r.File()).value);
    }
    forall r, q | r in reqs && q in reqs ensures !Clash(s, w, r, q) {
      if r.File() == q.File() {
        AgreedNeverClash(s, w, r, q, Held(w, r.File()).value);
      }
    }
  }

  /** Installing settles. Whatever the profiles held and whatever files they share, once an
      installation has been committed, a second one is not refused and plans no change at
      all, as long as nobody else writes their files. */
  lemma InstallSettles(s: Setup, selected: seq<Profile>, env: Env, w: World, after: World, edits: seq<Edit>,
                       outcome: Outcome, again: seq<Edit>)
    requires Sound(s) && Planned(s, w, Requests(selected), edits) && AllAlone(env, edits) && outcome.Committed?
    requires AllOrNothing(env, w, after, ChangedOf(edits), outcome) && TargetsAt(env, w, after, ChangedOf(edits))
    ensures !Refused(s, after, Requests(selected))
    ensures Planned(s, after, Requests(selected), again) ==> ChangedOf(again) == []
  {
    var reqs := Requests(selected);
    forall r | r in reqs ensures Settled(s, after, r) {
      SettledPart(s, env, w, after, reqs, edits, outcome, r);
    }
    SettledIsFree(s, after, reqs);
    if Planned(s, after, reqs, again) {
      forall k | 0 <= k < |again| ensures again[k].before == Some(again[k].after) {
        assert Wanted(s, after, reqs, again[k]);
        var r :| r in reqs && Asks(s, after, r, again[k]);
        PlanIsUnique(s, r, again[k].before, again[k].after, Held(after, r.File()).value);
      }
      NothingChanged(again);
    }
  }
}
