/** When an agent's session counts as idle, said of its events alone (event in libexec/idle_gc.py). */
module Phases {
  import opened Common
  import opened IdleCollector
  import Ownership

  /** One event of a session and when it came. */
  datatype Happening = Happening(event: Payload, at: real)

  /** What is recorded of a session after its events, while its agent lives. */
  function Over(h: seq<Happening>, agent: Pid, start: Start): Option<Session> {
    if h == [] then None
    else
      var n := |h| - 1;
      Some(SessionAfter(Over(h[..n], agent, start), h[n].event, agent, start, h[n].at))
  }

  predicate StopsChild(x: Happening, c: Token) { x.event.hook == SubagentStop && x.event.child == Some(c) }

  predicate StartsChild(x: Happening, c: Token) {
    x.event.hook == SubagentStart && (x.event.child == Some(c) || (x.event.child.None? && c == UNKNOWN_CHILD))
  }

  /** A child that was started and not stopped since. */
  ghost predicate Open(h: seq<Happening>, c: Token) {
    exists i: nat :: i < |h| && StartsChild(h[i], c) && forall j: nat :: i < j < |h| ==> !StopsChild(h[j], c)
  }

  /** The agent stopped or left, and nothing has happened since but children stopping. */
  ghost predicate Finished(h: seq<Happening>) {
    exists i: nat :: i < |h| && h[i].event.hook in {Stop, SessionEnd}
                     && forall j: nat :: i < j < |h| ==> h[j].event.hook == SubagentStop
  }

  lemma OpenMore(h: seq<Happening>, c: Token)
    requires h != []
    ensures var n := |h| - 1;
      Open(h, c) <==> StartsChild(h[n], c) || (Open(h[..n], c) && !StopsChild(h[n], c))
  {
    var n := |h| - 1;
    if Open(h[..n], c) && !StopsChild(h[n], c) {
      var i: nat :| i < n && StartsChild(h[..n][i], c) && forall j: nat :: i < j < n ==> !StopsChild(h[..n][j], c);
      assert StartsChild(h[i], c);
      assert forall j: nat :: i < j < n ==> h[..n][j] == h[j];
    }
    if Open(h, c) && !StartsChild(h[n], c) {
      var i: nat :| i < |h| && StartsChild(h[i], c) && forall j: nat :: i < j < |h| ==> !StopsChild(h[j], c);
      assert StartsChild(h[..n][i], c);
    }
  }

  lemma FinishedMore(h: seq<Happening>)
    requires h != []
    ensures var n := |h| - 1;
      Finished(h) <==> h[n].event.hook in {Stop, SessionEnd} || (Finished(h[..n]) && h[n].event.hook == SubagentStop)
  {
    var n := |h| - 1;
    if Finished(h[..n]) && h[n].event.hook == SubagentStop {
      var i: nat :| i < n && h[..n][i].event.hook in {Stop, SessionEnd}
                    && forall j: nat :: i < j < n ==> h[..n][j].event.hook == SubagentStop;
      assert forall j: nat :: i < j < n ==> h[..n][j] == h[j];
      assert h[i].event.hook in {Stop, SessionEnd};
    }
    if Finished(h) && h[n].event.hook !in {Stop, SessionEnd} {
      var i: nat :| i < |h| && h[i].event.hook in {Stop, SessionEnd}
                    && forall j: nat :: i < j < |h| ==> h[j].event.hook == SubagentStop;
      assert h[..n][i] == h[i];
    }
  }

  /** The children on record are those that are open, and the session has ended exactly if it
      is finished. */
  lemma {:induction false} RecordIsExact(h: seq<Happening>, agent: Pid, start: Start)
    requires h != []
    ensures var s := Over(h, agent, start).value;
      && s.owner == agent && s.start == start && s.at == h[|h| - 1].at && s.cwd == h[|h| - 1].event.cwd
      && (forall c :: c in s.children <==> Open(h, c)) && (s.ended <==> Finished(h))
  {
    var n := |h| - 1;
    if n > 0 {
      RecordIsExact(h[..n], agent, start);
    }
    FinishedMore(h);
    forall c ensures Open(h, c) <==> StartsChild(h[n], c) || (Open(h[..n], c) && !StopsChild(h[n], c)) {
      OpenMore(h, c);
    }
  }

  /** A session is idle exactly when its agent has finished, no child is open, the last event
      told of no task that must be kept, and it was not a child that said it stopped. */
  lemma IdleExactly(h: seq<Happening>, agent: Pid, start: Start)
    requires h != []
    ensures var e := h[|h| - 1].event;
      Over(h, agent, start).value.idle <==>
        && Finished(h) && (forall c :: !Open(h, c)) && e.tasksDisposable && !(e.hook == Stop && e.child.Some?)
  {
    RecordIsExact(h, agent, start);
    var children := Over(h, agent, start).value.children;
    if children != {} {
      assert Open(h, Pick(children));
    }
  }

  /** An event leaves every other session alone whose agent still is the same process, and
      forgets the rest. */
  lemma OthersKept(sessions: map<(Pid, Token), Session>, e: Payload, agent: Pid, table: Ownership.Table, now: real,
                   k: (Pid, Token))
    requires agent in table && k != (agent, e.session)
    ensures var after := SessionsAfter(sessions, e, agent, table, now);
      && (k in after <==> k in sessions && sessions[k].owner in table
                          && table[sessions[k].owner].start == sessions[k].start)
      && (k in after ==> after[k] == sessions[k])
  {
  }
}
