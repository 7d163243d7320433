/**
 * Why the wake-up theorem needs its discipline: runs in which reset overlaps queue_nb, or start, or in which
 * something is queued after release, and after which the component runs with a queued work that nobody will
 * ever look at.
 */
module LostWakeUp {
  import opened Codec2
  import opened WorkQueue
  import opened Protocol

  /** The events `es` lead from `s` to `t`. */
  ghost predicate Path(s: Sys, es: seq<Event>, t: Sys)
    decreases es
  {
    if es == [] then s == t else Enabled(s, es[0]) && Path(Apply(s, es[0]), es[1..], t)
  }

  lemma {:induction false} PathConcat(s: Sys, a: seq<Event>, t: Sys, b: seq<Event>, u: Sys)
    requires Path(s, a, t) && Path(t, b, u)
    ensures Path(s, a + b, u)
    decreases a
  {
    if a == [] {
      assert a + b == b;
    } else {
      assert (a + b)[1..] == a[1..] + b;
      PathConcat(Apply(s, a[0]), a[1..], t, b, u);
    }
  }

  ghost predicate Reaches(s: Sys, t: Sys) {
    exists es :: Path(s, es, t)
  }

  lemma Stay(s: Sys)
    ensures Reaches(s, s)
  {
    assert Path(s, [], s);
  }

  lemma Then(s: Sys, t: Sys, e: Event, u: Sys)
    requires Reaches(s, t) && Enabled(t, e) && u == Apply(t, e)
    ensures Reaches(s, u)
  {
    var es :| Path(s, es, t);
    assert [e][1..] == [] && Path(u, [], u);
    assert Path(t, [e], u);
    PathConcat(s, es, t, [e], u);
  }

  lemma Compose(s: Sys, t: Sys, u: Sys)
    requires Reaches(s, t) && Reaches(t, u)
    ensures Reaches(s, u)
  {
    var a :| Path(s, a, t);
    var b :| Path(t, b, u);
    PathConcat(s, a, t, b, u);
  }

  lemma {:induction false} PathIsRun(s: Sys, es: seq<Event>, t: Sys) returns (tr: seq<Sys>)
    requires Path(s, es, t)
    ensures |tr| == |es| + 1 && tr[0] == s && tr[|es|] == t
    ensures forall i {:trigger es[i]} :: 0 <= i < |es| ==> Enabled(tr[i], es[i]) && tr[i + 1] == Apply(tr[i], es[i])
    decreases es
  {
    if es == [] {
      tr := [s];
    } else {
      var rest := PathIsRun(Apply(s, es[0]), es[1..], t);
      tr := [s] + rest;
      forall i | 0 <= i < |es| ensures Enabled(tr[i], es[i]) && tr[i + 1] == Apply(tr[i], es[i]) {
        if i > 0 {
          assert tr[i] == rest[i - 1] && es[i] == es[1..][i - 1];
        }
      }
    }
  }

  lemma ThenPost(s: Sys, t: Sys, c: nat)
    requires Reaches(s, t) && Enabled(t, Post(c))
    ensures Reaches(s, Posted(t, c))
  {
    Then(s, t, Post(c), Posted(t, c));
  }

  lemma ThenDispatch(s: Sys, t: Sys)
    requires Reaches(s, t) && t.handler.Idle? && t.mailbox != []
    ensures Reaches(s, Dispatched(t, true))
  {
    Then(s, t, Dispatch(true), Dispatched(t, true));
  }

  /** queue_nb reads RUNNING, then reset() sets the state and clears the queue. */
  lemma ResetOvertakes(s: Sys, w: Work)
    requires s.exec.Running? && s.clients == map[] && s.q == QueueState(false, 0, [], map[]) && s.parkedUnder == map[]
    ensures Reaches(s, s.(exec := Uninitialized, clients := map[1 := Queueing([w]), 0 := Posting(Reset(0))]))
  {
    Stay(s);
    var s1 := s.(clients := map[1 := Queueing([w])]);
    Then(s, s, QueueCheck(1, [w]), s1);
    ResetClears(s1, w);
    Compose(s, s1, s1.(exec := Uninitialized, clients := map[1 := Queueing([w]), 0 := Posting(Reset(0))]));
  }

  lemma ResetClears(s: Sys, w: Work)
    requires s.clients == map[1 := Queueing([w])] && s.q == QueueState(false, 0, [], map[]) && s.parkedUnder == map[]
    ensures Reaches(s, s.(exec := Uninitialized, clients := map[1 := Queueing([w]), 0 := Posting(Reset(0))]))
  {
    Stay(s);
    var s2 := s.(exec := Uninitialized, clients := map[1 := Queueing([w]), 0 := Clearing(Reset(0))]);
    Then(s, s, ResetSet(0), s2);
    ThenClear(s, s2, 0);
    assert s2.clients[0 := Posting(Reset(0))] == map[1 := Queueing([w]), 0 := Posting(Reset(0))];
  }

  /** queue_nb goes on: its work is queued, and its message meets a handler that is not running. */
  lemma QueueTooLate(s: Sys, w: Work)
    requires !s.running && s.handler.Idle? && s.mailbox == []
    requires s.clients == map[1 := Queueing([w])] && s.q.queue == []
    ensures Reaches(s, s.(q := QueueItems(s.q, [w]), accepted := s.accepted + [w], clients := map[]))
  {
    Stay(s);
    var s1 := s.(q := QueueItems(s.q, [w]), accepted := s.accepted + [w], clients := map[1 := Posting(Process)]);
    Then(s, s, QueueSection(1), s1);
    MessageIgnored(s, s1);
  }

  lemma MessageIgnored(s: Sys, s1: Sys)
    requires Reaches(s, s1) && s1.clients == map[1 := Posting(Process)]
    requires !s1.running && s1.handler.Idle? && s1.mailbox == []
    ensures Reaches(s, s1.(clients := map[]))
  {
    var s2 := s1.(clients := map[], mailbox := [Process]);
    assert map[1 := Posting(Process)] - {1} == map[];
    ThenPost(s, s1, 1);
    assert s2 == Posted(s1, 1);
    ThenDispatch(s, s2);
    assert s1.(clients := map[]) == Dispatched(s2, true);
  }

  /** The component runs, a work is queued, and nobody will ever look at it. */
  predicate Stuck(s: Sys) {
    s.exec.Running? && s.q.queue != [] && s.mailbox == [] && s.handler.Idle? && s.clients == map[]
  }

  ghost predicate StuckInTheEnd(flavor: Flavor) {
    exists tr: seq<Sys>, es: seq<Event> :: Execution(flavor, tr, es) && Stuck(tr[|tr| - 1])
  }

  lemma ReachedIsRun(flavor: Flavor, t: Sys)
    requires Reaches(Init0(flavor), t) && Stuck(t)
    ensures StuckInTheEnd(flavor)
  {
    var es :| Path(Init0(flavor), es, t);
    var tr := PathIsRun(Init0(flavor), es, t);
    assert Execution(flavor, tr, es) && tr[|tr| - 1] == t;
  }

  /** A component whose handler is not running takes a work, and forgets about it. */
  lemma QueuedForNobody(flavor: Flavor, s: Sys, w: Work)
    requires Reaches(Init0(flavor), s) && s.exec.Running? && !s.running && s.handler.Idle?
    requires s.mailbox == [] && s.clients == map[] && s.q.queue == []
    ensures StuckInTheEnd(flavor)
  {
    var s1 := s.(clients := map[1 := Queueing([w])]);
    Then(Init0(flavor), s, QueueCheck(1, [w]), s1);
    QueueTooLate(s1, w);
    var s2 := s1.(q := QueueItems(s1.q, [w]), accepted := s1.accepted + [w], clients := map[]);
    Compose(Init0(flavor), s1, s2);
    assert s2.q.queue == WorkEntries([w]);
    ReachedIsRun(flavor, s2);
  }

  /** start() of an uninitialized component whose looper thread is idle. */
  lemma StartUp(s: Sys)
    requires s.exec.Uninitialized? && s.handler.Idle? && s.mailbox == [] && s.clients == map[]
    ensures Reaches(s, s.(exec := Running, running := true))
  {
    StartHalfWay(s);
    var s1 := s.(running := true, clients := map[0 := Started]);
    assert map[0 := Started] - {0} == map[];
    ThenStarted(s, s1);
    assert s1.(exec := Running, clients := map[]) == s.(exec := Running, running := true);
  }

  /** If reset overlaps queue_nb the wake-up can be lost: the work is queued after reset has cleared the queue. */
  lemma ResetDuringQueueLosesTheWakeUp(flavor: Flavor, w: Work)
    ensures StuckInTheEnd(flavor)
  {
    var s0 := Init0(flavor);
    StartUp(s0);
    var s1 := s0.(exec := Running, running := true);
    ResetOvertakes(s1, w);
    var s2 := s1.(exec := Uninitialized, clients := map[1 := Queueing([w]), 0 := Posting(Reset(0))]);
    Compose(s0, s1, s2);
    StoppedByMessage(s0, s2, 0, Reset(0));
    var s3 := s2.(running := false, clients := map[1 := Queueing([w])]);
    assert s2.clients - {0} == map[1 := Queueing([w])];
    QueueTooLate(s3, w);
    var s4 := s3.(q := QueueItems(s3.q, [w]), accepted := s3.accepted + [w], clients := map[]);
    Compose(s0, s3, s4);
    StartUp(s4);
    var s5 := s4.(exec := Running, running := true);
    Compose(s0, s4, s5);
    assert s5.q.queue == WorkEntries([w]);
    ReachedIsRun(flavor, s5);
  }

  /** start waits for the reply to its message when reset sets the state; then start sets RUNNING. */
  lemma ResetOvertakesStart(s: Sys)
    requires s.exec.Uninitialized? && s.clients == map[0 := Started] && s.q == QueueState(false, 0, [], map[]) && s.parkedUnder == map[]
    ensures Reaches(s, s.(exec := Running, clients := map[1 := Posting(Reset(1))]))
  {
    Stay(s);
    var s1 := s.(clients := map[0 := Started, 1 := Clearing(Reset(1))]);
    Then(s, s, ResetSet(1), s1);
    var s2 := s.(clients := map[0 := Started, 1 := Posting(Reset(1))]);
    ThenClear(s, s1, 1);
    assert s2 == s1.(clients := s1.clients[1 := Posting(Reset(1))]);
    assert map[0 := Started, 1 := Posting(Reset(1))] - {0} == map[1 := Posting(Reset(1))];
    ThenStarted(s, s2);
  }

  lemma ThenStarted(s: Sys, t: Sys)
    requires Reaches(s, t) && 0 in t.clients && t.clients[0].Started?
    ensures Reaches(s, t.(exec := Running, clients := t.clients - {0}))
  {
    Then(s, t, StartDone(0), t.(exec := Running, clients := t.clients - {0}));
  }

  /** The section of reset finds nothing. */
  lemma ThenClear(s: Sys, t: Sys, c: nat)
    requires Reaches(s, t) && c in t.clients && t.clients[c].Clearing?
    requires t.q == QueueState(false, 0, [], map[]) && t.parkedUnder == map[]
    ensures Reaches(s, t.(clients := t.clients[c := Posting(t.clients[c].msg)]))
  {
    assert t.discarded + [] + [] == t.discarded;
    Then(s, t, ClearSection(c), t.(clients := t.clients[c := Posting(t.clients[c].msg)]));
  }

  /** A message that ends with mRunning cleared: that of reset, or of release. */
  lemma StoppedByMessage(s0: Sys, s: Sys, c: nat, m: Msg)
    requires Reaches(s0, s) && (m == Reset(c) || m == Release(c)) && c in s.clients && s.clients[c] == Posting(m)
    requires s.handler.Idle? && s.mailbox == []
    ensures Reaches(s0, s.(running := false, pool := false, clients := s.clients - {c}))
  {
    var s1 := s.(clients := s.clients[c := Awaiting], mailbox := [m]);
    ThenPost(s0, s, c);
    assert s1 == Posted(s, c);
    ThenDispatch(s0, s1);
    assert s.clients[c := Awaiting] - {c} == s.clients - {c};
    StopHandled(s1, c, m);
  }

  lemma StopHandled(s: Sys, c: nat, m: Msg)
    requires s.handler.Idle? && s.mailbox == [m] && (m == Reset(c) || m == Release(c))
    ensures Dispatched(s, true) == s.(running := false, pool := false, clients := s.clients - {c}, mailbox := [])
  {
  }

  /** The looper thread has initialized the component, and start has not returned. */
  lemma StartHalfWay(s: Sys)
    requires s.exec.Uninitialized? && s.handler.Idle? && s.mailbox == [] && s.clients == map[]
    ensures Reaches(s, s.(running := true, clients := map[0 := Started]))
  {
    Stay(s);
    StartPosted(s);
    var s2 := s.(clients := map[0 := Awaiting], mailbox := [Init(0)]);
    ThenDispatch(s, s2);
    InitHandled(s2);
  }

  lemma InitHandled(s: Sys)
    requires s.handler.Idle? && s.mailbox == [Init(0)] && s.clients == map[0 := Awaiting]
    ensures Dispatched(s, true) == s.(running := true, clients := map[0 := Started], mailbox := [])
  {
  }

  /** start has posted its message. */
  lemma StartPosted(s: Sys)
    requires s.exec.Uninitialized? && s.mailbox == [] && s.clients == map[]
    ensures Reaches(s, s.(clients := map[0 := Awaiting], mailbox := [Init(0)]))
  {
    Stay(s);
    var s1 := s.(clients := map[0 := Posting(Init(0))]);
    Then(s, s, StartCheck(0), s1);
    ThenPost(s, s1, 0);
    assert s.(clients := map[0 := Awaiting], mailbox := [Init(0)]) == Posted(s1, 0);
  }

  /** If reset overlaps start the wake-up can be lost: the component is RUNNING, its handler is not. */
  lemma ResetDuringStartLosesTheWakeUp(flavor: Flavor, w: Work)
    ensures StuckInTheEnd(flavor)
  {
    var s0 := Init0(flavor);
    StartHalfWay(s0);
    var s1 := s0.(running := true, clients := map[0 := Started]);
    ResetOvertakesStart(s1);
    var s2 := s1.(exec := Running, clients := map[1 := Posting(Reset(1))]);
    Compose(s0, s1, s2);
    StoppedByMessage(s0, s2, 1, Reset(1));
    assert s2.clients - {1} == map[];
    QueuedForNobody(flavor, s2.(running := false, pool := false, clients := map[]), w);
  }

  /** What is queued after release is lost: release leaves the state RUNNING. */
  lemma ReleaseLosesTheWakeUp(flavor: Flavor, w: Work)
    ensures StuckInTheEnd(flavor)
  {
    var s0 := Init0(flavor);
    StartUp(s0);
    var s1 := s0.(exec := Running, running := true);
    var s2 := s1.(clients := map[0 := Posting(Release(0))]);
    Then(s0, s1, ReleaseCall(0), s2);
    StoppedByMessage(s0, s2, 0, Release(0));
    assert s2.clients - {0} == map[];
    QueuedForNobody(flavor, s2.(running := false, pool := false, clients := map[]), w);
  }
}
