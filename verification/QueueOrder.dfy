/**
 * Queue order: which works have left the queue, in which order they were accepted, and what it means that
 * others follow that order.
 */
module QueueOrder {
  import opened Codec2
  import opened WorkQueue
  import opened Protocol

  /** The client uses every frame index once. */
  ghost predicate NewIndexes(s: Sys, items: seq<Work>) {
    Distinct(FrameIndexes(s.accepted + items))
  }

  /** How many of the accepted works are no longer queued. */
  function Gone(s: Sys): int {
    |s.accepted| - |Works(s.q.queue)|
  }

  /** The queue is what was accepted last. */
  ghost predicate QueueInv(s: Sys) {
    && 0 <= Gone(s) && Works(s.q.queue) == s.accepted[Gone(s)..]
    && Distinct(FrameIndexes(s.accepted))
  }

  function GoneOrder(s: Sys): seq<FrameIndex>
    requires 0 <= Gone(s)
  {
    FrameIndexes(s.accepted[..Gone(s)])
  }

  /** The works of `xs` occur in `order`, one after the other. */
  ghost predicate InOrder(xs: seq<FrameIndex>, order: seq<FrameIndex>) {
    exists at: seq<nat> :: Embeds(xs, order, at)
  }

  ghost predicate Embeds(xs: seq<FrameIndex>, order: seq<FrameIndex>, at: seq<nat>) {
    && |at| == |xs|
    && (forall i :: 0 <= i < |at| ==> at[i] < |order| && order[at[i]] == xs[i])
    && (forall i, j :: 0 <= i < j < |at| ==> at[i] < at[j])
  }

  lemma InOrderExtends(xs: seq<FrameIndex>, order: seq<FrameIndex>, more: seq<FrameIndex>)
    requires InOrder(xs, order)
    ensures InOrder(xs, order + more)
  {
    var at: seq<nat> :| Embeds(xs, order, at);
    assert Embeds(xs, order + more, at);
  }

  lemma InOrderAppend(xs: seq<FrameIndex>, order: seq<FrameIndex>, x: FrameIndex)
    requires InOrder(xs, order)
    ensures InOrder(xs + [x], order + [x])
  {
    var at: seq<nat> :| Embeds(xs, order, at);
    var at': seq<nat> := at + [|order|];
    assert Embeds(xs + [x], order + [x], at');
  }

  /** Leaving a stretch out keeps the order. */
  lemma InOrderCut(a: seq<FrameIndex>, b: seq<FrameIndex>, c: seq<FrameIndex>, order: seq<FrameIndex>)
    requires InOrder(a + b + c, order)
    ensures InOrder(a + c, order)
  {
    var at: seq<nat> :| Embeds(a + b + c, order, at);
    CutAt(a, b, c);
    EmbedsCut(a + b + c, a + c, |a|, |b|, order, at);
  }

  lemma CutAt(a: seq<FrameIndex>, b: seq<FrameIndex>, c: seq<FrameIndex>)
    ensures |a + c| + |b| == |a + b + c|
    ensures forall i :: 0 <= i < |a + c| ==> (a + c)[i] == (a + b + c)[if i < |a| then i else i + |b|]
  {
  }

  lemma EmbedsCut(all: seq<FrameIndex>, cut: seq<FrameIndex>, from: nat, n: nat, order: seq<FrameIndex>, at: seq<nat>)
    requires Embeds(all, order, at) && |cut| + n == |all| && from <= |cut|
    requires forall i :: 0 <= i < |cut| ==> cut[i] == all[if i < from then i else i + n]
    ensures InOrder(cut, order)
  {
    var at' := seq(|cut|, i requires 0 <= i < |cut| => at[if i < from then i else i + n]);
    assert Embeds(cut, order, at');
  }

  /** A line may be emptied and the current work dropped without disturbing the order. */
  lemma KeepPart(line: seq<FrameIndex>, cur: seq<FrameIndex>, line': seq<FrameIndex>, cur': seq<FrameIndex>,
                 order: seq<FrameIndex>)
    requires InOrder(line + cur, order)
    requires (line' == line || line' == []) && (cur' == cur || cur' == [])
    ensures InOrder(line' + cur', order)
  {
    if line' != line {
      assert [] + line + cur == line + cur;
      InOrderCut([], line, cur, order);
      assert [] + cur == cur;
    }
    if cur' != cur {
      assert line' + cur + [] == line' + cur;
      InOrderCut(line', cur, [], order);
    }
  }

  lemma InOrderMembers(xs: seq<FrameIndex>, order: seq<FrameIndex>)
    requires InOrder(xs, order)
    ensures forall x :: x in xs ==> x in order
  {
    var at: seq<nat> :| Embeds(xs, order, at);
    forall i | 0 <= i < |xs| ensures xs[i] in order {
      assert order[at[i]] == xs[i];
    }
  }

  lemma InOrderDistinct(xs: seq<FrameIndex>, order: seq<FrameIndex>)
    requires InOrder(xs, order) && Distinct(order)
    ensures Distinct(xs)
  {
    var at: seq<nat> :| Embeds(xs, order, at);
    forall i, j | 0 <= i < j < |xs| ensures xs[i] != xs[j] {
      assert order[at[i]] != order[at[j]];
    }
  }

  lemma QueueInvClient(s: Sys, e: Event)
    requires Enabled(s, e) && !HandlerEvent(e) && !e.ClearSection? && QueueInv(s)
    requires e.QueueSection? ==> NewIndexes(s, s.clients[e.c].items)
    ensures var s' := Apply(s, e);
      && QueueInv(s') && Gone(s) <= Gone(s')
      && s'.accepted[..Gone(s)] == s.accepted[..Gone(s)]
  {
    ClientFrame(s, e);
    match e
    case QueueSection(c) =>
      WorksConcat(s.q.queue, WorkEntries(s.clients[c].items));
      WorksOfItems(s.clients[c].items);
      QueueGrows(s, Apply(s, e), s.clients[c].items);
    case DrainSection(c) =>
      WorksConcat(s.q.queue, [Entry(None, s.clients[c].mode)]);
      assert Works([Entry(None, s.clients[c].mode)]) == [] && s.accepted + [] == s.accepted;
      QueueGrows(s, Apply(s, e), []);
    case FlushSection(_) =>
    case _ =>
  }

  lemma QueueGrows(s: Sys, s': Sys, items: seq<Work>)
    requires QueueInv(s) && s'.accepted == s.accepted + items && Works(s'.q.queue) == Works(s.q.queue) + items
    requires NewIndexes(s, items)
    ensures QueueInv(s') && Gone(s) == Gone(s') && s'.accepted[..Gone(s)] == s.accepted[..Gone(s)]
  {
  }

  /** Where `Front` stays and more works are gone, the order stays. */
  lemma GoneGrows(s: Sys, s': Sys, front: seq<FrameIndex>)
    requires 0 <= Gone(s) <= Gone(s') && s'.accepted[..Gone(s)] == s.accepted[..Gone(s)]
    requires InOrder(front, GoneOrder(s))
    ensures InOrder(front, GoneOrder(s'))
    ensures forall x :: x in GoneOrder(s) ==> x in GoneOrder(s')
  {
    var more := FrameIndexes(s'.accepted[Gone(s)..Gone(s')]);
    assert GoneOrder(s') == GoneOrder(s) + more;
    InOrderExtends(front, GoneOrder(s), more);
  }

  function FrontWork(q: seq<Entry>): seq<Work> {
    if q != [] && q[0].work.Some? then [q[0].work.value] else []
  }

  /** One more work is gone from the queue, if the entry taken holds one. */
  lemma PopGone(s: Sys)
    requires Enabled(s, PopSection) && QueueInv(s)
    ensures var s' := Apply(s, PopSection);
      && QueueInv(s')
      && GoneOrder(s') == GoneOrder(s) + FrameIndexes(FrontWork(s.q.queue))
      && forall w :: w in FrontWork(s.q.queue) ==> w in s.accepted
  {
    SectionFrame(s, PopSection);
    if s.q.queue == [] {
      assert GoneOrder(s) + [] == GoneOrder(s);
    } else {
      assert Apply(s, PopSection).q.queue == s.q.queue[1..];
      PopGoneEntry(s, Apply(s, PopSection));
    }
  }

  lemma PopGoneEntry(s: Sys, s': Sys)
    requires QueueInv(s) && s.q.queue != [] && s'.accepted == s.accepted && s'.q.queue == s.q.queue[1..]
    ensures QueueInv(s')
    ensures GoneOrder(s') == GoneOrder(s) + FrameIndexes(FrontWork(s.q.queue))
    ensures forall w :: w in FrontWork(s.q.queue) ==> w in s.accepted
  {
    var q := s.q.queue;
    assert Works(q) == FrontWork(q) + Works(q[1..]);
    if q[0].work.Some? {
      NextGone(s.accepted, Gone(s), q[0].work.value, Works(q[1..]));
      PopGoneWork(s, s', q[0].work.value);
      assert FrameIndexes(FrontWork(q)) == [q[0].work.value.frameIndex];
    } else {
      assert GoneOrder(s) + [] == GoneOrder(s);
    }
  }

  lemma PopGoneWork(s: Sys, s': Sys, w: Work)
    requires QueueInv(s) && s'.accepted == s.accepted && Gone(s) < |s.accepted|
    requires |Works(s'.q.queue)| == |Works(s.q.queue)| - 1
    requires Works(s'.q.queue) == s.accepted[Gone(s) + 1..]
    requires FrameIndexes(s.accepted[..Gone(s) + 1]) == FrameIndexes(s.accepted[..Gone(s)]) + [w.frameIndex]
    ensures QueueInv(s') && GoneOrder(s') == GoneOrder(s) + [w.frameIndex]
  {
  }

  lemma NextGone(all: seq<Work>, gone: nat, w: Work, rest: seq<Work>)
    requires gone <= |all| && all[gone..] == [w] + rest
    ensures gone < |all| && all[gone] == w && w in all && all[gone + 1..] == rest
    ensures FrameIndexes(all[..gone + 1]) == FrameIndexes(all[..gone]) + [w.frameIndex]
  {
    assert all[gone] == all[gone..][0];
    assert all[gone + 1..] == all[gone..][1..];
  }

  lemma GoneDistinct(s: Sys)
    requires QueueInv(s)
    ensures Distinct(GoneOrder(s))
  {
    assert forall i :: 0 <= i < Gone(s) ==> GoneOrder(s)[i] == FrameIndexes(s.accepted)[i];
  }

  lemma GoneIsPrefix(s: Sys, xs: seq<FrameIndex>)
    requires QueueInv(s) && InOrder(xs, GoneOrder(s))
    ensures InOrder(xs, FrameIndexes(s.accepted))
  {
    var more := FrameIndexes(s.accepted[Gone(s)..]);
    assert FrameIndexes(s.accepted) == GoneOrder(s) + more;
    InOrderExtends(xs, GoneOrder(s), more);
  }
}
