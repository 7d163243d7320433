/**
 * No lost wake-up: clients post kWhatProcess only when they find the queue empty, and the looper thread
 * posts it again only when it saw more work.  That is enough, as long as reset overlaps none of queue_nb,
 * drain_nb and start, and nothing is called after release.  start, stop and flush_sm may overlap each other
 * and everything else.
 */
module WakeUp {
  import opened Codec2
  import opened WorkQueue
  import opened Protocol

  predicate QueueClient(k: Client) {
    k.Queueing? || k.Draining? || (k.Posting? && k.msg.Process?)
  }

  predicate StartClient(k: Client) {
    k.Started? || (k.Posting? && (k.msg.Init? || k.msg.Start?))
  }

  predicate ResetClient(k: Client) {
    (k.Clearing? || k.Posting?) && k.msg.Reset?
  }

  ghost predicate NoQueueClient(s: Sys) {
    forall c :: c in s.clients ==> !QueueClient(s.clients[c])
  }

  predicate HasReset(mailbox: seq<Msg>) {
    exists i :: 0 <= i < |mailbox| && mailbox[i].Reset?
  }

  predicate HasInit(mailbox: seq<Msg>) {
    exists i :: 0 <= i < |mailbox| && mailbox[i].Init?
  }

  /** start has been called and has not returned, nor set RUNNING. */
  ghost predicate Starting(s: Sys) {
    HasInit(s.mailbox) || exists c :: c in s.clients && StartClient(s.clients[c])
  }

  /** reset has been called, and the looper thread has not handled it. */
  ghost predicate Resetting(s: Sys) {
    HasReset(s.mailbox) || exists c :: c in s.clients && ResetClient(s.clients[c])
  }

  /** The discipline under which a wake-up cannot be lost: it is only about reset, and release. */
  ghost predicate Disciplined(s: Sys, e: Event) {
    && (e.ResetSet? ==> NoQueueClient(s) && !Starting(s))
    && (e.StartCheck? ==> !Resetting(s))
    && !e.ReleaseCall?
  }

  ghost predicate DisciplinedExecution(flavor: Flavor, tr: seq<Sys>, es: seq<Event>) {
    Execution(flavor, tr, es) && forall i {:trigger es[i]} :: 0 <= i < |es| ==> Disciplined(tr[i], es[i])
  }

  /** What the clients in a call know about the state. */
  ghost predicate CallsInv(s: Sys) {
    && (forall c :: c in s.clients && QueueClient(s.clients[c]) ==> !s.exec.Uninitialized?)
    && (Resetting(s) ==> s.exec.Uninitialized? && !Starting(s))
    && (forall c :: c in s.clients ==> MessageFits(s.exec, c, s.clients[c]))
  }

  predicate MessageFits(exec: Exec, c: nat, k: Client) {
    && (k.Clearing? ==> k.msg == Stop(c) || k.msg == Reset(c))
    && (k.Posting? ==>
          || k.msg == Process || k.msg == Init(c) || k.msg == Stop(c)
          || (k.msg == Start && !exec.Uninitialized?) || k.msg == Reset(c))
  }

  /** A message somebody waits for. */
  predicate CallerMsg(m: Msg) {
    !m.Process? && !m.Start?
  }

  /** The sender of such a message is waiting, and has sent no other. */
  ghost predicate MailInv(s: Sys) {
    && (forall i :: 0 <= i < |s.mailbox| && CallerMsg(s.mailbox[i]) ==>
          !s.mailbox[i].Release? && s.mailbox[i].caller in s.clients && s.clients[s.mailbox[i].caller].Awaiting?)
    && (forall i, j :: 0 <= i < j < |s.mailbox| && CallerMsg(s.mailbox[i]) && CallerMsg(s.mailbox[j]) ==>
          s.mailbox[i].caller != s.mailbox[j].caller)
  }

  /** Taken in order, every process message finds mRunning set, and it is set in the end. */
  predicate Served(running: bool, mailbox: seq<Msg>)
    decreases mailbox
  {
    if mailbox == [] then running else
      match mailbox[0]
      case Process => running && Served(running, mailbox[1..])
      case Init(_) => Served(true, mailbox[1..])
      case Start => Served(true, mailbox[1..])
      case Stop(_) => Served(running, mailbox[1..])
      case Reset(_) => Served(false, mailbox[1..])
      case Release(_) => Served(false, mailbox[1..])
  }

  ghost predicate ServedInv(s: Sys) {
    && (!s.exec.Uninitialized? ==> Served(s.running, s.mailbox))
    && (forall c :: c in s.clients && s.clients[c].Started? ==> Served(s.running, s.mailbox))
  }

  /** While the component is not initialized its queue is empty, or the reset under way will empty it. */
  ghost predicate EmptyInv(s: Sys) {
    s.exec.Uninitialized? && s.q.queue != [] ==> exists c :: c in s.clients && s.clients[c].Clearing? && s.clients[c].msg.Reset?
  }

  /** processQueue is about to look at the queue, or will return true. */
  predicate WillLook(h: Handler) {
    match h
    case Idle => false
    case Entered => true
    case Popped(f) => f.hasQueued
    case Processing(f) => f.hasQueued
    case Finishing(f, _) => f.hasQueued
    case Reporting(_, hasQueued) => hasQueued
    case Leaving(hasQueued) => hasQueued
  }

  ghost predicate AwakeInv(s: Sys) {
    !s.exec.Uninitialized? && s.q.queue != [] ==>
      || Process in s.mailbox
      || (exists c :: c in s.clients && s.clients[c] == Posting(Process))
      || WillLook(s.handler)
  }

  ghost predicate WakeInv(s: Sys) {
    CallsInv(s) && MailInv(s) && ServedInv(s) && EmptyInv(s) && AwakeInv(s)
  }

  lemma {:induction false} ServedAppend(running: bool, mailbox: seq<Msg>, m: Msg)
    requires Served(running, mailbox) && !m.Reset? && !m.Release?
    ensures Served(running, mailbox + [m])
    decreases mailbox
  {
    if mailbox == [] {
      assert mailbox + [m] == [m] && [m][1..] == [];
    } else {
      assert (mailbox + [m])[1..] == mailbox[1..] + [m];
      match mailbox[0] {
        case Process => ServedAppend(running, mailbox[1..], m);
        case Init(_) => ServedAppend(true, mailbox[1..], m);
        case Start => ServedAppend(true, mailbox[1..], m);
        case Stop(_) => ServedAppend(running, mailbox[1..], m);
        case Reset(_) => ServedAppend(false, mailbox[1..], m);
        case Release(_) => ServedAppend(false, mailbox[1..], m);
      }
    }
  }

  lemma {:induction false} ServedQuiet(mailbox: seq<Msg>)
    requires forall i :: 0 <= i < |mailbox| ==> !mailbox[i].Reset? && !mailbox[i].Release?
    ensures Served(true, mailbox)
  {
    if mailbox != [] {
      assert !mailbox[0].Reset? && !mailbox[0].Release?;
      ServedQuiet(mailbox[1..]);
    }
  }

  // ---------------------------------------------------------------- client events

  /** Thread `c` moved on to `k`, or left its call; nobody else's place changed. */
  ghost predicate MovedTo(s: Sys, s': Sys, c: nat, k: Option<Client>) {
    s'.clients == (if k.Some? then s.clients[c := k.value] else s.clients - {c})
  }

  /** A step of thread `c` that starts no call and no reset. */
  lemma CallsMove(s: Sys, s': Sys, c: nat, k: Option<Client>)
    requires CallsInv(s) && c in s.clients && MovedTo(s, s', c, k) && s'.exec == s.exec
    requires HasReset(s'.mailbox) ==> Resetting(s)
    requires HasInit(s'.mailbox) ==> Starting(s)
    requires k.Some? && QueueClient(k.value) ==> QueueClient(s.clients[c])
    requires k.Some? && StartClient(k.value) ==> Starting(s)
    requires k.Some? && ResetClient(k.value) ==> ResetClient(s.clients[c])
    requires k.Some? ==> MessageFits(s.exec, c, k.value)
    ensures CallsInv(s')
  {
    assert forall d :: d in s'.clients && d != c ==> d in s.clients && s'.clients[d] == s.clients[d];
    assert k.Some? ==> s'.clients[c] == k.value;
    if Resetting(s') {
      assert Resetting(s);
    }
    if Starting(s') {
      assert Starting(s);
    }
  }

  lemma CallsClientStep(s: Sys, e: Event)
    requires Enabled(s, e) && !HandlerEvent(e) && Disciplined(s, e) && CallsInv(s)
    ensures CallsInv(Apply(s, e))
  {
    var s' := Apply(s, e);
    match e {
      case SetListener(_) =>
      case QueueSection(c) => CallsMove(s, s', c, if s.q.queue == [] then Some(Posting(Process)) else None);
      case DrainSection(c) => CallsMove(s, s', c, if s.q.queue == [] then Some(Posting(Process)) else None);
      case FlushSection(c) => CallsMove(s, s', c, Some(FlushWaiting(s.q.generation + 1)));
      case FlushReturn(c) => CallsMove(s, s', c, None);
      case ClearSection(c) => CallsMove(s, s', c, Some(Posting(s.clients[c].msg)));
      case Post(c) => CallsPost(s, c);
      case StartDone(c) => CallsStarted(s, c);
      case _ => CallsBegin(s, e);
    }
  }

  lemma CallsPost(s: Sys, c: nat)
    requires Enabled(s, Post(c)) && CallsInv(s)
    ensures CallsInv(Apply(s, Post(c)))
  {
    var s', msg := Posted(s, c), s.clients[c].msg;
    assert Apply(s, Post(c)) == s';
    assert s'.mailbox == s.mailbox + [msg];
    if msg.Reset? {
      assert ResetClient(s.clients[c]);
    }
    if msg.Init? || msg.Start? {
      assert StartClient(s.clients[c]);
    }
    MailGrows(s.mailbox, msg);
    CallsMove(s, s', c, if msg.Process? then None else if msg.Start? then Some(Started) else Some(Awaiting));
  }

  lemma MailGrows(mailbox: seq<Msg>, m: Msg)
    ensures HasReset(mailbox + [m]) <==> HasReset(mailbox) || m.Reset?
    ensures HasInit(mailbox + [m]) <==> HasInit(mailbox) || m.Init?
  {
    var more := mailbox + [m];
    assert more[|mailbox|] == m;
    assert forall i :: 0 <= i < |mailbox| ==> more[i] == mailbox[i];
  }

  lemma MailShrinks(mailbox: seq<Msg>)
    requires mailbox != []
    ensures HasReset(mailbox[1..]) ==> HasReset(mailbox)
    ensures HasInit(mailbox[1..]) ==> HasInit(mailbox)
    ensures mailbox[0].Reset? ==> HasReset(mailbox)
    ensures mailbox[0].Init? ==> HasInit(mailbox)
  {
    assert forall i :: 0 <= i < |mailbox| - 1 ==> mailbox[1..][i] == mailbox[i + 1];
  }

  lemma CallsStarted(s: Sys, c: nat)
    requires Enabled(s, StartDone(c)) && CallsInv(s)
    ensures CallsInv(Apply(s, StartDone(c)))
  {
    var s' := Apply(s, StartDone(c));
    assert StartClient(s.clients[c]) && Starting(s) && !Resetting(s);
    assert forall d :: d in s'.clients ==> d in s.clients && s'.clients[d] == s.clients[d];
    forall d | d in s'.clients ensures MessageFits(s'.exec, d, s'.clients[d]) {
      assert MessageFits(s.exec, d, s.clients[d]);
    }
    assert !Resetting(s');
  }

  /** A thread `c` enters a call. */
  lemma CallsEnter(s: Sys, s': Sys, c: nat, k: Client)
    requires CallsInv(s) && c !in s.clients && s'.clients == s.clients[c := k] && s'.mailbox == s.mailbox
    requires s'.exec == s.exec || (s'.exec.Stopped? && s.exec.Running?) || (s'.exec.Uninitialized? && NoQueueClient(s) && !Starting(s))
    requires StartClient(k) ==> !Resetting(s)
    requires ResetClient(k) ==> s'.exec.Uninitialized? && !Starting(s)
    requires QueueClient(k) ==> s.exec.Running? && s'.exec == s.exec
    requires !(StartClient(k) && ResetClient(k))
    requires MessageFits(s'.exec, c, k)
    ensures CallsInv(s')
  {
    assert forall d :: d in s'.clients && d != c ==> d in s.clients && s'.clients[d] == s.clients[d];
    forall d | d in s'.clients && d != c ensures MessageFits(s'.exec, d, s'.clients[d]) {
      assert MessageFits(s.exec, d, s.clients[d]);
      if s.clients[d].Posting? && s.clients[d].msg == Start {
        assert StartClient(s.clients[d]);
      }
    }
    CallsEnterStates(s, s', c, k);
  }

  lemma CallsEnterStates(s: Sys, s': Sys, c: nat, k: Client)
    requires c !in s.clients && s'.clients == s.clients[c := k] && s'.mailbox == s.mailbox
    ensures Resetting(s') <==> Resetting(s) || ResetClient(k)
    ensures Starting(s') <==> Starting(s) || StartClient(k)
  {
    assert s'.clients[c] == k;
    assert forall d :: d in s.clients ==> d in s'.clients && s'.clients[d] == s.clients[d];
    assert forall d :: d in s'.clients && d != c ==> d in s.clients && s'.clients[d] == s.clients[d];
  }

  lemma CallsBegin(s: Sys, e: Event)
    requires e.QueueCheck? || e.DrainCheck? || e.FlushCheck? || e.StartCheck? || e.StopSet? || e.ResetSet?
    requires Enabled(s, e) && Disciplined(s, e) && CallsInv(s)
    ensures CallsInv(Apply(s, e))
  {
    var s' := Apply(s, e);
    match e {
      case QueueCheck(c, items) => CallsEnter(s, s', c, Queueing(items));
      case DrainCheck(c, mode) => CallsEnter(s, s', c, Draining(mode));
      case FlushCheck(c) => CallsEnter(s, s', c, Flushing);
      case StartCheck(c) => CallsEnter(s, s', c, Posting(if s.exec.Uninitialized? then Init(c) else Start));
      case StopSet(c) => CallsEnter(s, s', c, Clearing(Stop(c)));
      case ResetSet(c) => CallsEnter(s, s', c, Clearing(Reset(c)));
    }
  }

  lemma MailClientStep(s: Sys, e: Event)
    requires Enabled(s, e) && !HandlerEvent(e) && Disciplined(s, e) && CallsInv(s) && MailInv(s)
    ensures MailInv(Apply(s, e))
  {
    ClientFrame(s, e);
    if e.Post? {
      MailPost(s, e.c);
    } else {
      forall c | c in s.clients && s.clients[c].Awaiting?
        ensures c in Apply(s, e).clients && Apply(s, e).clients[c].Awaiting?
      {
        WaitingStays(s, e, c);
      }
    }
  }

  lemma MailPost(s: Sys, c: nat)
    requires Enabled(s, Post(c)) && CallsInv(s) && MailInv(s)
    ensures MailInv(Apply(s, Post(c)))
  {
    assert Apply(s, Post(c)) == Posted(s, c);
    assert MessageFits(s.exec, c, s.clients[c]);
  }

  /** A thread that waits for an answer, or is about to post, does so until its own event comes. */
  lemma WaitingStays(s: Sys, e: Event, c: nat)
    requires Enabled(s, e) && !HandlerEvent(e) && e != Post(c)
    requires c in s.clients && (s.clients[c].Awaiting? || s.clients[c].Posting?)
    ensures c in Apply(s, e).clients && Apply(s, e).clients[c] == s.clients[c]
  {
  }

  lemma ServedClientStep(s: Sys, e: Event)
    requires Enabled(s, e) && !HandlerEvent(e) && Disciplined(s, e) && CallsInv(s) && ServedInv(s)
    ensures ServedInv(Apply(s, e))
  {
    ClientFrame(s, e);
    match e
    case Post(c) =>
      assert Apply(s, e) == Posted(s, c);
      if s.clients[c].msg.Reset? {
        assert ResetClient(s.clients[c]) && Resetting(s);
        assert forall d :: d in s.clients ==> !StartClient(s.clients[d]);
      } else if Served(s.running, s.mailbox) {
        ServedAppend(s.running, s.mailbox, s.clients[c].msg);
      }
    case _ =>
  }

  lemma EmptyClientStep(s: Sys, e: Event)
    requires Enabled(s, e) && !HandlerEvent(e) && Disciplined(s, e) && CallsInv(s) && EmptyInv(s)
    ensures EmptyInv(Apply(s, e))
  {
    var s' := Apply(s, e);
    ClientFrame(s, e);
    match e {
      case Post(c) => assert s' == Posted(s, c);
      case ResetSet(c) => assert s'.clients[c].Clearing? && s'.clients[c].msg.Reset?;
      case _ =>
    }
    if s.exec.Uninitialized? && s.q.queue != [] && s'.exec.Uninitialized? && s'.q.queue != [] {
      var c :| c in s.clients && s.clients[c].Clearing? && s.clients[c].msg.Reset?;
      assert s'.clients[c].Clearing? && s'.clients[c].msg.Reset?;
    }
  }

  lemma AwakeClientStep(s: Sys, e: Event)
    requires Enabled(s, e) && !HandlerEvent(e) && Disciplined(s, e) && CallsInv(s) && EmptyInv(s) && AwakeInv(s)
    ensures AwakeInv(Apply(s, e))
  {
    ClientFrame(s, e);
    if e.Post? {
      AwakePost(s, e.c);
    } else if e.QueueSection? || e.DrainSection? {
      AwakeQueueing(s, e);
    } else {
      if e.StartDone? {
        StartedEmpty(s, e.c);
      }
      if exists c :: c in s.clients && s.clients[c] == Posting(Process) {
        PosterStays(s, e);
      }
    }
  }

  lemma PosterStays(s: Sys, e: Event)
    requires Enabled(s, e) && !HandlerEvent(e) && !e.Post?
    requires exists c :: c in s.clients && s.clients[c] == Posting(Process)
    ensures exists c :: c in Apply(s, e).clients && Apply(s, e).clients[c] == Posting(Process)
  {
    var c :| c in s.clients && s.clients[c] == Posting(Process);
    WaitingStays(s, e, c);
  }

  lemma AwakePost(s: Sys, c: nat)
    requires Enabled(s, Post(c)) && AwakeInv(s)
    ensures AwakeInv(Apply(s, Post(c)))
  {
    var s' := Posted(s, c);
    assert Apply(s, Post(c)) == s';
    assert s'.mailbox[|s.mailbox|] == s.clients[c].msg;
    assert forall m :: m in s.mailbox ==> m in s'.mailbox;
    if d :| d in s.clients && s.clients[d] == Posting(Process) && d != c {
      WaitingStays(s, Post(c), d);
    }
  }

  /** Queueing into an empty queue leaves the thread about to post; otherwise somebody is awake already. */
  lemma AwakeQueueing(s: Sys, e: Event)
    requires (e.QueueSection? || e.DrainSection?) && Enabled(s, e) && AwakeInv(s)
    ensures AwakeInv(Apply(s, e))
  {
    ClientFrame(s, e);
    if s.q.queue == [] {
      assert Apply(s, e).clients[e.c] == Posting(Process);
    } else if exists c :: c in s.clients && s.clients[c] == Posting(Process) {
      PosterStays(s, e);
    }
  }

  /** A component that start finds uninitialized has nothing queued. */
  lemma StartedEmpty(s: Sys, c: nat)
    requires c in s.clients && s.clients[c].Started? && CallsInv(s) && EmptyInv(s)
    ensures s.exec.Uninitialized? ==> s.q.queue == []
  {
    assert StartClient(s.clients[c]) && Starting(s);
    assert forall d :: d in s.clients ==> !ResetClient(s.clients[d]);
  }

  // ---------------------------------------------------------------- looper thread

  lemma DispatchStep(s: Sys, initOk: bool)
    requires Enabled(s, Dispatch(initOk)) && WakeInv(s)
    ensures WakeInv(Apply(s, Dispatch(initOk)))
  {
    assert Apply(s, Dispatch(initOk)) == Dispatched(s, initOk);
    DispatchCalls(s, initOk);
    DispatchMail(s, initOk);
    DispatchServed(s, initOk);
    DispatchAwake(s, initOk);
  }

  lemma DispatchCalls(s: Sys, initOk: bool)
    requires Enabled(s, Dispatch(initOk)) && WakeInv(s)
    ensures CallsInv(Dispatched(s, initOk))
  {
    var s', m := Dispatched(s, initOk), s.mailbox[0];
    DispatchFrame(s, initOk);
    MailShrinks(s.mailbox);
    match m {
      case Process => FewerMessages(s, s');
      case Start => FewerMessages(s, s');
      case Release(_) => assert CallerMsg(m);
      case Init(c) => assert CallerMsg(m); CallsMove(s, s', c, if initOk then Some(Started) else None);
      case Stop(c) => assert CallerMsg(m); CallsMove(s, s', c, None);
      case Reset(c) => assert CallerMsg(m); CallsMove(s, s', c, None);
    }
  }

  lemma FewerMessages(s: Sys, s': Sys)
    requires CallsInv(s) && s'.clients == s.clients && s'.exec == s.exec
    requires (HasReset(s'.mailbox) ==> HasReset(s.mailbox)) && (HasInit(s'.mailbox) ==> HasInit(s.mailbox))
    ensures CallsInv(s')
  {
    assert Resetting(s') ==> Resetting(s);
    assert Starting(s') ==> Starting(s);
  }

  lemma DispatchMail(s: Sys, initOk: bool)
    requires Enabled(s, Dispatch(initOk)) && WakeInv(s)
    ensures MailInv(Dispatched(s, initOk))
  {
    var s', m := Dispatched(s, initOk), s.mailbox[0];
    DispatchFrame(s, initOk);
    assert s'.mailbox == s.mailbox[1..];
    forall i | 0 <= i < |s'.mailbox| && CallerMsg(s'.mailbox[i])
      ensures !s'.mailbox[i].Release? && s'.mailbox[i].caller in s'.clients && s'.clients[s'.mailbox[i].caller].Awaiting?
    {
      assert s'.mailbox[i] == s.mailbox[i + 1];
      if CallerMsg(m) {
        assert m.caller != s.mailbox[i + 1].caller;
      }
    }
  }

  lemma DispatchServed(s: Sys, initOk: bool)
    requires Enabled(s, Dispatch(initOk)) && WakeInv(s)
    ensures ServedInv(Dispatched(s, initOk))
  {
    var s', m := Dispatched(s, initOk), s.mailbox[0];
    DispatchFrame(s, initOk);
    MailShrinks(s.mailbox);
    if m.Init? {
      assert Starting(s) && !Resetting(s);
      forall i | 0 <= i < |s'.mailbox| ensures !s'.mailbox[i].Reset? && !s'.mailbox[i].Release? {
        assert s'.mailbox[i] == s.mailbox[i + 1];
      }
      ServedQuiet(s'.mailbox);
    } else if m.Reset? {
      assert Resetting(s);
      assert forall d :: d in s.clients ==> !StartClient(s.clients[d]);
    } else if m.Release? {
      assert CallerMsg(m);
    }
  }

  lemma DispatchAwake(s: Sys, initOk: bool)
    requires Enabled(s, Dispatch(initOk)) && WakeInv(s)
    ensures EmptyInv(Dispatched(s, initOk)) && AwakeInv(Dispatched(s, initOk))
  {
    var s' := Dispatched(s, initOk);
    DispatchFrame(s, initOk);
    assert forall m :: m in s.mailbox ==> m == s.mailbox[0] || m in s'.mailbox;
    forall c | c in s.clients && !s.clients[c].Awaiting?
      ensures c in s'.clients && s'.clients[c] == s.clients[c]
    {
      assert CallerMsg(s.mailbox[0]) ==> s.mailbox[0].caller != c;
    }
  }

  lemma HandlerAwake(s: Sys, e: Event)
    requires Enabled(s, e) && HandlerEvent(e) && !e.Dispatch? && !e.Leave? && WakeInv(s)
    ensures WakeInv(Apply(s, e))
  {
    var s' := Apply(s, e);
    HandlerFrame(s, e);
    HandlerLooks(s, e);
    assert CallsInv(s') && MailInv(s') && ServedInv(s');
  }

  lemma HandlerLooks(s: Sys, e: Event)
    requires Enabled(s, e) && HandlerEvent(e) && !e.Dispatch? && !e.Leave?
    ensures var s' := Apply(s, e);
      if e.PopSection? then s'.q.queue != [] ==> s.q.queue != [] && WillLook(s'.handler)
      else s'.q.queue == s.q.queue && WillLook(s'.handler) == WillLook(s.handler)
    ensures e.PopSection? && s.q.queue == [] ==> Apply(s, e).q.queue == []
  {
    if e.Prepare? {
      assert Apply(s, e) == Prepared(s, e.poolOk);
    } else if e.FinishTake? || e.CommitSection? {
      SectionLooks(s, e);
    }
  }

  lemma SectionLooks(s: Sys, e: Event)
    requires e.FinishTake? || e.CommitSection?
    requires Enabled(s, e)
    ensures Apply(s, e).q.queue == s.q.queue && WillLook(Apply(s, e).handler) == WillLook(s.handler)
  {
  }

  lemma LeaveAwake(s: Sys)
    requires Enabled(s, Leave) && WakeInv(s)
    ensures WakeInv(Apply(s, Leave))
  {
    var s' := Apply(s, Leave);
    if s.handler.hasQueued {
      if Served(s.running, s.mailbox) {
        ServedAppend(s.running, s.mailbox, Process);
      }
      MailGrows(s.mailbox, Process);
      assert s'.mailbox[|s.mailbox|] == Process;
    }
    FewerMessages(s, s');
  }

  lemma {:induction false} WakeAlways(flavor: Flavor, tr: seq<Sys>, es: seq<Event>, i: nat)
    requires DisciplinedExecution(flavor, tr, es) && i < |tr|
    ensures WakeInv(tr[i])
  {
    if i > 0 {
      WakeAlways(flavor, tr, es, i - 1);
      var s, e := tr[i - 1], es[i - 1];
      if !HandlerEvent(e) {
        CallsClientStep(s, e);
        MailClientStep(s, e);
        ServedClientStep(s, e);
        EmptyClientStep(s, e);
        AwakeClientStep(s, e);
      } else if e.Dispatch? {
        DispatchStep(s, e.initOk);
      } else if e.Leave? {
        LeaveAwake(s);
      } else {
        HandlerAwake(s, e);
      }
    }
  }

  /**
   * No lost wake-up, in every state of every disciplined execution: while the component is initialized and work
   * is queued, a process message is in the mailbox, or a client is about to post one, or the looper thread
   * is going to look again; and every process message now in the mailbox will be served.
   */
  lemma NoLostWakeUp(flavor: Flavor, tr: seq<Sys>, es: seq<Event>, i: nat)
    requires DisciplinedExecution(flavor, tr, es) && i < |tr|
    requires !tr[i].exec.Uninitialized? && tr[i].q.queue != []
    ensures Process in tr[i].mailbox
         || (exists c :: c in tr[i].clients && tr[i].clients[c] == Posting(Process))
         || WillLook(tr[i].handler)
    ensures Served(tr[i].running, tr[i].mailbox)
  {
    WakeAlways(flavor, tr, es, i);
  }

  // ---------------------------------------------------------------- the looper thread alone

  /**
   * A step of the looper thread that gets something done: a callback that asks for an unknown index, or
   * sends a clone, changes nothing the component depends on, and a decoder makes finitely many of them.
   */
  ghost predicate Productive(s: Sys, e: Event) {
    HandlerEvent(e) && Enabled(s, e) && !e.CloneSend? && (e.FinishTake? ==> e.index in s.q.pending)
  }

  /** The clients are done queueing; the listener is there. */
  ghost predicate Settled(s: Sys) {
    WakeInv(s) && !s.exec.Uninitialized? && s.listener && NoQueueClient(s)
  }

  function Weight(h: Handler): nat {
    match h
    case Idle => 0
    case Entered => 2
    case Popped(_) => 11
    case Processing(_) => 9
    case Finishing(_, _) => 10
    case Reporting(_, _) => 6
    case Leaving(hasQueued) => if hasQueued then 5 else 1
  }

  ghost function Rank(s: Sys): nat {
    4 * |s.mailbox| + 2 * |s.q.pending.Keys| + Weight(s.handler)
  }

  /** Each productive step shortens the queue, or leaves it alone and lowers the rank. */
  lemma ProductiveStep(s: Sys, e: Event)
    requires Productive(s, e)
    ensures var s' := Apply(s, e);
      |s'.q.queue| < |s.q.queue| || (s'.q.queue == s.q.queue && Rank(s') < Rank(s))
  {
    if e.PopSection? || e.FinishTake? || e.CommitSection? {
      SectionRank(s, e);
    } else {
      var s' := Apply(s, e);
      HandlerFrame(s, e);
      match e {
        case Dispatch(initOk) => DispatchFrame(s, initOk);
        case Prepare(poolOk) => assert s' == Prepared(s, poolOk);
        case _ =>
      }
    }
  }

  lemma SectionRank(s: Sys, e: Event)
    requires e.PopSection? || e.FinishTake? || e.CommitSection?
    requires Productive(s, e)
    ensures var s' := Apply(s, e);
      |s'.q.queue| < |s.q.queue| || (s'.q.queue == s.q.queue && Rank(s') < Rank(s))
  {
    match e
    case PopSection =>
    case FinishTake(index) => TakeRank(s, index);
    case CommitSection(w) => ParkRank(s, w);
  }

  lemma TakeRank(s: Sys, index: FrameIndex)
    requires Productive(s, FinishTake(index))
    ensures var s' := Apply(s, FinishTake(index)); s'.q.queue == s.q.queue && Rank(s') < Rank(s)
  {
    FewerKeys(s.q.pending, index);
    var s' := Apply(s, FinishTake(index));
    assert s'.mailbox == s.mailbox && s'.q.queue == s.q.queue && s'.handler.Finishing?;
  }

  lemma FewerKeys(m: map<FrameIndex, Work>, k: FrameIndex)
    requires k in m
    ensures |(m - {k}).Keys| == |m.Keys| - 1
  {
    assert (m - {k}).Keys == m.Keys - {k};
  }

  lemma ParkRank(s: Sys, w: Work)
    requires Productive(s, CommitSection(w))
    ensures var s' := Apply(s, CommitSection(w)); s'.q.queue == s.q.queue && Rank(s') < Rank(s)
  {
    CommitRank(s.q, s.handler.f.generation, w);
    assert Apply(s, CommitSection(w)).mailbox == s.mailbox;
  }

  lemma CommitRank(q: QueueState, generation: nat, w: Work)
    ensures |CommitQueue(q, generation, w).pending.Keys| <= |q.pending.Keys| + 1
  {
    var q' := CommitQueue(q, generation, w);
    assert q'.pending.Keys <= q.pending.Keys + {w.frameIndex};
    if w.frameIndex in q.pending {
      assert q'.pending.Keys == q.pending.Keys;
    } else if q' != q {
      assert q'.pending.Keys == q.pending.Keys + {w.frameIndex};
    }
  }

  lemma SettledStep(s: Sys, e: Event)
    requires Settled(s) && Productive(s, e)
    ensures Settled(Apply(s, e))
  {
    HandlerFrame(s, e);
    if e.Dispatch? {
      DispatchStep(s, e.initOk);
      DispatchClients(s, e.initOk);
    } else if e.Leave? {
      LeaveAwake(s);
    } else {
      HandlerAwake(s, e);
    }
  }

  /** With work queued and the clients gone, the looper thread has something to do. */
  lemma SomethingToDo(s: Sys) returns (e: Event)
    requires Settled(s) && s.q.queue != []
    ensures Productive(s, e)
  {
    match s.handler {
      case Idle => e := Dispatch(true);
      case Entered => e := PopSection;
      case Popped(_) => e := Prepare(true);
      case Processing(f) => e := if f.work.Some? then CommitSection(f.work.value) else DrainDone;
      case Finishing(_, held) => e := FinishDeliver(held);
      case Reporting(_, _) => e := Report;
      case Leaving(_) => e := Leave;
    }
  }

  /** However the looper thread goes on from `s` with nobody else moving, it finds the queue empty in the end. */
  least predicate Empties(s: Sys) {
    s.q.queue == [] ||
    ((exists e :: Productive(s, e)) && forall e :: Productive(s, e) ==> Empties(Apply(s, e)))
  }

  lemma {:induction false} HandlerEmptiesTheQueue(s: Sys)
    requires Settled(s)
    ensures Empties(s)
    decreases |s.q.queue|, Rank(s)
  {
    if s.q.queue != [] {
      var next := SomethingToDo(s);
      assert Productive(s, next);
      forall e | Productive(s, e) ensures Empties(Apply(s, e)) {
        ProductiveStep(s, e);
        SettledStep(s, e);
        HandlerEmptiesTheQueue(Apply(s, e));
      }
    }
  }

  /** Once the clients are done queueing, every continuation by the looper thread empties the queue. */
  lemma QueueIsEmptiedInTheEnd(flavor: Flavor, tr: seq<Sys>, es: seq<Event>, i: nat)
    requires DisciplinedExecution(flavor, tr, es) && i < |tr|
    requires !tr[i].exec.Uninitialized? && tr[i].listener && NoQueueClient(tr[i])
    ensures Empties(tr[i])
  {
    WakeAlways(flavor, tr, es, i);
    HandlerEmptiesTheQueue(tr[i]);
  }
}
