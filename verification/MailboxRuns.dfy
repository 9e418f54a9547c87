/** What holds of the mailbox over whole runs, whatever the threads do and however their steps interleave. */
module MailboxRuns {
  import opened Pointers
  import opened Mailbox
  import opened MailboxSafety
  import opened MailboxFrames

  /** An empty list with its dummy node, and threads that have not started anything. */
  function Start(dummy: Address, threads: set<Thread>): State {
    State(map[dummy := Node(Null, Null)], dummy, dummy, 0, Null, Null, [], map t | t in threads :: Idle,
          History([], [dummy], 0, 0, 0, 0, [], {}))
  }

  lemma StartHolds(dummy: Address, threads: set<Thread>)
    ensures Inv(Start(dummy, threads))
  {
    var s := Start(dummy, threads);
    assert Tokens(s) == {};
  }

  // ---- one step ----

  lemma IdleKeeps(s: State, t: Thread, c: Choice)
    requires Inv(s) && t in s.pcs && s.pcs[t].Idle?
    ensures Step(s, t, c).Moved? || Step(s, t, c).Disabled?
    ensures Step(s, t, c).Moved? ==> Inv(Step(s, t, c).s)
  {
    hide Inv;
    match c
    case StartPut(n, m, post) => if n !in s.mem { StartPutKeeps(s, t, n, m, post); }
    case Take(i) => if i < |s.queue| { TakeKeeps(s, t, i); }
    case _ =>
  }

  lemma PutKeeps(s: State, t: Thread, c: Choice)
    requires Inv(s) && t in s.pcs
    requires var pc := s.pcs[t]; InTail(pc) || pc.PutReady? || pc.PutDone? || pc.Posting?
    ensures !Step(s, t, c).Fault?
    ensures Step(s, t, c).Moved? ==> Inv(Step(s, t, c).s)
  {
    hide Inv;
    if c.Go? {
      match s.pcs[t]
      case PutReady(n, m, post) => if s.lockT.Null? { LockTailKeeps(s, t, n, m, post); }
      case PutLocked(n, m, post) => LinkKeeps(s, t, n, m, post);
      case PutLinked(n, m, post) => MoveTailKeeps(s, t, n, m, post);
      case PutMoved(n, m, post) => IncrementKeeps(s, t, n, m, post);
      case PutCounted(m, post, size) => UnlockTailKeeps(s, t, m, post, size);
      case PutDone(m, post, size) => AfterPutKeeps(s, t, m, post, size);
      case Posting(m) => PostKeeps(s, t, m);
    }
  }

  lemma CallKeeps(s: State, t: Thread, c: Choice)
    requires Inv(s) && t in s.pcs && !DropsToken(s, t, c)
    requires var pc := s.pcs[t]; pc.Holding? || pc.Looping? || pc.Calling? || pc.Called?
    ensures !Step(s, t, c).Fault?
    ensures Step(s, t, c).Moved? ==> Inv(Step(s, t, c).s)
  {
    hide Inv;
    match s.pcs[t]
    case Holding(m) =>
      if c.Go? {
        LoopKeeps(s, t, m);
      } else if c.RunInline? {
        BeginCallKeeps(s, t, m, true);
      }
    case Looping(m) =>
      if c.Go? {
        BeginCallKeeps(s, t, m, false);
      }
    case Calling(m, inline) =>
      if c.Return? {
        ReturnKeeps(s, t, m, inline, c.res);
      }
    case Called(m, inline, res) =>
      if c.Decide? {
        AfterCallKeeps(s, t, m, inline, res, c.exhausted);
      }
  }

  lemma LoopKeeps(s: State, t: Thread, m: Msg)
    requires Inv(s) && t in s.pcs && s.pcs[t] == Holding(m)
    ensures Inv(s.At(t, Looping(m)))
  {
    assert Relies(s, s.pcs[t]);
    hide Chain, Ordered, Tokens;
    QuietStep(s, s.At(t, Looping(m)), t);
  }

  lemma ReturnKeeps(s: State, t: Thread, m: Msg, inline: bool, res: Result)
    requires Inv(s) && t in s.pcs && s.pcs[t] == Calling(m, inline)
    ensures Inv(s.At(t, Called(m, inline, res)))
  {
    assert Relies(s, s.pcs[t]);
    hide Chain, Ordered, Tokens;
    QuietStep(s, s.At(t, Called(m, inline, res)), t);
  }

  lemma GetKeeps(s: State, t: Thread, c: Choice)
    requires Inv(s) && t in s.pcs
    requires var pc := s.pcs[t]; InHead(pc) || pc.GetWaiting? || pc.PeekStart? || pc.PeekRead? || pc.Stale?
    ensures !Step(s, t, c).Fault?
    ensures Step(s, t, c).Moved? ==> Inv(Step(s, t, c).s)
  {
    hide Inv;
    if c.Go? {
      match s.pcs[t]
      case GetWaiting(why) => if s.lockH.Null? { LockHeadKeeps(s, t, why); }
      case GetLocked(why) => ReadHeadKeeps(s, t, why);
      case GetRead(why, head, next) => DecrementKeeps(s, t, why, head, next);
      case GetCounted(why, head, next, size) => MoveHeadKeeps(s, t, why, head, next, size);
      case GetMoved(why, head, elem, size) => ReleaseKeeps(s, t, why, head, elem, size);
      case GetFreed(why, elem, size) => UnlockHeadKeeps(s, t, why, elem, size);
      case PeekStart(why) => PeekStartKeeps(s, t, why);
      case PeekRead(why, head) => PeekKeeps(s, t, why, head);
      case Stale(elem) => FinishKeeps(s, t, elem);
    }
  }

  lemma FinishKeeps(s: State, t: Thread, elem: Pointer<Msg>)
    requires Inv(s) && t in s.pcs && s.pcs[t] == Stale(elem)
    ensures Inv(s.At(t, Idle))
  {
    hide Chain, Ordered, Tokens;
    QuietStep(s, s.At(t, Idle), t);
  }

  lemma StepKeeps(s: State, t: Thread, c: Choice)
    requires Inv(s) && t in s.pcs && !DropsToken(s, t, c)
    ensures !Step(s, t, c).Fault?
    ensures Step(s, t, c).Moved? ==> Inv(Step(s, t, c).s)
  {
    hide Inv;
    var pc := s.pcs[t];
    if pc.Idle? {
      IdleKeeps(s, t, c);
    } else if InTail(pc) || pc.PutReady? || pc.PutDone? || pc.Posting? {
      PutKeeps(s, t, c);
    } else if pc.Holding? || pc.Looping? || pc.Calling? || pc.Called? {
      CallKeeps(s, t, c);
    } else {
      GetKeeps(s, t, c);
    }
  }

  lemma StepNeverFaults(s: State, t: Thread, c: Choice)
    requires Inv(s) && t in s.pcs
    ensures !Step(s, t, c).Fault?
  {
    hide Inv;
    if !DropsToken(s, t, c) {
      StepKeeps(s, t, c);
    }
  }

  /** A step keeps the invariant exactly if no functor asks to end, or to keep and delete its message at once. */
  lemma StepKeepsIff(s: State, t: Thread, c: Choice)
    requires Inv(s) && t in s.pcs && Step(s, t, c).Moved?
    ensures Inv(Step(s, t, c).s) <==> !DropsToken(s, t, c)
  {
    if DropsToken(s, t, c) {
      DroppedTokenBreaks(s, t, c);
    } else {
      StepKeeps(s, t, c);
    }
  }

  // ---- runs ----

  datatype Action = Action(t: Thread, c: Choice)

  /** An action that its thread cannot do now is passed over. */
  function Next(s: State, a: Action): State {
    if a.t in s.pcs && Step(s, a.t, a.c).Moved? then Step(s, a.t, a.c).s else s
  }

  function Run(s: State, acts: seq<Action>): State
    decreases |acts|
  {
    if acts == [] then s else Run(Next(s, acts[0]), acts[1..])
  }

  /** No functor of the run drops the token. */
  predicate TokenKept(s: State, acts: seq<Action>)
    decreases |acts|
  {
    acts != [] ==>
      && !(acts[0].t in s.pcs && DropsToken(s, acts[0].t, acts[0].c))
      && TokenKept(Next(s, acts[0]), acts[1..])
  }

  lemma {:induction false} RunKeeps(s: State, acts: seq<Action>)
    requires Inv(s) && TokenKept(s, acts)
    ensures Inv(Run(s, acts))
    decreases |acts|
  {
    hide Inv, DropsToken, Step;
    if acts != [] {
      if acts[0].t in s.pcs {
        StepKeeps(s, acts[0].t, acts[0].c);
      }
      RunKeeps(Next(s, acts[0]), acts[1..]);
    }
  }

  /** The owner of the right to execute: one thread, or one entry of the dispatch queue. */
  ghost predicate OneOwner(s: State) {
    || (s.queue == [] && exists t :: Tokens(s) == {t})
    || (|s.queue| == 1 && Tokens(s) == {})
  }

  lemma OwnerIffCounted(s: State)
    requires Inv(s)
    ensures s.size > 0 ==> OneOwner(s)
    ensures s.size == 0 ==> s.queue == [] && Tokens(s) == {}
    ensures s.size >= 0
  {
    hide Chain, TailLock, HeadLock, Threads, Ordered;
    if s.size > 0 && s.queue == [] {
      var u := OnlyMember(Tokens(s));
    }
  }

  lemma OnlyMember<T>(s: set<T>) returns (x: T)
    requires |s| == 1
    ensures s == {x}
  {
    x :| x in s;
    assert |s - {x}| == 0;
    assert s == {x} + (s - {x});
  }

  /** On a run that keeps the token: one owner while messages are counted, none otherwise, no two functors at once. */
  lemma EveryRunHasOneOwner(dummy: Address, threads: set<Thread>, acts: seq<Action>)
    requires TokenKept(Start(dummy, threads), acts)
    ensures var s := Run(Start(dummy, threads), acts);
            && s.size == s.past.counted - s.past.popped >= 0
            && (s.size > 0 ==> OneOwner(s)) && (s.size == 0 ==> s.queue == [] && Tokens(s) == {})
            && (forall t, u :: t in s.pcs && u in s.pcs && s.pcs[t].Calling? && s.pcs[u].Calling? ==> t == u)
  {
    StartHolds(dummy, threads);
    RunKeeps(Start(dummy, threads), acts);
    var s := Run(Start(dummy, threads), acts);
    hide Run, TokenKept;
    OwnerIffCounted(s);
    hide TailLock, HeadLock, Threads, Ordered, OneOwner;
    forall t, u | t in s.pcs && u in s.pcs && s.pcs[t].Calling? && s.pcs[u].Calling?
      ensures t == u
    {
      TokenIsAlone(s, t);
    }
  }

  // ---- after a token is dropped ----

  /** A state that has forgotten its owner: with one more thread as the owner, about to pop, the invariant holds. */
  ghost predicate Haunted(s: State, g: Thread) {
    g !in s.pcs && Inv(s.At(g, GetWaiting(ToRun)))
  }

  ghost predicate Safe(s: State) {
    Inv(s) || exists g :: Haunted(s, g)
  }

  lemma {:induction false} NewThread(threads: set<Thread>) returns (g: Thread)
    ensures forall t :: t in threads ==> t < g
  {
    if threads == {} {
      g := 0;
    } else {
      var t :| t in threads;
      var h := NewThread(threads - {t});
      g := if h <= t then t + 1 else h;
      assert forall u :: u in threads ==> u == t || u in threads - {t};
    }
  }

  /** The right to execute may as well be another thread's. */
  lemma PassOn(s: State, t: Thread, g: Thread)
    requires t in s.pcs && s.pcs[t].Idle? && g !in s.pcs && Inv(s.At(t, GetWaiting(ToRun)))
    ensures Haunted(s, g)
  {
    hide OneToken, Threads, Ordered, Chain, TailLock, HeadLock;
    PassTokens(s, t, g);
    PassThreads(s, t, g);
    PassLocks(s, t, g);
    PassOrdered(s, t, g);
  }

  lemma PassLocks(s: State, t: Thread, g: Thread)
    requires t in s.pcs && s.pcs[t].Idle? && g !in s.pcs
    requires var a := s.At(t, GetWaiting(ToRun)); Chain(a) && TailLock(a) && HeadLock(a)
    ensures var b := s.At(g, GetWaiting(ToRun)); Chain(b) && TailLock(b) && HeadLock(b)
  {
    var a, b := s.At(t, GetWaiting(ToRun)), s.At(g, GetWaiting(ToRun));
    assert Chain(b);
    hide Chain, TailSettled, HeadSettled;
    assert forall u :: u in s.pcs && u != t ==> u in a.pcs && a.pcs[u] == s.pcs[u] == b.pcs[u];
  }

  lemma PassOrdered(s: State, t: Thread, g: Thread)
    requires g !in s.pcs && Ordered(s.At(t, GetWaiting(ToRun)))
    ensures Ordered(s.At(g, GetWaiting(ToRun)))
  {
    hide CallOrder;
    assert BeforePop(s.At(g, GetWaiting(ToRun)).pcs[g]);
  }

  lemma PassTokens(s: State, t: Thread, g: Thread)
    requires t in s.pcs && s.pcs[t].Idle? && g !in s.pcs && OneToken(s.At(t, GetWaiting(ToRun)))
    ensures OneToken(s.At(g, GetWaiting(ToRun)))
  {
    var a, b := s.At(t, GetWaiting(ToRun)), s.At(g, GetWaiting(ToRun));
    TokenIsAlone(a, t);
    forall u
      ensures u in Tokens(b) <==> u == g
    {
      if u in s.pcs && u != t {
        assert a.pcs[u] == s.pcs[u] == b.pcs[u];
      }
    }
    assert Tokens(b) == {g};
  }

  lemma PassThreads(s: State, t: Thread, g: Thread)
    requires t in s.pcs && s.pcs[t].Idle? && g !in s.pcs && Threads(s.At(t, GetWaiting(ToRun)))
    ensures Threads(s.At(g, GetWaiting(ToRun)))
  {
    var a, b := s.At(t, GetWaiting(ToRun)), s.At(g, GetWaiting(ToRun));
    hide Relies, IsFirst, Prepares;
    assert !Prepares(GetWaiting(ToRun)) && !Prepares(Idle) && Relies(b, Idle) by { IdleRelies(b); }
    assert forall m :: IsFirst(a, m) == IsFirst(b, m) by { FirstReads(a, b); }
    assert forall u :: u in s.pcs && u != t ==> u in a.pcs && a.pcs[u] == s.pcs[u] == b.pcs[u];
    forall u | u in b.pcs
      ensures Relies(b, b.pcs[u])
    {
      ReliesReads(a, b, b.pcs[u]);
      assert u == g ==> b.pcs[u] == a.pcs[t];
    }
  }

  lemma IdleRelies(s: State)
    ensures Relies(s, Idle) && !Prepares(Idle) && !Prepares(GetWaiting(ToRun))
  {
  }

  lemma FirstReads(s: State, s': State)
    requires s'.past == s.past
    ensures forall m :: IsFirst(s, m) == IsFirst(s', m)
  {
  }

  lemma DropHaunts(s: State, t: Thread, c: Choice) returns (g: Thread)
    requires Inv(s) && t in s.pcs && DropsToken(s, t, c)
    ensures Step(s, t, c).Moved? && Haunted(Step(s, t, c).s, g)
  {
    var m, res := s.pcs[t].m, s.pcs[t].res;
    var r := Result(false, false, !res.end && res.del, false);
    var s' := Step(s, t, c).s;
    hide Inv;
    ReturnOther(s, t, m, res, r);
    AfterCallKeeps(s.At(t, Called(m, false, r)), t, m, false, r, false);
    DropIsPop(s, t, c, m, res, r);
    hide AfterCall, Step, DropsToken;
    g := NewThread(s'.pcs.Keys);
    PassOn(s', t, g);
  }

  /** Dropping the token does what going on to pop does, but for the thread that has it then. */
  lemma DropIsPop(s: State, t: Thread, c: Choice, m: Msg, res: Result, r: Result)
    requires t in s.pcs && DropsToken(s, t, c) && s.pcs[t] == Called(m, false, res)
    requires r == Result(false, false, !res.end && res.del, false)
    ensures var s1, o := s.At(t, Called(m, false, r)), Step(s, t, c);
            && o.Moved? && t in o.s.pcs && o.s.pcs[t].Idle?
            && AfterCall(s1, t, m, false, r, false) == Moved(o.s.At(t, GetWaiting(ToRun)))
  {
    var x := GetWaiting(ToRun);
    assert s.pcs[t := Called(m, false, r)][t := x] == s.pcs[t := Idle][t := x];
  }

  lemma ReturnOther(s: State, t: Thread, m: Msg, res: Result, r: Result)
    requires Inv(s) && t in s.pcs && s.pcs[t] == Called(m, false, res)
    ensures Inv(s.At(t, Called(m, false, r)))
  {
    assert Relies(s, s.pcs[t]);
    hide Chain, Ordered, Tokens;
    QuietStep(s, s.At(t, Called(m, false, r)), t);
  }

  lemma StepSafe(s: State, t: Thread, c: Choice)
    requires Safe(s) && t in s.pcs
    ensures !Step(s, t, c).Fault?
    ensures Step(s, t, c).Moved? ==> Safe(Step(s, t, c).s)
  {
    hide Inv, Step;
    if Inv(s) {
      StepNeverFaults(s, t, c);
      if DropsToken(s, t, c) {
        var g := DropHaunts(s, t, c);
      } else {
        StepKeeps(s, t, c);
      }
    } else {
      var g :| Haunted(s, g);
      var s1 := s.At(g, GetWaiting(ToRun));
      GhostOwnsToken(s, g, t, c);
      StepKeeps(s1, t, c);
      StepFrames(s, t, c, g, GetWaiting(ToRun));
      StepAddsNoThread(s, t, c, g);
      assert Step(s, t, c).Moved? ==> Haunted(Step(s, t, c).s, g);
    }
  }

  lemma GhostOwnsToken(s: State, g: Thread, t: Thread, c: Choice)
    requires Haunted(s, g) && t in s.pcs
    ensures !HasToken(s.pcs[t]) && !DropsToken(s.At(g, GetWaiting(ToRun)), t, c)
  {
    var s1 := s.At(g, GetWaiting(ToRun));
    assert s1.pcs[t] == s.pcs[t];
    hide Chain, TailLock, HeadLock, Threads, Ordered, Tokens;
    TokenIsAlone(s1, g);
  }

  lemma {:induction false} RunSafe(s: State, acts: seq<Action>)
    requires Safe(s)
    ensures Safe(Run(s, acts))
    decreases |acts|
  {
    hide Safe, Step;
    if acts != [] {
      if acts[0].t in s.pcs {
        StepSafe(s, acts[0].t, acts[0].c);
      }
      RunSafe(Next(s, acts[0]), acts[1..]);
    }
  }

  lemma EveryRunIsSafe(dummy: Address, threads: set<Thread>, acts: seq<Action>)
    ensures Safe(Run(Start(dummy, threads), acts))
  {
    StartHolds(dummy, threads);
    hide Inv;
    RunSafe(Start(dummy, threads), acts);
  }

  /** On every run, no thread goes through a pointer to a node that has been released, whatever functors return. */
  lemma NeverUsesReleasedNode(dummy: Address, threads: set<Thread>, acts: seq<Action>, t: Thread, c: Choice)
    requires t in Run(Start(dummy, threads), acts).pcs
    ensures !Step(Run(Start(dummy, threads), acts), t, c).Fault?
  {
    hide Safe, Step, Run;
    EveryRunIsSafe(dummy, threads, acts);
    StepSafe(Run(Start(dummy, threads), acts), t, c);
  }

  /** On every run, no two functors run at once, whatever they return. */
  lemma FunctorsNeverOverlap(dummy: Address, threads: set<Thread>, acts: seq<Action>, t: Thread, u: Thread)
    requires var s := Run(Start(dummy, threads), acts);
      t in s.pcs && u in s.pcs && s.pcs[t].Calling? && s.pcs[u].Calling?
    ensures t == u
  {
    var s := Run(Start(dummy, threads), acts);
    EveryRunIsSafe(dummy, threads, acts);
    hide Run, Chain, TailLock, HeadLock, Threads, Ordered;
    if Inv(s) {
      TokenIsAlone(s, t);
    } else {
      var g :| Haunted(s, g);
      hide Inv, Haunted;
      GhostOwnsToken(s, g, t, Go);
    }
  }

  // ---- the order of execution ----

  lemma {:induction false} CallsClimb(p: History, j: nat, k: nat)
    requires CallOrder(p) && j <= k < |p.calls|
    ensures p.calls[j].pos <= p.calls[k].pos
  {
    if j < k {
      CallsClimb(p, j, k - 1);
    }
  }

  ghost predicate WasCalled(p: History, pos: nat) {
    exists k :: 0 <= k < |p.calls| && p.calls[k].pos == pos
  }

  /** Positions grow by at most one from call to call, so none is passed over. */
  lemma {:induction false} CallsSkipNothing(p: History, pos: nat, k: nat)
    requires CallOrder(p) && k < |p.calls| && pos <= p.calls[k].pos
    ensures WasCalled(p, pos)
  {
    if p.calls[k].pos != pos {
      CallsSkipNothing(p, pos, k - 1);
    }
  }

  /**
   On every run, whatever functors return, they are called in the order in which messages were linked,
   each for the message linked at its position, and no message leaves the list without having been executed.
   */
  lemma EveryRunExecutesInOrder(dummy: Address, threads: set<Thread>, acts: seq<Action>)
    ensures var p := Run(Start(dummy, threads), acts).past;
            && (forall k :: 0 <= k < |p.calls| ==>
                  p.calls[k].pos < |p.linked| && p.calls[k].m == p.linked[p.calls[k].pos])
            && (forall j, k :: 0 <= j <= k < |p.calls| ==> p.calls[j].pos <= p.calls[k].pos)
            && (forall pos :: 0 <= pos < p.popped ==> WasCalled(p, pos))
            && (forall k :: 0 <= k < |p.calls| ==> p.calls[k].pos <= p.popped)
  {
    EveryRunIsSafe(dummy, threads, acts);
    var p := Run(Start(dummy, threads), acts).past;
    assert CallOrder(p) by {
      hide Run, Chain, OneToken, TailLock, HeadLock, Threads, CallOrder;
    }
    hide Run, Safe;
    forall j, k | 0 <= j <= k < |p.calls|
      ensures p.calls[j].pos <= p.calls[k].pos
    {
      CallsClimb(p, j, k);
    }
    forall pos | 0 <= pos < p.popped
      ensures WasCalled(p, pos)
    {
      CallsSkipNothing(p, pos, |p.calls| - 1);
    }
  }

  /** What is posted or executed is the first counted message, and it is not deleted when its functor starts. */
  lemma WorkIsFirst(s: State, t: Thread, m: Msg)
    requires Inv(s) && t in s.pcs
    ensures s.pcs[t] == Posting(m) || s.pcs[t] == Calling(m, false) || s.pcs[t] == Calling(m, true) ==> IsFirst(s, m)
    ensures s.pcs[t] == Looping(m) || s.pcs[t] == Holding(m) ==> IsFirst(s, m) && s.past.popped !in s.past.deleted
    ensures forall i :: 0 <= i < |s.queue| ==> IsFirst(s, s.queue[i])
  {
    assert Relies(s, s.pcs[t]);
    if s.pcs[t] == Looping(m) || s.pcs[t] == Holding(m) {
      hide Chain, TailLock, HeadLock, Threads;
      FirstNotDeleted(s, t);
    }
  }

  /** After a positive count, peek yields the first message: execute goes on with it or posts it, getNext returns it. */
  lemma PeekYieldsFirst(s: State, t: Thread)
    requires Inv(s) && t in s.pcs && s.pcs[t].PeekRead?
    ensures s.past.popped < |s.past.linked|
    ensures var m := s.past.linked[s.past.popped];
            && (s.pcs[t].why == ToRun ==> Step(s, t, Go) == Moved(s.At(t, Looping(m))))
            && (s.pcs[t].why == ToPost ==> Step(s, t, Go) == Moved(s.At(t, Posting(m))))
            && (s.pcs[t].why == ToReturn ==> Step(s, t, Go) == Moved(s.At(t, Holding(m))))
  {
    assert Relies(s, s.pcs[t]);
    hide OneToken, TailLock, Threads, Ordered, Tokens;
    TokenIsAlone(s, t);
    PeekFindsFirst(s, t, s.pcs[t].why, s.pcs[t].head);
    hide Relies;
  }

  /** Where a thread is after its step. */
  function PlaceAfter(s: State, t: Thread, c: Choice): PC
    requires t in s.pcs
  {
    var o := Step(s, t, c);
    if o.Moved? && t in o.s.pcs then o.s.pcs[t] else s.pcs[t]
  }

  /**
   What execute does with the result of a functor. Without KEEP_BIT it pops, to post the next message if
   the priority is used up or LAST_BIT is set, to go on with it otherwise. With KEEP_BIT it does the
   same with the message itself. With DEL_BIT the message is deleted.
   */
  lemma ExecuteGoesOn(s: State, t: Thread, m: Msg, res: Result, exhausted: bool)
    requires t in s.pcs && s.pcs[t] == Called(m, false, res) && !res.end
    ensures Step(s, t, Decide(exhausted)).Moved?
    ensures var pc, over := PlaceAfter(s, t, Decide(exhausted)), exhausted || res.last;
            && (!res.keep && over ==> pc == GetWaiting(ToPost))
            && (!res.keep && !over ==> pc == GetWaiting(ToRun))
            && (res.keep && !res.del && over ==> pc == Posting(m))
            && (res.keep && !res.del && !over ==> pc == Looping(m))
    ensures var s' := Step(s, t, Decide(exhausted)).s;
            && s'.queue == s.queue
            && s'.past.deleted == if res.del then s.past.deleted + {s.past.popped} else s.past.deleted
  {
  }

  /** A pop keeps to its purpose up to the peek. */
  lemma PopKeepsPurpose(s: State, t: Thread)
    requires t in s.pcs && (s.pcs[t].GetWaiting? || InHead(s.pcs[t]) || s.pcs[t].PeekStart?)
    ensures var pc := PlaceAfter(s, t, Go);
            && (Step(s, t, Go).Moved? && !(s.pcs[t].GetFreed? && s.pcs[t].size <= 0) ==>
                  (InHead(pc) || pc.PeekStart? || pc.PeekRead?) && pc.why == s.pcs[t].why)
            && (s.pcs[t].GetFreed? && s.pcs[t].size <= 0 && s.pcs[t].why != ToReturn ==> pc == Idle)
  {
    hide IdleStep, LockTail, Link, MoveTail, Increment, UnlockTail, AfterPut, Post, BeginCall, AfterCall, Peek;
  }

  /** The producer that sees the size become 1 goes on, the others are done: put posts the message, add returns it. */
  lemma PutGoesOn(s: State, t: Thread, m: Msg, post: bool, size: int)
    requires t in s.pcs && s.pcs[t] == PutDone(m, post, size)
    ensures Step(s, t, Go).Moved?
    ensures PlaceAfter(s, t, Go) == if size == 1 then (if post then Posting(m) else Holding(m)) else Idle
  {
  }

  /** A message is posted to the end of the dispatch queue, and whoever takes it executes it. */
  lemma PostedIsTaken(s: State, t: Thread)
    requires t in s.pcs
    ensures s.pcs[t].Posting? ==> Step(s, t, Go) == Moved(s.(queue := s.queue + [s.pcs[t].m]).At(t, Idle))
    ensures s.pcs[t].Idle? ==> forall i: nat :: i < |s.queue| ==>
              PlaceAfter(s, t, Take(i)) == Looping(s.queue[i])
              && Step(s, t, Take(i)).Moved? && Step(s, t, Take(i)).s.queue == s.queue[..i] + s.queue[i + 1..]
  {
  }

  /** A functor is called with the message in hand and returns to where it was called: the loop, or a caller of add. */
  lemma CallReturns(s: State, t: Thread, m: Msg, res: Result, exhausted: bool)
    requires t in s.pcs
    ensures s.pcs[t] == Looping(m) ==> PlaceAfter(s, t, Go) == Calling(m, false)
    ensures s.pcs[t] == Holding(m) ==> PlaceAfter(s, t, RunInline) == Calling(m, true)
    ensures s.pcs[t] == Holding(m) ==> PlaceAfter(s, t, Go) == Looping(m)
    ensures s.pcs[t] == Calling(m, false) ==> PlaceAfter(s, t, Return(res)) == Called(m, false, res)
    ensures s.pcs[t] == Calling(m, true) ==> PlaceAfter(s, t, Return(res)) == Called(m, true, res)
    ensures s.pcs[t] == Called(m, true, res) ==> PlaceAfter(s, t, Decide(exhausted)) == GetWaiting(ToReturn)
    ensures s.pcs[t] == Called(m, false, res) && res.end ==> PlaceAfter(s, t, Decide(exhausted)) == Idle
  {
  }

  /** When getNext has popped the last message it returns that very message, not null. */
  lemma DrainedGetNextIsStale(s: State, t: Thread)
    requires Inv(s) && t in s.pcs && s.pcs[t].GetFreed? && s.pcs[t].why.ToReturn? && s.pcs[t].size <= 0
    ensures 0 < s.past.popped <= |s.past.linked|
    ensures Step(s, t, Go) == Moved(s.(lockH := Null).At(t, Stale(Ptr(s.past.linked[s.past.popped - 1]))))
  {
    assert Relies(s, s.pcs[t]);
    hide OneToken, Chain, TailLock, HeadLock, Threads, Ordered, Tokens;
  }

  // ---- progress ----

  lemma BusyIsEnabled(s: State, t: Thread)
    requires t in s.pcs && !s.pcs[t].Idle?
    ensures exists c :: !Step(s, t, c).Disabled?
  {
    assert !Step(s, t, Go).Disabled? || !Step(s, t, Decide(true)).Disabled?
        || !Step(s, t, Return(Result(false, false, false, false))).Disabled?;
  }

  lemma HolderGoesOn(s: State, u: Thread)
    requires u in s.pcs && (InTail(s.pcs[u]) || InHead(s.pcs[u]))
    ensures Step(s, u, Go).Moved? || Step(s, u, Go).Fault?
  {
  }

  /** A busy thread can always go on, or waits for a lock whose holder can. */
  lemma LocksAreReleased(s: State, t: Thread)
    requires Inv(s) && t in s.pcs && !s.pcs[t].Idle?
    ensures exists c :: !Step(s, t, c).Disabled?
    ensures forall c :: Step(s, t, c).Blocked? ==>
              exists u :: u in s.pcs && u != t && Step(s, u, Go).Moved?
  {
    BusyIsEnabled(s, t);
    forall c | Step(s, t, c).Blocked?
      ensures exists u :: u in s.pcs && u != t && Step(s, u, Go).Moved?
    {
      var u := if s.pcs[t].PutReady? then s.lockT.at else s.lockH.at;
      hide OneToken, Chain, Threads, Ordered;
      assert u in s.pcs && u != t && (InTail(s.pcs[u]) || InHead(s.pcs[u]));
      hide Step, Inv, InTail, InHead;
      HolderGoesOn(s, u);
      StepNeverFaults(s, u, Go);
    }
  }

  // ---- the dropped token ----

  /** Messages are counted, and nobody will ever execute them. */
  ghost predicate Stranded(s: State) {
    s.size > 0 && s.queue == [] && Tokens(s) == {}
  }

  lemma DropStrands(s: State, t: Thread, c: Choice)
    requires Inv(s) && t in s.pcs && DropsToken(s, t, c)
    ensures Step(s, t, c).Moved? && Stranded(Step(s, t, c).s)
  {
    TokenIsAlone(s, t);
    hide Chain, TailLock, HeadLock, Threads, Ordered, Tokens;
    TokensAfter(s, Step(s, t, c).s, t);
  }

  lemma StrandedStep(s: State, t: Thread, c: Choice)
    requires Stranded(s) && t in s.pcs && Step(s, t, c).Moved?
    ensures Stranded(Step(s, t, c).s) && Step(s, t, c).s.past.calls == s.past.calls
  {
    var s' := Step(s, t, c).s;
    assert t !in Tokens(s);
    assert !HasToken(s.pcs[t]);
    assert s'.size > 0 && s'.queue == [] && !HasToken(s'.pcs[t]) && s'.past.calls == s.past.calls;
    hide Step, HasToken, Tokens;
    TokensAfter(s, s', t);
  }

  /** Once a token is dropped no functor is ever called again, whatever is put and however long the run. */
  lemma {:induction false} StrandedForever(s: State, acts: seq<Action>)
    requires Stranded(s)
    ensures Stranded(Run(s, acts)) && Run(s, acts).past.calls == s.past.calls
    decreases |acts|
  {
    hide Step, Stranded;
    if acts != [] {
      var a := acts[0];
      if a.t in s.pcs && Step(s, a.t, a.c).Moved? {
        StrandedStep(s, a.t, a.c);
      }
      StrandedForever(Next(s, a), acts[1..]);
    }
  }

  lemma {:induction false} DroppedRunStrands(s: State, acts: seq<Action>)
    requires Inv(s) && !TokenKept(s, acts)
    ensures Stranded(Run(s, acts))
    decreases |acts|
  {
    hide Inv, DropsToken, Step, Stranded;
    var t, c := acts[0].t, acts[0].c;
    if t in s.pcs && DropsToken(s, t, c) {
      DropStrands(s, t, c);
      StrandedForever(Next(s, acts[0]), acts[1..]);
    } else {
      if t in s.pcs {
        StepKeeps(s, t, c);
      }
      DroppedRunStrands(Next(s, acts[0]), acts[1..]);
    }
  }

  /** A run leaves counted messages with an owner exactly if no functor of it drops the token. */
  lemma OwnedIffTokenKept(dummy: Address, threads: set<Thread>, acts: seq<Action>)
    ensures var s := Run(Start(dummy, threads), acts);
            TokenKept(Start(dummy, threads), acts) <==> (s.size > 0 ==> OneOwner(s))
  {
    StartHolds(dummy, threads);
    var start := Start(dummy, threads);
    hide Inv, Run, TokenKept, Start, Tokens;
    if TokenKept(start, acts) {
      RunKeeps(start, acts);
      OwnerIffCounted(Run(start, acts));
    } else {
      DroppedRunStrands(start, acts);
      var s := Run(start, acts);
      assert !OneOwner(s) by {
        assert forall t: Thread :: {} != {t} by {
          forall t: Thread
            ensures {} != {t}
          {
            assert t in {t};
          }
        }
      }
    }
  }

  // ---- a run that drops the token ----

  const GO := Action(0, Go)

  /** From holding a message on: its functor asks to end. */
  const EXECUTE := [GO, GO, Action(0, Return(Result(false, false, false, true))), Action(0, Decide(false))]

  const COUNT := [GO, GO, GO] + EXECUTE

  /** One thread adds a message, and executes it. */
  const ADD_AND_EXECUTE := [Action(0, StartPut(1, 7, false)), GO, GO, GO] + COUNT

  lemma DropsLater(s: State, acts: seq<Action>)
    requires acts != [] && !TokenKept(Next(s, acts[0]), acts[1..])
    ensures !TokenKept(s, acts)
  {
  }

  lemma HolderDrops(s: State)
    requires 0 in s.pcs && s.pcs[0] == Holding(7)
    ensures !TokenKept(s, EXECUTE)
  {
    var s1 := Next(s, GO);
    var s2 := Next(s1, GO);
    var s3 := Next(s2, EXECUTE[2]);
    assert 0 in s3.pcs && DropsToken(s3, 0, EXECUTE[3].c);
    assert EXECUTE[3..][0] == EXECUTE[3] && EXECUTE[2..][1..] == EXECUTE[3..] && EXECUTE[1..][1..] == EXECUTE[2..];
    hide Step, DropsToken;
    DropsLater(s2, EXECUTE[2..]);
    DropsLater(s1, EXECUTE[1..]);
    DropsLater(s, EXECUTE);
  }

  lemma CounterDrops(s: State)
    requires 0 in s.pcs && s.pcs[0] == PutMoved(1, 7, false) && s.size == 0
    ensures !TokenKept(s, COUNT)
  {
    var s1 := Next(s, GO);
    var s2 := Next(s1, GO);
    var s3 := Next(s2, GO);
    HolderDrops(s3);
    assert COUNT[1..][1..] == COUNT[2..] && COUNT[2..][1..] == EXECUTE;
    hide Step, DropsToken, TokenKept;
    DropsLater(s2, COUNT[2..]);
    DropsLater(s1, COUNT[1..]);
    DropsLater(s, COUNT);
  }

  /** A thread that does so, from an empty mailbox, leaves a message that nobody will execute. */
  lemma SomeRunDrops()
    ensures !TokenKept(Start(0, {0}), ADD_AND_EXECUTE) && Stranded(Run(Start(0, {0}), ADD_AND_EXECUTE))
  {
    var acts := ADD_AND_EXECUTE;
    var s := Start(0, {0});
    var s1 := Next(s, acts[0]);
    var s2 := Next(s1, GO);
    var s3 := Next(s2, GO);
    var s4 := Next(s3, GO);
    CounterDrops(s4);
    assert acts[1..][1..] == acts[2..] && acts[2..][1..] == acts[3..] && acts[3..][1..] == COUNT;
    hide Step, DropsToken, TokenKept;
    DropsLater(s3, acts[3..]);
    DropsLater(s2, acts[2..]);
    DropsLater(s1, acts[1..]);
    DropsLater(s, acts);
    StartHolds(0, {0});
    DroppedRunStrands(s, acts);
  }
}
