/** What every pop of the mailbox returns, and when every message is executed exactly once. */
module MailboxOnce {
  import opened Pointers
  import opened Mailbox
  import opened MailboxSafety
  import opened MailboxRuns

  // ---- pops ----

  /** The message a pop is about to return, or has just taken over. */
  lemma PopIs(s: State, pc: PC)
    requires Relies(s, pc) && (pc.GetMoved? || pc.GetFreed?)
    ensures 0 < s.past.popped <= |s.past.linked| && pc.elem == Ptr(s.past.linked[s.past.popped - 1])
  {
  }

  /** On every run, whatever functors return, the i-th pop returns the i-th message linked. */
  lemma EveryPopYieldsNext(dummy: Address, threads: set<Thread>, acts: seq<Action>, t: Thread)
    requires var s := Run(Start(dummy, threads), acts); t in s.pcs && (s.pcs[t].GetMoved? || s.pcs[t].GetFreed?)
    ensures var s := Run(Start(dummy, threads), acts);
            && 0 < s.past.popped <= |s.past.linked|
            && s.pcs[t].elem == Ptr(s.past.linked[s.past.popped - 1])
  {
    EveryRunIsSafe(dummy, threads, acts);
    var s := Run(Start(dummy, threads), acts);
    hide Run, OneToken, Chain, TailLock, HeadLock, Ordered, Relies;
    if Inv(s) {
      PopIs(s, s.pcs[t]);
    } else {
      var g :| Haunted(s, g);
      var s1 := s.At(g, GetWaiting(ToRun));
      assert s1.pcs[t] == s.pcs[t];
      PopIs(s1, s1.pcs[t]);
    }
  }

  // ---- once each ----

  /** No functor of the run returns KEEP_BIT. */
  predicate NoneKept(acts: seq<Action>) {
    forall i :: 0 <= i < |acts| && acts[i].c.Return? ==> !acts[i].c.res.keep
  }

  ghost predicate Strict(calls: seq<Call>) {
    forall j, k :: 0 <= j < k < |calls| ==> calls[j].pos < calls[k].pos
  }

  /** From the call of a functor on until its message is popped. */
  predicate Working(pc: PC) {
    pc.Calling? || pc.Called? || BeforePop(pc)
  }

  /** The functor of the first message has not been called. */
  ghost predicate Untouched(s: State) {
    forall k :: 0 <= k < |s.past.calls| ==> s.past.calls[k].pos < s.past.popped
  }

  ghost predicate Once(s: State) {
    && Strict(s.past.calls)
    && (forall t :: t in s.pcs && s.pcs[t].Called? ==> !s.pcs[t].res.keep)
    && ((forall t :: t in s.pcs ==> !Working(s.pcs[t])) ==> Untouched(s))
  }

  lemma WorkingIsToken(pc: PC)
    requires Working(pc)
    ensures HasToken(pc)
  {
  }

  lemma BeginCallOnce(s: State, t: Thread, m: Msg, inline: bool)
    requires Inv(s) && Once(s) && t in s.pcs && (s.pcs[t] == Looping(m) || s.pcs[t] == Holding(m))
    ensures Once(BeginCall(s, t, m, inline).s)
  {
    hide Chain, TailLock, HeadLock, Threads, Ordered, Tokens;
    TokenIsAlone(s, t);
    forall u | u in s.pcs
      ensures !Working(s.pcs[u])
    {
      if Working(s.pcs[u]) { WorkingIsToken(s.pcs[u]); }
    }
    var s' := BeginCall(s, t, m, inline).s;
    assert Working(s'.pcs[t]);
    assert Strict(s'.past.calls) by { hide OneToken, HasToken; }
  }

  /** A pop makes the following message the first one, which nobody has touched. */
  lemma PopOnce(s: State, t: Thread, why: Purpose, head: Address, next: Pointer<Address>)
    requires Inv(s) && Once(s) && t in s.pcs && s.pcs[t] == GetRead(why, head, next)
    ensures Once(Decrement(s, t, why, head, next).s)
  {
    CallsBehind(s);
    assert next.Ptr? by { assert Relies(s, s.pcs[t]); }
    hide Inv;
    var s' := Decrement(s, t, why, head, next).s;
    assert Untouched(s');
  }

  lemma CallsBehind(s: State)
    requires Inv(s)
    ensures forall k :: 0 <= k < |s.past.calls| ==> s.past.calls[k].pos <= s.past.popped
  {
    hide OneToken, Chain, TailLock, HeadLock, Threads;
    var p := s.past;
    forall k | 0 <= k < |p.calls|
      ensures p.calls[k].pos <= p.popped
    {
      CallsClimb(p, k, |p.calls| - 1);
    }
  }

  /** Any other step neither calls nor pops, and leaves off working only by dropping the token. */
  lemma QuietOnce(s: State, t: Thread, c: Choice)
    requires Once(s) && t in s.pcs && Step(s, t, c).Moved? && !DropsToken(s, t, c)
    requires c.Return? ==> !c.res.keep
    requires !s.pcs[t].GetRead?
    requires Step(s, t, c).s.past.calls == s.past.calls
    ensures Once(Step(s, t, c).s)
  {
    var s' := Step(s, t, c).s;
    QuietStays(s, t, c);
    hide Step, Strict, Untouched, DropsToken, Working;
    assert Untouched(s) ==> Untouched(s') by { SameUntouched(s, s'); }
    forall u | u in s'.pcs && s'.pcs[u].Called?
      ensures !s'.pcs[u].res.keep
    {
      assert u != t ==> s'.pcs[u] == s.pcs[u];
    }
    if forall u :: u in s'.pcs ==> !Working(s'.pcs[u]) {
      forall u | u in s.pcs
        ensures !Working(s.pcs[u])
      {
        assert u in s'.pcs && !Working(s'.pcs[u]);
        assert u != t ==> s'.pcs[u] == s.pcs[u];
      }
    }
  }

  lemma SameUntouched(s: State, s': State)
    requires s'.past.calls == s.past.calls && s'.past.popped == s.past.popped
    ensures Untouched(s) == Untouched(s')
  {
  }

  /** What such a step does to the threads and to the number of pops. */
  ghost predicate Quiet(s: State, s': State, t: Thread) {
    && Steps(s, s', t) && s'.past.popped == s.past.popped
    && (Working(s.pcs[t]) ==> Working(s'.pcs[t]))
    && (s'.pcs[t].Called? ==> !s'.pcs[t].res.keep)
  }

  predicate Mild(s: State, t: Thread, c: Choice)
    requires t in s.pcs
  {
    && Step(s, t, c).Moved? && !DropsToken(s, t, c) && !s.pcs[t].GetRead?
    && (c.Return? ==> !c.res.keep) && (s.pcs[t].Called? ==> !s.pcs[t].res.keep)
    && Step(s, t, c).s.past.calls == s.past.calls
  }

  lemma PutQuiet(s: State, t: Thread, c: Choice)
    requires t in s.pcs && Mild(s, t, c)
    requires var p := s.pcs[t]; InTail(p) || p.Idle? || p.PutReady? || p.PutDone? || p.Posting?
    ensures Quiet(s, Step(s, t, c).s, t)
  {
    hide BeginCall, AfterCall, LockHead, ReadHead,
      MoveHead, Release, UnlockHead, Peek, Decrement;
  }

  lemma CallQuiet(s: State, t: Thread, c: Choice)
    requires t in s.pcs && Mild(s, t, c)
    requires var p := s.pcs[t]; p.Holding? || p.Looping? || p.Calling? || p.Called?
    ensures Quiet(s, Step(s, t, c).s, t)
  {
    hide IdleStep, LockTail, Link, MoveTail, Increment, UnlockTail, AfterPut,
      Post, LockHead, ReadHead, MoveHead, Release, UnlockHead, Peek, Decrement;
  }

  lemma GetQuiet(s: State, t: Thread, c: Choice)
    requires t in s.pcs && Mild(s, t, c)
    requires var p := s.pcs[t]; p.GetWaiting? || p.GetLocked? || p.GetCounted? || p.GetMoved? || p.GetFreed?
    ensures Quiet(s, Step(s, t, c).s, t)
  {
    hide IdleStep, LockTail, Link, MoveTail, Increment, UnlockTail,
      AfterPut, Post, BeginCall, AfterCall, Peek, Decrement;
  }

  lemma PeekQuiet(s: State, t: Thread, c: Choice)
    requires t in s.pcs && Mild(s, t, c)
    requires var p := s.pcs[t]; p.PeekStart? || p.PeekRead? || p.Stale?
    ensures Quiet(s, Step(s, t, c).s, t)
  {
    hide IdleStep, LockTail, Link, MoveTail, Increment, UnlockTail, AfterPut, Post,
      BeginCall, AfterCall, LockHead, ReadHead, MoveHead, Release, UnlockHead, Decrement;
  }

  lemma QuietStays(s: State, t: Thread, c: Choice)
    requires t in s.pcs && Mild(s, t, c)
    ensures Quiet(s, Step(s, t, c).s, t)
  {
    var p := s.pcs[t];
    assert !p.GetRead?;
    hide Step, Quiet, Mild;
    if InTail(p) || p.Idle? || p.PutReady? || p.PutDone? || p.Posting? {
      PutQuiet(s, t, c);
    } else if p.Holding? || p.Looping? || p.Calling? || p.Called? {
      CallQuiet(s, t, c);
    } else if p.GetWaiting? || p.GetLocked? || p.GetCounted? || p.GetMoved? || p.GetFreed? {
      GetQuiet(s, t, c);
    } else {
      PeekQuiet(s, t, c);
    }
  }

  lemma StepOnce(s: State, t: Thread, c: Choice)
    requires Inv(s) && Once(s) && t in s.pcs && Step(s, t, c).Moved? && !DropsToken(s, t, c)
    requires c.Return? ==> !c.res.keep
    ensures Once(Step(s, t, c).s)
  {
    hide Inv, Once;
    match s.pcs[t]
    case Holding(m) =>
      if c.RunInline? {
        BeginCallOnce(s, t, m, true);
      } else {
        QuietOnce(s, t, c);
      }
    case Looping(m) =>
      if c.Go? {
        BeginCallOnce(s, t, m, false);
      } else {
        QuietOnce(s, t, c);
      }
    case GetRead(why, head, next) => PopOnce(s, t, why, head, next);
    case _ =>
      CallsStay(s, t, c);
      QuietOnce(s, t, c);
  }

  lemma CallsStay(s: State, t: Thread, c: Choice)
    requires t in s.pcs && Step(s, t, c).Moved? && !s.pcs[t].Holding? && !s.pcs[t].Looping?
    ensures Step(s, t, c).s.past.calls == s.past.calls
  {
  }

  lemma {:induction false} RunOnce(s: State, acts: seq<Action>)
    requires Inv(s) && Once(s) && NoneKept(acts)
    ensures Strict(Run(s, acts).past.calls)
    decreases |acts|
  {
    hide Inv, Step, DropsToken;
    if acts != [] {
      var t, c := acts[0].t, acts[0].c;
      assert NoneKept(acts[1..]);
      if t in s.pcs && DropsToken(s, t, c) {
        DropStrands(s, t, c);
        DropCalls(s, t, c);
        StrandedForever(Next(s, acts[0]), acts[1..]);
      } else {
        if t in s.pcs {
          StepKeeps(s, t, c);
          if Step(s, t, c).Moved? {
            StepOnce(s, t, c);
          }
        }
        RunOnce(Next(s, acts[0]), acts[1..]);
      }
    }
  }

  lemma DropCalls(s: State, t: Thread, c: Choice)
    requires t in s.pcs && DropsToken(s, t, c)
    ensures Step(s, t, c).Moved? && Step(s, t, c).s.past.calls == s.past.calls
  {
  }

  /** Positions that climb strictly, by at most one, from zero on. */
  lemma {:induction false} StrictIsCount(p: History, k: nat)
    requires CallOrder(p) && Strict(p.calls) && k < |p.calls|
    ensures p.calls[k].pos == k
  {
    if k > 0 {
      StrictIsCount(p, k - 1);
    }
  }

  /** On every run in which no functor returns KEEP_BIT, the k-th call is that of the k-th message linked: once each. */
  lemma EveryMessageExecutedOnce(dummy: Address, threads: set<Thread>, acts: seq<Action>)
    requires NoneKept(acts)
    ensures var p := Run(Start(dummy, threads), acts).past;
            && p.popped <= |p.calls| <= p.popped + 1
            && forall k :: 0 <= k < |p.calls| ==> k < |p.linked| && p.calls[k] == Call(k, p.linked[k])
  {
    var start := Start(dummy, threads);
    StartHolds(dummy, threads);
    assert Once(start);
    RunOnce(start, acts);
    EveryRunIsSafe(dummy, threads, acts);
    var p := Run(start, acts).past;
    assert CallOrder(p) by {
      hide Run, Chain, OneToken, TailLock, HeadLock, Threads, CallOrder, Strict;
    }
    hide Run, Safe, Inv, Once;
    forall k | 0 <= k < |p.calls|
      ensures k < |p.linked| && p.calls[k] == Call(k, p.linked[k])
    {
      StrictIsCount(p, k);
    }
    if p.calls != [] {
      StrictIsCount(p, |p.calls| - 1);
    }
  }
}
