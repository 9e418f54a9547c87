/** A thread that stands still is no part of the steps of the other threads of a mailbox. */
module MailboxFrames {
  import opened Pointers
  import opened Mailbox

  function Framed(o: Outcome, g: Thread, pc: PC): Outcome {
    if o.Moved? then Moved(o.s.At(g, pc)) else o
  }

  ghost predicate Commute(s: State, t: Thread, g: Thread, pc: PC) {
    forall x: PC {:trigger s.pcs[t := x]} :: s.pcs[t := x][g := pc] == s.pcs[g := pc][t := x]
  }

  lemma UpdatesCommute(s: State, t: Thread, g: Thread, pc: PC)
    requires t != g
    ensures Commute(s, t, g, pc)
  {
  }

  lemma IdleStepFrames(s: State, t: Thread, c: Choice, g: Thread, pc: PC)
    requires Commute(s, t, g, pc)
    ensures IdleStep(s.At(g, pc), t, c) == Framed(IdleStep(s, t, c), g, pc)
  {
  }

  lemma LockTailFrames(s: State, t: Thread, n: Address, m: Msg, post: bool, g: Thread, pc: PC)
    requires Commute(s, t, g, pc)
    ensures LockTail(s.At(g, pc), t, n, m, post) == Framed(LockTail(s, t, n, m, post), g, pc)
  {
  }

  lemma LinkFrames(s: State, t: Thread, n: Address, m: Msg, post: bool, g: Thread, pc: PC)
    requires Commute(s, t, g, pc)
    ensures Link(s.At(g, pc), t, n, m, post) == Framed(Link(s, t, n, m, post), g, pc)
  {
  }

  lemma MoveTailFrames(s: State, t: Thread, n: Address, m: Msg, post: bool, g: Thread, pc: PC)
    requires Commute(s, t, g, pc)
    ensures MoveTail(s.At(g, pc), t, n, m, post) == Framed(MoveTail(s, t, n, m, post), g, pc)
  {
  }

  lemma IncrementFrames(s: State, t: Thread, m: Msg, post: bool, g: Thread, pc: PC)
    requires Commute(s, t, g, pc)
    ensures Increment(s.At(g, pc), t, m, post) == Framed(Increment(s, t, m, post), g, pc)
  {
  }

  lemma UnlockTailFrames(s: State, t: Thread, m: Msg, post: bool, size: int, g: Thread, pc: PC)
    requires Commute(s, t, g, pc)
    ensures UnlockTail(s.At(g, pc), t, m, post, size) == Framed(UnlockTail(s, t, m, post, size), g, pc)
  {
  }

  lemma AfterPutFrames(s: State, t: Thread, m: Msg, post: bool, size: int, g: Thread, pc: PC)
    requires Commute(s, t, g, pc)
    ensures AfterPut(s.At(g, pc), t, m, post, size) == Framed(AfterPut(s, t, m, post, size), g, pc)
  {
  }

  lemma PostFrames(s: State, t: Thread, m: Msg, g: Thread, pc: PC)
    requires Commute(s, t, g, pc)
    ensures Post(s.At(g, pc), t, m) == Framed(Post(s, t, m), g, pc)
  {
  }

  lemma BeginCallFrames(s: State, t: Thread, m: Msg, inline: bool, g: Thread, pc: PC)
    requires Commute(s, t, g, pc)
    ensures BeginCall(s.At(g, pc), t, m, inline) == Framed(BeginCall(s, t, m, inline), g, pc)
  {
  }

  lemma AfterCallFrames(s: State, t: Thread, m: Msg, inline: bool, res: Result, exhausted: bool, g: Thread, pc: PC)
    requires Commute(s, t, g, pc)
    ensures AfterCall(s.At(g, pc), t, m, inline, res, exhausted) ==
      Framed(AfterCall(s, t, m, inline, res, exhausted), g, pc)
  {
  }

  lemma LockHeadFrames(s: State, t: Thread, why: Purpose, g: Thread, pc: PC)
    requires Commute(s, t, g, pc)
    ensures LockHead(s.At(g, pc), t, why) == Framed(LockHead(s, t, why), g, pc)
  {
  }

  lemma ReadHeadFrames(s: State, t: Thread, why: Purpose, g: Thread, pc: PC)
    requires Commute(s, t, g, pc)
    ensures ReadHead(s.At(g, pc), t, why) == Framed(ReadHead(s, t, why), g, pc)
  {
  }

  lemma DecrementFrames(s: State, t: Thread, why: Purpose, head: Address, next: Pointer<Address>, g: Thread, pc: PC)
    requires Commute(s, t, g, pc)
    ensures Decrement(s.At(g, pc), t, why, head, next) == Framed(Decrement(s, t, why, head, next), g, pc)
  {
  }

  lemma MoveHeadFrames(s: State, t: Thread, why: Purpose, head: Address, next: Address, size: int, g: Thread, pc: PC)
    requires Commute(s, t, g, pc)
    ensures MoveHead(s.At(g, pc), t, why, head, next, size) == Framed(MoveHead(s, t, why, head, next, size), g, pc)
  {
  }

  lemma ReleaseFrames(s: State, t: Thread, why: Purpose, head: Address, elem: Pointer<Msg>, size: int,
                      g: Thread, pc: PC)
    requires Commute(s, t, g, pc)
    ensures Release(s.At(g, pc), t, why, head, elem, size) == Framed(Release(s, t, why, head, elem, size), g, pc)
  {
  }

  lemma UnlockHeadFrames(s: State, t: Thread, why: Purpose, elem: Pointer<Msg>, size: int, g: Thread, pc: PC)
    requires Commute(s, t, g, pc)
    ensures UnlockHead(s.At(g, pc), t, why, elem, size) == Framed(UnlockHead(s, t, why, elem, size), g, pc)
  {
  }

  lemma PeekFrames(s: State, t: Thread, why: Purpose, head: Address, g: Thread, pc: PC)
    requires Commute(s, t, g, pc)
    ensures Peek(s.At(g, pc), t, why, head) == Framed(Peek(s, t, why, head), g, pc)
  {
  }

  lemma PlainFrames(s: State, t: Thread, g: Thread, pc: PC)
    requires t in s.pcs && t != g && Commute(s, t, g, pc)
    ensures s.At(g, pc).pcs[t] == s.pcs[t] && s.At(g, pc).head == s.head
    ensures forall x: PC :: Moved(s.At(g, pc).At(t, x)) == Framed(Moved(s.At(t, x)), g, pc)
    ensures Moved(s.At(g, pc)) == Framed(Moved(s), g, pc) && Framed(Disabled, g, pc) == Disabled
  {
  }

  lemma PutFrames(s: State, t: Thread, c: Choice, g: Thread, pc: PC)
    requires t in s.pcs && g !in s.pcs
    requires var p := s.pcs[t]; InTail(p) || p.Idle? || p.PutReady? || p.PutDone? || p.Posting?
    ensures Step(s.At(g, pc), t, c) == Framed(Step(s, t, c), g, pc)
  {
    UpdatesCommute(s, t, g, pc);
    PlainFrames(s, t, g, pc);
    hide State.At, Framed, Commute, IdleStep, LockTail, Link, MoveTail, Increment, UnlockTail, AfterPut,
         Post, BeginCall,
      AfterCall, LockHead, ReadHead, Decrement, MoveHead, Release, UnlockHead, Peek;
    match s.pcs[t]
    case Idle => IdleStepFrames(s, t, c, g, pc);
    case PutReady(n, m, post) => LockTailFrames(s, t, n, m, post, g, pc);
    case PutLocked(n, m, post) => LinkFrames(s, t, n, m, post, g, pc);
    case PutLinked(n, m, post) => MoveTailFrames(s, t, n, m, post, g, pc);
    case PutMoved(_, m, post) => IncrementFrames(s, t, m, post, g, pc);
    case PutCounted(m, post, size) => UnlockTailFrames(s, t, m, post, size, g, pc);
    case PutDone(m, post, size) => AfterPutFrames(s, t, m, post, size, g, pc);
    case Posting(m) => PostFrames(s, t, m, g, pc);
  }

  lemma CallFrames(s: State, t: Thread, c: Choice, g: Thread, pc: PC)
    requires t in s.pcs && g !in s.pcs
    requires var p := s.pcs[t]; p.Holding? || p.Looping? || p.Calling? || p.Called?
    ensures Step(s.At(g, pc), t, c) == Framed(Step(s, t, c), g, pc)
  {
    UpdatesCommute(s, t, g, pc);
    PlainFrames(s, t, g, pc);
    hide State.At, Framed, Commute, IdleStep, LockTail, Link, MoveTail, Increment, UnlockTail, AfterPut,
         Post, BeginCall,
      AfterCall, LockHead, ReadHead, Decrement, MoveHead, Release, UnlockHead, Peek;
    match s.pcs[t]
    case Holding(m) => BeginCallFrames(s, t, m, true, g, pc);
    case Looping(m) => BeginCallFrames(s, t, m, false, g, pc);
    case Calling(_, _) =>
    case Called(m, inline, res) => if c.Decide? { AfterCallFrames(s, t, m, inline, res, c.exhausted, g, pc); }
  }

  lemma PopFrames(s: State, t: Thread, c: Choice, g: Thread, pc: PC)
    requires t in s.pcs && g !in s.pcs
    requires var p := s.pcs[t]; p.GetWaiting? || p.GetLocked? || p.GetRead?
    ensures Step(s.At(g, pc), t, c) == Framed(Step(s, t, c), g, pc)
  {
    UpdatesCommute(s, t, g, pc);
    PlainFrames(s, t, g, pc);
    hide State.At, Framed, Commute, IdleStep, LockTail, Link, MoveTail, Increment, UnlockTail, AfterPut,
         Post, BeginCall,
      AfterCall, LockHead, ReadHead, Decrement, MoveHead, Release, UnlockHead, Peek;
    match s.pcs[t]
    case GetWaiting(why) => LockHeadFrames(s, t, why, g, pc);
    case GetLocked(why) => ReadHeadFrames(s, t, why, g, pc);
    case GetRead(why, head, next) => DecrementFrames(s, t, why, head, next, g, pc);
  }

  lemma PeekingFrames(s: State, t: Thread, c: Choice, g: Thread, pc: PC)
    requires t in s.pcs && g !in s.pcs
    requires var p := s.pcs[t]; p.GetCounted? || p.GetMoved? || p.GetFreed? || p.PeekStart? || p.PeekRead? || p.Stale?
    ensures Step(s.At(g, pc), t, c) == Framed(Step(s, t, c), g, pc)
  {
    UpdatesCommute(s, t, g, pc);
    PlainFrames(s, t, g, pc);
    hide State.At, Framed, Commute, IdleStep, LockTail, Link, MoveTail, Increment, UnlockTail, AfterPut,
         Post, BeginCall,
      AfterCall, LockHead, ReadHead, Decrement, MoveHead, Release, UnlockHead, Peek;
    match s.pcs[t]
    case GetCounted(why, head, next, size) => MoveHeadFrames(s, t, why, head, next, size, g, pc);
    case GetMoved(why, head, elem, size) => ReleaseFrames(s, t, why, head, elem, size, g, pc);
    case GetFreed(why, elem, size) => UnlockHeadFrames(s, t, why, elem, size, g, pc);
    case PeekStart(_) =>
    case PeekRead(why, head) => PeekFrames(s, t, why, head, g, pc);
    case Stale(_) =>
  }

  /** A step does the same beside one more thread that stands still. */
  lemma StepFrames(s: State, t: Thread, c: Choice, g: Thread, pc: PC)
    requires t in s.pcs && g !in s.pcs
    ensures Step(s.At(g, pc), t, c) == Framed(Step(s, t, c), g, pc)
  {
    hide Step, Framed, State.At;
    var p := s.pcs[t];
    if InTail(p) || p.Idle? || p.PutReady? || p.PutDone? || p.Posting? {
      PutFrames(s, t, c, g, pc);
    } else if p.Holding? || p.Looping? || p.Calling? || p.Called? {
      CallFrames(s, t, c, g, pc);
    } else if p.GetWaiting? || p.GetLocked? || p.GetRead? {
      PopFrames(s, t, c, g, pc);
    } else {
      PeekingFrames(s, t, c, g, pc);
    }
  }

  lemma StepAddsNoThread(s: State, t: Thread, c: Choice, g: Thread)
    requires t in s.pcs && g !in s.pcs
    ensures Step(s, t, c).Moved? ==> g !in Step(s, t, c).s.pcs
  {
  }
}
