/** Every step of the mailbox keeps its invariant. */
module MailboxSafety {
  import opened Pointers
  import opened Mailbox

  predicate Steps(s: State, s': State, t: Thread) {
    t in s.pcs && t in s'.pcs && s'.pcs == s.pcs[t := s'.pcs[t]]
  }

  // ---- tokens ----

  lemma TokenIsAlone(s: State, t: Thread)
    requires OneToken(s) && t in s.pcs && HasToken(s.pcs[t])
    ensures s.size > 0 && s.queue == [] && Tokens(s) == {t}
    ensures forall u :: u in s.pcs && HasToken(s.pcs[u]) ==> u == t
  {
    hide HasToken;
    assert t in Tokens(s);
    assert |Tokens(s) - {t}| == |Tokens(s)| - 1;
    assert Tokens(s) - {t} == {};
    forall u | u in s.pcs && HasToken(s.pcs[u])
      ensures u == t
    {
      assert u in Tokens(s);
    }
  }

  /** A step of one thread changes at most that thread's part in the tokens. */
  lemma TokensAfter(s: State, s': State, t: Thread)
    requires Steps(s, s', t)
    ensures |Tokens(s')| == |Tokens(s)| - (if HasToken(s.pcs[t]) then 1 else 0) + (if HasToken(s'.pcs[t]) then 1 else 0)
  {
    hide HasToken;
    TokensBut(s, t);
    TokensBut(s', t);
    assert Tokens(s) - {t} == Tokens(s') - {t};
    hide Tokens;
  }

  lemma TokensBut(s: State, t: Thread)
    requires t in s.pcs
    ensures |Tokens(s)| == |Tokens(s) - {t}| + (if HasToken(s.pcs[t]) then 1 else 0)
  {
    hide HasToken;
    if HasToken(s.pcs[t]) {
      assert t in Tokens(s);
    } else {
      assert Tokens(s) - {t} == Tokens(s);
    }
  }

  // ---- what a step has to show ----

  /** The other threads, and the messages posted, still rely on what they did. */
  ghost predicate OthersRely(s: State, s': State, t: Thread) {
    forall u :: u in s.pcs && u != t ==> Relies(s', s.pcs[u])
  }

  ghost predicate OwnNode(s: State, t: Thread, pc: PC) {
    Prepares(pc) ==> forall u :: u in s.pcs && u != t && Prepares(s.pcs[u]) ==> s.pcs[u].n != pc.n
  }

  lemma ThreadsAfter(s: State, s': State, t: Thread)
    requires Threads(s) && Steps(s, s', t)
    requires OthersRely(s, s', t) && Relies(s', s'.pcs[t]) && OwnNode(s, t, s'.pcs[t])
    requires forall i :: 0 <= i < |s'.queue| ==> IsFirst(s', s'.queue[i])
    ensures Threads(s')
  {
    hide Relies, IsFirst;
    forall u | u in s'.pcs
      ensures Relies(s', s'.pcs[u])
    {
      if u != t { assert s'.pcs[u] == s.pcs[u]; }
    }
  }

  /** A step that leaves memory, pointers and history alone changes nothing the others rely on. */
  lemma SameHeapRelies(s: State, s': State, t: Thread)
    requires Threads(s) && t in s.pcs
    requires s'.mem == s.mem && s'.head == s.head && s'.tail == s.tail && s'.past == s.past && s'.lockH == s.lockH
    ensures OthersRely(s, s', t)
    ensures forall m :: IsFirst(s', m) <==> IsFirst(s, m)
  {
    forall u | u in s.pcs && u != t
      ensures Relies(s', s.pcs[u])
    {
      assert Relies(s, s.pcs[u]);
      ReliesReads(s, s', s.pcs[u]);
    }
  }

  lemma ReliesReads(s: State, s': State, pc: PC)
    requires s'.mem == s.mem && s'.head == s.head && s'.tail == s.tail && s'.past == s.past && s'.lockH == s.lockH
    ensures Relies(s', pc) == Relies(s, pc)
  {
  }

  lemma ChainReads(s: State, s': State)
    requires Chain(s) && s'.mem == s.mem && s'.head == s.head && s'.past == s.past && s'.size == s.size
    ensures Chain(s')
  {
  }

  lemma TailLockAfter(s: State, s': State, t: Thread)
    requires TailLock(s) && Steps(s, s', t) && s'.lockT == s.lockT
    requires InTail(s.pcs[t]) == InTail(s'.pcs[t])
    requires s.lockT.Null? ==> TailSettled(s')
    ensures TailLock(s')
  {
    hide InTail, TailSettled;
  }

  lemma HeadLockAfter(s: State, s': State, t: Thread)
    requires HeadLock(s) && Steps(s, s', t) && s'.lockH == s.lockH
    requires InHead(s.pcs[t]) == InHead(s'.pcs[t])
    requires s.lockH.Null? ==> HeadSettled(s')
    ensures HeadLock(s')
  {
    hide InHead, HeadSettled;
  }

  lemma OrderedAfter(s: State, s': State, t: Thread)
    requires Ordered(s) && Steps(s, s', t) && s'.past == s.past
    requires BeforePop(s.pcs[t]) ==> BeforePop(s'.pcs[t])
    ensures Ordered(s')
  {
    hide BeforePop;
    if s.past.popped in s.past.deleted {
      var u :| u in s.pcs && BeforePop(s.pcs[u]);
      assert BeforePop(s'.pcs[u]);
    }
  }

  /** A step of one thread that touches neither memory, pointers nor history. */
  lemma QuietStep(s: State, s': State, t: Thread)
    requires Inv(s) && Steps(s, s', t)
    requires s'.mem == s.mem && s'.head == s.head && s'.tail == s.tail && s'.past == s.past && s'.size == s.size
    requires s'.lockH == s.lockH && s'.lockT == s.lockT
    requires InTail(s.pcs[t]) == InTail(s'.pcs[t]) && InHead(s.pcs[t]) == InHead(s'.pcs[t])
    requires BeforePop(s.pcs[t]) ==> BeforePop(s'.pcs[t])
    requires Relies(s', s'.pcs[t]) && OwnNode(s, t, s'.pcs[t])
    requires forall i :: 0 <= i < |s'.queue| ==> IsFirst(s', s'.queue[i])
    requires |s'.queue| + (if HasToken(s'.pcs[t]) then 1 else 0) == |s.queue| + (if HasToken(s.pcs[t]) then 1 else 0)
    ensures Inv(s')
  {
    hide Relies, HasToken, InTail, InHead, BeforePop, Tokens, Ordered, IsFirst, OwnNode;
    TokensAfter(s, s', t);
    SameHeapRelies(s, s', t);
    ThreadsAfter(s, s', t);
    TailLockAfter(s, s', t);
    HeadLockAfter(s, s', t);
    OrderedAfter(s, s', t);
    assert Chain(s');
  }

  lemma Assemble(s: State, s': State, t: Thread)
    requires Inv(s) && Steps(s, s', t)
    requires s'.size >= 0 && OneTokenAfter(s, s', t)
    requires Chain(s') && TailLock(s') && HeadLock(s') && Ordered(s')
    requires OthersRely(s, s', t) && Relies(s', s'.pcs[t]) && OwnNode(s, t, s'.pcs[t])
    requires forall i :: 0 <= i < |s'.queue| ==> IsFirst(s', s'.queue[i])
    ensures Inv(s')
  {
    hide Relies, HasToken, InTail, InHead, BeforePop, Tokens, Ordered, IsFirst, OwnNode, Chain, TailLock, HeadLock;
    TokensAfter(s, s', t);
    ThreadsAfter(s, s', t);
  }

  /** The part of a thread in the tokens moves with the size and the queue. */
  ghost predicate OneTokenAfter(s: State, s': State, t: Thread)
    requires Steps(s, s', t)
  {
    (if HasToken(s'.pcs[t]) then 1 else 0) + |s'.queue| - (if s'.size > 0 then 1 else 0)
    == (if HasToken(s.pcs[t]) then 1 else 0) + |s.queue| - (if s.size > 0 then 1 else 0)
  }

  // ---- put and add ----

  lemma StartPutRelies(s: State, n: Address, x: Node, pc: PC)
    requires Chain(s) && n !in s.mem && Relies(s, pc)
    ensures Relies(s.(mem := s.mem[n := x]), pc)
  {
  }

  lemma StartPutOwn(s: State, t: Thread, n: Address, m: Msg, post: bool)
    requires Chain(s) && Threads(s) && t in s.pcs && n !in s.mem
    ensures var s1 := s.(mem := s.mem[n := Node(Ptr(m), Null)]);
            Chain(s1) && Relies(s1, PutReady(n, m, post)) && OwnNode(s, t, PutReady(n, m, post))
  {
    var s1 := s.(mem := s.mem[n := Node(Ptr(m), Null)]);
    assert Chain(s1) && OwnsNode(s1, n, m);
    hide Chain;
    forall u | u in s.pcs && Prepares(s.pcs[u])
      ensures s.pcs[u].n != n
    {
      assert Relies(s, s.pcs[u]);
    }
  }

  lemma StartPutKeeps(s: State, t: Thread, n: Address, m: Msg, post: bool)
    requires Inv(s) && t in s.pcs && s.pcs[t].Idle? && n !in s.mem
    ensures Inv(s.(mem := s.mem[n := Node(Ptr(m), Null)]).At(t, PutReady(n, m, post)))
  {
    hide Relies, Ordered, Chain, OwnNode, IsFirst, Tokens;
    var s1 := s.(mem := s.mem[n := Node(Ptr(m), Null)]);
    var s' := s1.At(t, PutReady(n, m, post));
    StartPutOwn(s, t, n, m, post);
    ChainReads(s1, s');
    ReliesReads(s1, s', s'.pcs[t]);
    TailLockAfter(s, s', t);
    HeadLockAfter(s, s', t);
    OrderedAfter(s, s', t);
    QueueStays(s, s');
    hide TailLock, HeadLock;
    forall u | u in s.pcs && u != t
      ensures Relies(s', s.pcs[u])
    {
      StartPutRelies(s, n, Node(Ptr(m), Null), s.pcs[u]);
      ReliesReads(s1, s', s.pcs[u]);
    }
    Assemble(s, s', t);
  }

  lemma LockTailOwn(s: State, t: Thread, n: Address, m: Msg, post: bool)
    requires Relies(s, PutReady(n, m, post)) && TailSettled(s) && s.lockT.Null?
    ensures Relies(LockTail(s, t, n, m, post).s, PutLocked(n, m, post))
  {
  }

  lemma LockTailKeeps(s: State, t: Thread, n: Address, m: Msg, post: bool)
    requires Inv(s) && t in s.pcs && s.pcs[t] == PutReady(n, m, post) && s.lockT.Null?
    ensures Inv(LockTail(s, t, n, m, post).s)
  {
    hide Relies, Ordered, Chain, IsFirst, Tokens, TailSettled;
    var s' := LockTail(s, t, n, m, post).s;
    LockTailOwn(s, t, n, m, post);
    assert TailLock(s') by { TailLockTaken(s, s', t); }
    ChainReads(s, s');
    HeadLockAfter(s, s', t);
    OrderedAfter(s, s', t);
    SameHeapRelies(s, s', t);
    hide TailLock, HeadLock;
    Assemble(s, s', t);
  }

  lemma TailLockTaken(s: State, s': State, t: Thread)
    requires TailLock(s) && Steps(s, s', t) && s.lockT.Null? && s'.lockT == Ptr(t) && InTail(s'.pcs[t])
    ensures TailLock(s')
  {
    hide InTail, TailSettled;
  }

  lemma TailLockFreed(s: State, s': State, t: Thread)
    requires TailLock(s) && Steps(s, s', t) && s'.lockT.Null? && InTail(s.pcs[t]) && !InTail(s'.pcs[t])
    requires TailSettled(s')
    ensures TailLock(s')
  {
    hide InTail, TailSettled;
  }

  lemma LinkRelies(s: State, t: Thread, n: Address, m: Msg, post: bool, pc: PC)
    requires Chain(s) && TailSettled(s) && OwnsNode(s, n, m) && Relies(s, pc)
    requires !InTail(pc) && (Prepares(pc) ==> pc.n != n)
    ensures s.tail in s.mem && Relies(Link(s, t, n, m, post).s, pc)
  {
    var s' := Link(s, t, n, m, post).s;
    if pc.PutReady? {
      assert OwnsNode(s', pc.n, pc.m);
    }
  }

  lemma LinkChain(s: State, t: Thread, n: Address, m: Msg, post: bool)
    requires Chain(s) && TailSettled(s) && OwnsNode(s, n, m)
    ensures s.tail in s.mem && Chain(Link(s, t, n, m, post).s)
    ensures Linking(Link(s, t, n, m, post).s, n, m)
    ensures Link(s, t, n, m, post).s.tail == Link(s, t, n, m, post).s.past.places[|s.past.linked|]
  {
    var s' := Link(s, t, n, m, post).s;
    var p, p' := s.past, s'.past;
    assert forall i :: 0 <= i < |p.places| ==> p'.places[i] == p.places[i];
    assert p'.places[|p.places|] == n;
    forall i | p'.freed <= i < |p'.places|
      ensures p'.places[i] in s'.mem
      ensures i < |p'.linked| ==> s'.mem[p'.places[i]].next == Ptr(p'.places[i + 1])
    {
    }
  }

  lemma LinkKeeps(s: State, t: Thread, n: Address, m: Msg, post: bool)
    requires Inv(s) && t in s.pcs && s.pcs[t] == PutLocked(n, m, post)
    ensures Link(s, t, n, m, post).Moved? && Inv(Link(s, t, n, m, post).s)
  {
    hide Chain, Ordered, Relies, OwnsNode, IsFirst, Tokens, TailSettled, Linking;
    LockedRelies(s, n, m, post);
    LinkChain(s, t, n, m, post);
    var s' := Link(s, t, n, m, post).s;
    LinkOrdered(s, t, n, m, post);
    LinkedRelies(s', n, m, post);
    TailLockAfter(s, s', t);
    HeadLockAfter(s, s', t);
    hide TailLock, HeadLock;
    forall u | u in s.pcs && u != t
      ensures Relies(s', s.pcs[u])
    {
      LinkRelies(s, t, n, m, post, s.pcs[u]);
    }
    LinkQueue(s, t, n, m, post);
    hide Link;
    Assemble(s, s', t);
  }

  lemma LockedRelies(s: State, n: Address, m: Msg, post: bool)
    requires Relies(s, PutLocked(n, m, post))
    ensures OwnsNode(s, n, m) && TailSettled(s)
  {
  }

  lemma LinkQueue(s: State, t: Thread, n: Address, m: Msg, post: bool)
    requires Threads(s) && s.tail in s.mem
    ensures var s' := Link(s, t, n, m, post).s; forall i :: 0 <= i < |s'.queue| ==> IsFirst(s', s'.queue[i])
  {
    hide Relies;
  }

  lemma LinkedRelies(s: State, n: Address, m: Msg, post: bool)
    requires Linking(s, n, m) && s.tail == s.past.places[|s.past.linked| - 1]
    ensures Relies(s, PutLinked(n, m, post))
  {
  }

  lemma LinkOrdered(s: State, t: Thread, n: Address, m: Msg, post: bool)
    requires Ordered(s) && t in s.pcs && s.pcs[t] == PutLocked(n, m, post) && s.tail in s.mem
    ensures Ordered(Link(s, t, n, m, post).s)
  {
    var s' := Link(s, t, n, m, post).s;
    if s.past.popped in s.past.deleted {
      var u :| u in s.pcs && BeforePop(s.pcs[u]);
      assert u in s'.pcs && BeforePop(s'.pcs[u]);
    }
  }

  lemma MoveTailRelies(s: State, t: Thread, n: Address, m: Msg, post: bool, pc: PC)
    requires Relies(s, pc) && !InTail(pc)
    ensures Relies(MoveTail(s, t, n, m, post).s, pc)
  {
  }

  lemma MoveTailOwn(s: State, t: Thread, n: Address, m: Msg, post: bool)
    requires Chain(s) && Relies(s, PutLinked(n, m, post))
    ensures Chain(MoveTail(s, t, n, m, post).s) && Relies(MoveTail(s, t, n, m, post).s, PutMoved(n, m, post))
  {
  }

  lemma MoveTailKeeps(s: State, t: Thread, n: Address, m: Msg, post: bool)
    requires Inv(s) && t in s.pcs && s.pcs[t] == PutLinked(n, m, post)
    ensures Inv(MoveTail(s, t, n, m, post).s)
  {
    hide Chain, Ordered, Relies;
    var s' := MoveTail(s, t, n, m, post).s;
    MoveTailOwn(s, t, n, m, post);
    TailLockAfter(s, s', t);
    HeadLockAfter(s, s', t);
    OrderedAfter(s, s', t);
    forall u | u in s.pcs && u != t
      ensures Relies(s', s.pcs[u])
    {
      MoveTailRelies(s, t, n, m, post, s.pcs[u]);
    }
    hide TailLock, HeadLock;
    Assemble(s, s', t);
  }

  lemma IncrementRelies(s: State, t: Thread, m: Msg, post: bool, pc: PC)
    requires Relies(s, pc) && !InTail(pc)
    ensures Relies(Increment(s, t, m, post).s, pc)
  {
  }

  lemma IncrementOwn(s: State, t: Thread, n: Address, m: Msg, post: bool)
    requires Chain(s) && Relies(s, PutMoved(n, m, post))
    ensures Chain(Increment(s, t, m, post).s) && Relies(Increment(s, t, m, post).s, PutCounted(m, post, s.size + 1))
  {
  }

  lemma IncrementKeeps(s: State, t: Thread, n: Address, m: Msg, post: bool)
    requires Inv(s) && t in s.pcs && s.pcs[t] == PutMoved(n, m, post)
    ensures Inv(Increment(s, t, m, post).s)
  {
    hide Chain, Ordered, Relies, IsFirst, Tokens, TailSettled;
    var s' := Increment(s, t, m, post).s;
    IncrementOwn(s, t, n, m, post);
    IncrementOrdered(s, t, n, m, post);
    TailLockAfter(s, s', t);
    HeadLockAfter(s, s', t);
    hide TailLock, HeadLock;
    forall u | u in s.pcs && u != t
      ensures Relies(s', s.pcs[u])
    {
      IncrementRelies(s, t, m, post, s.pcs[u]);
    }
    IncrementQueue(s, t, m, post);
    Assemble(s, s', t);
  }

  lemma IncrementQueue(s: State, t: Thread, m: Msg, post: bool)
    requires Threads(s)
    ensures var s' := Increment(s, t, m, post).s; forall i :: 0 <= i < |s'.queue| ==> IsFirst(s', s'.queue[i])
  {
    hide Relies;
  }

  lemma IncrementOrdered(s: State, t: Thread, n: Address, m: Msg, post: bool)
    requires Ordered(s) && t in s.pcs && s.pcs[t] == PutMoved(n, m, post)
    ensures Ordered(Increment(s, t, m, post).s)
  {
    if s.past.popped in s.past.deleted {
      var u :| u in s.pcs && BeforePop(s.pcs[u]);
      assert BeforePop(Increment(s, t, m, post).s.pcs[u]);
    }
  }

  lemma UnlockTailOwn(s: State, t: Thread, m: Msg, post: bool, size: int)
    requires Relies(s, PutCounted(m, post, size))
    ensures TailSettled(UnlockTail(s, t, m, post, size).s)
    ensures Relies(UnlockTail(s, t, m, post, size).s, PutDone(m, post, size))
  {
  }

  lemma UnlockTailKeeps(s: State, t: Thread, m: Msg, post: bool, size: int)
    requires Inv(s) && t in s.pcs && s.pcs[t] == PutCounted(m, post, size)
    ensures Inv(UnlockTail(s, t, m, post, size).s)
  {
    hide Relies, Ordered, Chain, IsFirst, Tokens, TailSettled;
    var s' := UnlockTail(s, t, m, post, size).s;
    UnlockTailOwn(s, t, m, post, size);
    TailLockFreed(s, s', t);
    ChainReads(s, s');
    HeadLockAfter(s, s', t);
    OrderedAfter(s, s', t);
    SameHeapRelies(s, s', t);
    hide TailLock, HeadLock;
    Assemble(s, s', t);
  }

  lemma AfterPutKeeps(s: State, t: Thread, m: Msg, post: bool, size: int)
    requires Inv(s) && t in s.pcs && s.pcs[t] == PutDone(m, post, size)
    ensures Inv(AfterPut(s, t, m, post, size).s)
  {
    assert Relies(s, s.pcs[t]);
    QuietStep(s, AfterPut(s, t, m, post, size).s, t);
  }

  // ---- the dispatch queue and the functor ----

  lemma PostKeeps(s: State, t: Thread, m: Msg)
    requires Inv(s) && t in s.pcs && s.pcs[t] == Posting(m)
    ensures Inv(Post(s, t, m).s)
  {
    assert Relies(s, s.pcs[t]);
    QuietStep(s, Post(s, t, m).s, t);
  }

  lemma TakeKeeps(s: State, t: Thread, i: nat)
    requires Inv(s) && t in s.pcs && s.pcs[t].Idle? && i < |s.queue|
    ensures Inv(IdleStep(s, t, Take(i)).s)
  {
    var s' := IdleStep(s, t, Take(i)).s;
    assert |s'.queue| == |s.queue| - 1;
    assert |s'.queue| == 0 by { hide Chain, Threads, Ordered; }
    QuietStep(s, s', t);
  }

  /** Whoever holds the token and is not about to pop works on a message that is not deleted. */
  lemma FirstNotDeleted(s: State, t: Thread)
    requires OneToken(s) && Ordered(s) && t in s.pcs && HasToken(s.pcs[t]) && !BeforePop(s.pcs[t])
    ensures s.past.popped !in s.past.deleted
  {
    TokenIsAlone(s, t);
    assert forall u :: u in s.pcs && BeforePop(s.pcs[u]) ==> HasToken(s.pcs[u]);
  }

  lemma BeginCallRelies(s: State, t: Thread, m: Msg, inline: bool, pc: PC)
    requires Relies(s, pc) && !HasToken(pc)
    ensures Relies(BeginCall(s, t, m, inline).s, pc)
  {
  }

  lemma CallsGrow(p: History, m: Msg)
    requires p.popped < |p.linked| && p.linked[p.popped] == m && CallOrder(p)
    ensures CallOrder(p.(calls := p.calls + [Call(p.popped, m)]))
  {
  }

  lemma BeginCallOrdered(s: State, t: Thread, m: Msg, inline: bool)
    requires Ordered(s) && IsFirst(s, m) && s.past.popped !in s.past.deleted
    ensures Ordered(BeginCall(s, t, m, inline).s)
  {
    CallsGrow(s.past, m);
    hide CallOrder, IsFirst;
  }

  lemma BeginCallOwn(s: State, t: Thread, m: Msg, inline: bool)
    requires Chain(s) && t in s.pcs && (s.pcs[t] == Looping(m) || s.pcs[t] == Holding(m)) && Relies(s, s.pcs[t])
    ensures Chain(BeginCall(s, t, m, inline).s) && IsFirst(s, m)
    ensures Relies(BeginCall(s, t, m, inline).s, Calling(m, inline))
  {
  }

  lemma BeginCallKeeps(s: State, t: Thread, m: Msg, inline: bool)
    requires Inv(s) && t in s.pcs && (s.pcs[t] == Looping(m) || s.pcs[t] == Holding(m))
    ensures Inv(BeginCall(s, t, m, inline).s)
  {
    hide Chain, Ordered, Tokens, Relies, IsFirst;
    var s' := BeginCall(s, t, m, inline).s;
    BeginCallOwn(s, t, m, inline);
    FirstNotDeleted(s, t);
    TokenIsAlone(s, t);
    BeginCallOrdered(s, t, m, inline);
    TailLockAfter(s, s', t);
    HeadLockAfter(s, s', t);
    forall u | u in s.pcs && u != t
      ensures Relies(s', s.pcs[u])
    {
      BeginCallRelies(s, t, m, inline, s.pcs[u]);
    }
    hide TailLock, HeadLock;
    Assemble(s, s', t);
  }

  predicate DropsToken(s: State, t: Thread, c: Choice)
    requires t in s.pcs
  {
    c.Decide? && s.pcs[t].Called? && !s.pcs[t].inline && (s.pcs[t].res.end || (s.pcs[t].res.keep && s.pcs[t].res.del))
  }

  lemma DeletedRelies(s: State, s': State, pc: PC)
    requires Relies(s, pc)
    requires s'.mem == s.mem && s'.head == s.head && s'.tail == s.tail && s'.lockH == s.lockH
    requires s'.past == s.past.(deleted := s'.past.deleted)
    ensures Relies(s', pc)
  {
  }

  lemma AfterCallOrdered(s: State, s': State, t: Thread, deleted: set<nat>)
    requires Ordered(s) && Steps(s, s', t)
    requires s.past.popped !in s.past.deleted && s'.past == s.past.(deleted := deleted)
    requires deleted == s.past.deleted || (deleted == s.past.deleted + {s.past.popped} && BeforePop(s'.pcs[t]))
    ensures Ordered(s')
  {
  }

  lemma AfterCallOwn(s: State, t: Thread, m: Msg, inline: bool, res: Result, exhausted: bool)
    requires Chain(s) && t in s.pcs && s.pcs[t] == Called(m, inline, res) && Relies(s, s.pcs[t])
    ensures Chain(AfterCall(s, t, m, inline, res, exhausted).s)
    ensures Relies(AfterCall(s, t, m, inline, res, exhausted).s, AfterCall(s, t, m, inline, res, exhausted).s.pcs[t])
  {
    var s' := AfterCall(s, t, m, inline, res, exhausted).s;
    assert Chain(s');
    hide Chain;
    assert IsFirst(s', m) && FirstWasCalled(s');
    hide IsFirst, FirstWasCalled;
  }

  /** The thread keeps the token, outside both locks; it goes on to pop if it has deleted the message. */
  lemma AfterCallStep(s: State, t: Thread, m: Msg, inline: bool, res: Result, exhausted: bool)
    requires t in s.pcs && s.pcs[t] == Called(m, inline, res) && !DropsToken(s, t, Decide(exhausted))
    ensures var s' := AfterCall(s, t, m, inline, res, exhausted).s;
            && Steps(s, s', t) && s' == s.(past := s'.past, pcs := s'.pcs)
            && s'.past == s.past.(deleted := s'.past.deleted)
            && (var deleted := s'.past.deleted;
                deleted == s.past.deleted || (deleted == s.past.deleted + {s.past.popped} && BeforePop(s'.pcs[t])))
            && HasToken(s'.pcs[t]) && !InTail(s'.pcs[t]) && !InHead(s'.pcs[t]) && !Prepares(s'.pcs[t])
  {
  }

  lemma AfterCallKeeps(s: State, t: Thread, m: Msg, inline: bool, res: Result, exhausted: bool)
    requires Inv(s) && t in s.pcs && s.pcs[t] == Called(m, inline, res)
    requires !DropsToken(s, t, Decide(exhausted))
    ensures Inv(AfterCall(s, t, m, inline, res, exhausted).s)
  {
    hide Chain, Ordered, Tokens, Relies, IsFirst, TailSettled, HeadSettled;
    var s' := AfterCall(s, t, m, inline, res, exhausted).s;
    AfterCallStep(s, t, m, inline, res, exhausted);
    AfterCallOwn(s, t, m, inline, res, exhausted);
    FirstNotDeleted(s, t);
    TokenIsAlone(s, t);
    hide AfterCall, DropsToken, BeforePop;
    AfterCallOrdered(s, s', t, s'.past.deleted);
    TailStays(s, s');
    HeadStays(s, s');
    TailLockAfter(s, s', t);
    HeadLockAfter(s, s', t);
    hide TailLock, HeadLock;
    forall u | u in s.pcs && u != t
      ensures Relies(s', s.pcs[u])
    {
      DeletedRelies(s, s', s.pcs[u]);
    }
    Assemble(s, s', t);
  }

  /** END_BIT, or KEEP_BIT together with DEL_BIT, leaves counted messages that nobody is to execute. */
  lemma DroppedTokenBreaks(s: State, t: Thread, c: Choice)
    requires Inv(s) && t in s.pcs && DropsToken(s, t, c)
    ensures Step(s, t, c).Moved? && !OneToken(Step(s, t, c).s)
  {
    var s' := Step(s, t, c).s;
    TokenIsAlone(s, t);
    hide Chain, Threads, Ordered, Tokens;
    TokensAfter(s, s', t);
  }

  // ---- get ----

  lemma LockHeadRelies(s: State, t: Thread, why: Purpose, pc: PC)
    requires Relies(s, pc) && !HasToken(pc) && s.lockH.Null?
    ensures Relies(LockHead(s, t, why).s, pc)
  {
  }

  lemma LockHeadOwn(s: State, t: Thread, why: Purpose)
    requires Chain(s) && Relies(s, GetWaiting(why)) && s.lockH.Null? && HeadSettled(s)
    ensures Chain(LockHead(s, t, why).s) && Relies(LockHead(s, t, why).s, GetLocked(why))
  {
  }

  lemma LockHeadKeeps(s: State, t: Thread, why: Purpose)
    requires Inv(s) && t in s.pcs && s.pcs[t] == GetWaiting(why) && s.lockH.Null?
    ensures Inv(LockHead(s, t, why).s)
  {
    hide Chain, Ordered, Relies, Tokens;
    var s' := LockHead(s, t, why).s;
    LockHeadOwn(s, t, why);
    TokenIsAlone(s, t);
    assert HeadLock(s');
    TailLockAfter(s, s', t);
    OrderedAfter(s, s', t);
    forall u | u in s.pcs && u != t
      ensures Relies(s', s.pcs[u])
    {
      LockHeadRelies(s, t, why, s.pcs[u]);
    }
    hide TailLock, HeadLock;
    Assemble(s, s', t);
  }

  lemma ReadHeadOwn(s: State, t: Thread, why: Purpose)
    requires Chain(s) && Relies(s, GetLocked(why)) && s.size > 0
    ensures ReadHead(s, t, why).Moved?
    ensures ReadHead(s, t, why).s == s.At(t, GetRead(why, s.head, s.mem[s.head].next))
    ensures Relies(s, GetRead(why, s.head, s.mem[s.head].next))
  {
  }

  lemma ReadHeadKeeps(s: State, t: Thread, why: Purpose)
    requires Inv(s) && t in s.pcs && s.pcs[t] == GetLocked(why)
    ensures ReadHead(s, t, why).Moved? && Inv(ReadHead(s, t, why).s)
  {
    hide Chain, Ordered, Relies, Tokens, IsFirst;
    TokenIsAlone(s, t);
    ReadHeadOwn(s, t, why);
    var s' := ReadHead(s, t, why).s;
    ReliesReads(s, s', s'.pcs[t]);
    hide TailLock, HeadLock;
    QuietStep(s, s', t);
  }

  /** Nobody but the holder of the token and the owner of the head lock looks at what a pop changes. */
  lemma DecrementRelies(s: State, s': State, pc: PC)
    requires Relies(s, pc) && !HasToken(pc) && !InHead(pc)
    requires s'.mem == s.mem && s'.head == s.head && s'.tail == s.tail && s'.lockH == s.lockH
    requires s'.past == s.past.(popped := s'.past.popped)
    ensures Relies(s', pc)
  {
  }

  lemma DecrementOwn(s: State, t: Thread, why: Purpose, head: Address, next: Pointer<Address>)
    requires Chain(s) && Relies(s, GetRead(why, head, next)) && s.size > 0 && t in s.pcs
    ensures next.Ptr?
    ensures Chain(Decrement(s, t, why, head, next).s)
    ensures Relies(Decrement(s, t, why, head, next).s, GetCounted(why, head, next.at, s.size - 1))
    ensures FirstWasCalled(s)
  {
  }

  lemma PopOrdered(s: State, s': State)
    requires Ordered(s) && FirstWasCalled(s)
    requires s'.past == s.past.(popped := s.past.popped + 1)
    ensures Ordered(s')
  {
  }

  lemma DecrementKeeps(s: State, t: Thread, why: Purpose, head: Address, next: Pointer<Address>)
    requires Inv(s) && t in s.pcs && s.pcs[t] == GetRead(why, head, next)
    ensures Inv(Decrement(s, t, why, head, next).s)
  {
    hide Chain, Ordered, Relies, Tokens, IsFirst, FirstWasCalled, TailSettled, HeadSettled, BeforePop;
    TokenIsAlone(s, t);
    DecrementOwn(s, t, why, head, next);
    var s' := Decrement(s, t, why, head, next).s;
    assert s'.pcs[t] == GetCounted(why, head, next.at, s.size - 1) && s'.size == s.size - 1 && s'.queue == [];
    PopOrdered(s, s');
    TailStays(s, s');
    TailLockAfter(s, s', t);
    HeadLockAfter(s, s', t);
    hide TailLock, HeadLock;
    assert forall u :: u in s.pcs && u != t ==> !HasToken(s.pcs[u]) && !InHead(s.pcs[u]) by {
      OthersOutside(s, t);
    }
    forall u | u in s.pcs && u != t
      ensures Relies(s', s.pcs[u])
    {
      DecrementRelies(s, s', s.pcs[u]);
    }
    Assemble(s, s', t);
  }

  lemma TailStays(s: State, s': State)
    requires s'.tail == s.tail && s'.past.linked == s.past.linked && s'.past.places == s.past.places
    requires s'.past.counted == s.past.counted
    ensures TailSettled(s) ==> TailSettled(s')
  {
  }

  lemma HeadStays(s: State, s': State)
    requires s'.past.popped == s.past.popped && s'.past.moved == s.past.moved && s'.past.freed == s.past.freed
    ensures HeadSettled(s) ==> HeadSettled(s')
  {
  }

  /** The owner of the token who has the head lock is alone in both respects. */
  lemma OthersOutside(s: State, t: Thread)
    requires OneToken(s) && HeadLock(s) && t in s.pcs && HasToken(s.pcs[t]) && InHead(s.pcs[t])
    ensures forall u :: u in s.pcs && u != t ==> !HasToken(s.pcs[u]) && !InHead(s.pcs[u])
  {
    hide HasToken, InHead, Tokens, HeadSettled;
    TokenIsAlone(s, t);
  }

  lemma MoveHeadRelies(s: State, s': State, pc: PC)
    requires Relies(s, pc) && !InHead(pc) && s.lockH.Ptr?
    requires s'.mem == s.mem && s'.tail == s.tail && s'.lockH == s.lockH
    requires s'.past == s.past.(moved := s'.past.moved)
    ensures Relies(s', pc)
  {
  }

  lemma MoveHeadOwn(s: State, t: Thread, why: Purpose, head: Address, next: Address, size: int)
    requires Chain(s) && Relies(s, GetCounted(why, head, next, size)) && t in s.pcs
    ensures MoveHead(s, t, why, head, next, size).Moved?
    ensures Chain(MoveHead(s, t, why, head, next, size).s)
    ensures Relies(MoveHead(s, t, why, head, next, size).s, GetMoved(why, head, s.mem[next].value, size))
  {
    assert s.past.places[s.past.moved + 1] in s.mem;
  }

  lemma MoveHeadKeeps(s: State, t: Thread, why: Purpose, head: Address, next: Address, size: int)
    requires Inv(s) && t in s.pcs && s.pcs[t] == GetCounted(why, head, next, size)
    ensures MoveHead(s, t, why, head, next, size).Moved? && Inv(MoveHead(s, t, why, head, next, size).s)
  {
    hide Chain, Relies, Tokens, IsFirst;
    MoveHeadOwn(s, t, why, head, next, size);
    var s' := MoveHead(s, t, why, head, next, size).s;
    HeadStepOrdered(s, s', t);
    hide Ordered;
    TailLockAfter(s, s', t);
    HeadLockAfter(s, s', t);
    forall u | u in s.pcs && u != t
      ensures Relies(s', s.pcs[u])
    {
      MoveHeadRelies(s, s', s.pcs[u]);
    }
    QueueStays(s, s');
    hide TailLock, HeadLock;
    Assemble(s, s', t);
  }

  /** Moving the head and releasing a node leave the order of calls alone. */
  lemma HeadStepOrdered(s: State, s': State, t: Thread)
    requires Ordered(s) && Steps(s, s', t) && !BeforePop(s.pcs[t])
    requires s'.past == s.past.(moved := s'.past.moved, freed := s'.past.freed)
    ensures Ordered(s')
  {
    hide BeforePop;
    if s.past.popped in s.past.deleted {
      var u :| u in s.pcs && BeforePop(s.pcs[u]);
      assert BeforePop(s'.pcs[u]);
    }
  }

  lemma QueueStays(s: State, s': State)
    requires Threads(s) && s'.queue == s.queue
    requires s'.past == s.past.(moved := s'.past.moved, freed := s'.past.freed)
    ensures forall i :: 0 <= i < |s'.queue| ==> IsFirst(s', s'.queue[i])
  {
    hide Relies;
  }

  /** A node that is released is neither in the chain nor one that a producer is preparing. */
  lemma ReleaseRelies(s: State, s': State, pc: PC)
    requires Chain(s) && Relies(s, pc) && !InHead(pc) && s.lockH.Ptr? && s.past.freed < |s.past.places|
    requires s'.mem == s.mem - {s.past.places[s.past.freed]}
    requires s'.tail == s.tail && s'.head == s.head && s'.lockH == s.lockH
    requires s'.past == s.past.(freed := s.past.freed + 1)
    ensures Relies(s', pc)
  {
  }

  lemma ReleaseOwn(s: State, t: Thread, why: Purpose, head: Address, elem: Pointer<Msg>, size: int)
    requires Chain(s) && Relies(s, GetMoved(why, head, elem, size)) && t in s.pcs
    ensures elem.Ptr? && Release(s, t, why, head, elem, size).Moved?
    ensures s.past.freed < |s.past.places| && head == s.past.places[s.past.freed]
    ensures Chain(Release(s, t, why, head, elem, size).s)
    ensures Relies(Release(s, t, why, head, elem, size).s, GetFreed(why, elem, size))
  {
  }

  lemma ReleaseKeeps(s: State, t: Thread, why: Purpose, head: Address, elem: Pointer<Msg>, size: int)
    requires Inv(s) && t in s.pcs && s.pcs[t] == GetMoved(why, head, elem, size)
    ensures Release(s, t, why, head, elem, size).Moved? && Inv(Release(s, t, why, head, elem, size).s)
  {
    hide Chain, Relies, Tokens, IsFirst;
    ReleaseOwn(s, t, why, head, elem, size);
    var s' := Release(s, t, why, head, elem, size).s;
    HeadStepOrdered(s, s', t);
    hide Ordered;
    TailLockAfter(s, s', t);
    HeadLockAfter(s, s', t);
    forall u | u in s.pcs && u != t
      ensures Relies(s', s.pcs[u])
    {
      ReleaseRelies(s, s', s.pcs[u]);
    }
    QueueStays(s, s');
    hide TailLock, HeadLock;
    Assemble(s, s', t);
  }

  lemma UnlockHeadRelies(s: State, s': State, pc: PC)
    requires Relies(s, pc) && s'.lockH.Null?
    requires s'.mem == s.mem && s'.head == s.head && s'.tail == s.tail && s'.past == s.past
    ensures Relies(s', pc)
  {
  }

  lemma UnlockHeadOwn(s: State, t: Thread, why: Purpose, elem: Pointer<Msg>, size: int)
    requires Chain(s) && Relies(s, GetFreed(why, elem, size)) && t in s.pcs
    ensures Chain(UnlockHead(s, t, why, elem, size).s) && HeadSettled(s)
    ensures Relies(UnlockHead(s, t, why, elem, size).s, UnlockHead(s, t, why, elem, size).s.pcs[t])
  {
  }

  lemma UnlockHeadKeeps(s: State, t: Thread, why: Purpose, elem: Pointer<Msg>, size: int)
    requires Inv(s) && t in s.pcs && s.pcs[t] == GetFreed(why, elem, size)
    ensures Inv(UnlockHead(s, t, why, elem, size).s)
  {
    hide Chain, Ordered, Relies, Tokens, IsFirst;
    UnlockHeadOwn(s, t, why, elem, size);
    var s' := UnlockHead(s, t, why, elem, size).s;
    TailLockAfter(s, s', t);
    assert HeadLock(s');
    OrderedAfter(s, s', t);
    forall u | u in s.pcs && u != t
      ensures Relies(s', s.pcs[u])
    {
      UnlockHeadRelies(s, s', s.pcs[u]);
    }
    QueueStays(s, s');
    hide TailLock, HeadLock;
    Assemble(s, s', t);
  }

  // ---- peek ----

  lemma PeekStartKeeps(s: State, t: Thread, why: Purpose)
    requires Inv(s) && t in s.pcs && s.pcs[t] == PeekStart(why)
    ensures Inv(s.At(t, PeekRead(why, s.head)))
  {
    assert Relies(s, s.pcs[t]);
    hide Chain, Ordered, Tokens;
    QuietStep(s, s.At(t, PeekRead(why, s.head)), t);
  }

  /** The message that a peek after a positive count finds is the first one. */
  lemma PeekFindsFirst(s: State, t: Thread, why: Purpose, head: Address)
    requires Chain(s) && HeadLock(s) && Relies(s, PeekRead(why, head)) && s.size > 0
    ensures head in s.mem && s.mem[head].next.Ptr? && s.mem[head].next.at in s.mem
    ensures s.mem[s.mem[head].next.at].value.Ptr? && IsFirst(s, s.mem[s.mem[head].next.at].value.at)
  {
    assert s.past.popped == s.past.moved;
    assert s.past.places[s.past.moved + 1] in s.mem;
  }

  lemma FirstIsRelied(s: State, m: Msg)
    requires IsFirst(s, m)
    ensures forall why :: Relies(s, Resume(why, m))
  {
  }

  lemma PeekKeeps(s: State, t: Thread, why: Purpose, head: Address)
    requires Inv(s) && t in s.pcs && s.pcs[t] == PeekRead(why, head)
    ensures Peek(s, t, why, head).Moved? && Inv(Peek(s, t, why, head).s)
  {
    hide Chain, Ordered, Tokens;
    TokenIsAlone(s, t);
    PeekFindsFirst(s, t, why, head);
    var s' := Peek(s, t, why, head).s;
    var m := s.mem[s.mem[head].next.at].value.at;
    FirstIsRelied(s, m);
    hide TailLock, HeadLock, Relies, IsFirst;
    ReliesReads(s, s', s'.pcs[t]);
    QuietStep(s, s', t);
  }
}
