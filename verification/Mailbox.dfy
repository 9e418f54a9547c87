/**
 Referencer.hpp over msglist.hpp: an actor's mailbox as a system of interleaved steps.

 Producers link a node and count it under the tail lock. Whoever owns the execution token calls the
 functor of the first message and pops it under the head lock. Any number of threads takes part; a
 functor that puts messages itself is covered by letting another thread do so while it runs. Each
 step is atomic, and the memory is sequentially consistent.
 */
module Mailbox {
  import opened Pointers

  type Address = nat
  type Thread = nat
  type Msg = nat

  /** A MsgElement. */
  datatype Node = Node(value: Pointer<Msg>, next: Pointer<Address>)

  /** The bits a functor returns. */
  datatype Result = Result(keep: bool, last: bool, del: bool, end: bool)

  /** What the one who pops a message wants the following one for. */
  datatype Purpose = ToRun | ToPost | ToReturn

  datatype PC =
    | Idle
    // put and add
    | PutReady(n: Address, m: Msg, post: bool)
    | PutLocked(n: Address, m: Msg, post: bool)
    | PutLinked(n: Address, m: Msg, post: bool)
    | PutMoved(n: Address, m: Msg, post: bool)
    | PutCounted(m: Msg, post: bool, size: int)
    | PutDone(m: Msg, post: bool, size: int)
    | Posting(m: Msg)
    | Holding(m: Msg)
    // execute; `inline` is a caller of add that runs the functor itself and then asks for the next message
    | Looping(m: Msg)
    | Calling(m: Msg, inline: bool)
    | Called(m: Msg, inline: bool, res: Result)
    // get
    | GetWaiting(why: Purpose)
    | GetLocked(why: Purpose)
    | GetRead(why: Purpose, head: Address, next: Pointer<Address>)
    | GetCounted(why: Purpose, head: Address, newHead: Address, size: int)
    | GetMoved(why: Purpose, head: Address, elem: Pointer<Msg>, size: int)
    | GetFreed(why: Purpose, elem: Pointer<Msg>, size: int)
    // peek
    | PeekStart(why: Purpose)
    | PeekRead(why: Purpose, head: Address)
    // getNext returned the message it has just popped
    | Stale(elem: Pointer<Msg>)

  /** A functor call, with the number of messages that had been popped when it began. */
  datatype Call = Call(pos: nat, m: Msg)

  /** What has happened so far; no step depends on it. */
  datatype History = History(linked: seq<Msg>, places: seq<Address>, counted: nat, popped: nat, moved: nat,
                             freed: nat, calls: seq<Call>, deleted: set<nat>)

  datatype State = State(mem: map<Address, Node>, head: Address, tail: Address, size: int,
                         lockH: Pointer<Thread>, lockT: Pointer<Thread>, queue: seq<Msg>,
                         pcs: map<Thread, PC>, past: History)
  {
    function At(t: Thread, pc: PC): State {
      this.(pcs := pcs[t := pc])
    }
  }

  /** The free choices of a thread: its next operation, the data it meets, and the outcome of tests left open. */
  datatype Choice =
    | Go
    | StartPut(n: Address, m: Msg, post: bool)
    | Take(i: nat)
    | RunInline
    | Spin
    | Return(res: Result)
    | Decide(exhausted: bool)

  datatype Outcome = Moved(s: State) | Blocked | Disabled | Fault

  // ---- the steps ----

  function Step(s: State, t: Thread, c: Choice): Outcome
    requires t in s.pcs
  {
    match s.pcs[t]
    case Idle => IdleStep(s, t, c)
    case PutReady(n, m, post) => if c.Go? then LockTail(s, t, n, m, post) else Disabled
    case PutLocked(n, m, post) => if c.Go? then Link(s, t, n, m, post) else Disabled
    case PutLinked(n, m, post) => if c.Go? then MoveTail(s, t, n, m, post) else Disabled
    case PutMoved(n, m, post) => if c.Go? then Increment(s, t, m, post) else Disabled
    case PutCounted(m, post, size) => if c.Go? then UnlockTail(s, t, m, post, size) else Disabled
    case PutDone(m, post, size) => if c.Go? then AfterPut(s, t, m, post, size) else Disabled
    case Posting(m) => if c.Go? then Post(s, t, m) else Disabled
    case Holding(m) =>
      if c.Go? then Moved(s.At(t, Looping(m)))
      else if c.RunInline? then BeginCall(s, t, m, true)
      else Disabled
    case Looping(m) =>
      // The status and size tests only decide whether to go round once more.
      if c.Go? then BeginCall(s, t, m, false)
      else if c.Spin? then Moved(s)
      else Disabled
    case Calling(m, inline) => if c.Return? then Moved(s.At(t, Called(m, inline, c.res))) else Disabled
    case Called(m, inline, res) => if c.Decide? then AfterCall(s, t, m, inline, res, c.exhausted) else Disabled
    case GetWaiting(why) => if c.Go? then LockHead(s, t, why) else Disabled
    case GetLocked(why) => if c.Go? then ReadHead(s, t, why) else Disabled
    case GetRead(why, head, next) => if c.Go? then Decrement(s, t, why, head, next) else Disabled
    case GetCounted(why, head, next, size) => if c.Go? then MoveHead(s, t, why, head, next, size) else Disabled
    case GetMoved(why, head, elem, size) => if c.Go? then Release(s, t, why, head, elem, size) else Disabled
    case GetFreed(why, elem, size) => if c.Go? then UnlockHead(s, t, why, elem, size) else Disabled
    case PeekStart(why) => if c.Go? then Moved(s.At(t, PeekRead(why, s.head))) else Disabled
    case PeekRead(why, head) => if c.Go? then Peek(s, t, why, head) else Disabled
    case Stale(_) => if c.Go? then Moved(s.At(t, Idle)) else Disabled
  }

  /** An idle thread begins a put with a node at an unused address, or takes a posted message to execute. */
  function IdleStep(s: State, t: Thread, c: Choice): Outcome {
    match c
    case StartPut(n, m, post) =>
      if n in s.mem then Disabled
      else Moved(s.(mem := s.mem[n := Node(Ptr(m), Null)]).At(t, PutReady(n, m, post)))
    case Take(i) =>
      if i < |s.queue| then Moved(s.(queue := s.queue[..i] + s.queue[i + 1..]).At(t, Looping(s.queue[i])))
      else Disabled
    case _ => Disabled
  }

  function LockTail(s: State, t: Thread, n: Address, m: Msg, post: bool): Outcome {
    if s.lockT.Ptr? then Blocked else Moved(s.(lockT := Ptr(t)).At(t, PutLocked(n, m, post)))
  }

  function Link(s: State, t: Thread, n: Address, m: Msg, post: bool): Outcome {
    if s.tail !in s.mem then Fault
    else
      Moved(s.(mem := s.mem[s.tail := s.mem[s.tail].(next := Ptr(n))],
               past := s.past.(linked := s.past.linked + [m], places := s.past.places + [n]))
             .At(t, PutLinked(n, m, post)))
  }

  function MoveTail(s: State, t: Thread, n: Address, m: Msg, post: bool): Outcome {
    Moved(s.(tail := n).At(t, PutMoved(n, m, post)))
  }

  function Increment(s: State, t: Thread, m: Msg, post: bool): Outcome {
    Moved(s.(size := s.size + 1, past := s.past.(counted := s.past.counted + 1))
           .At(t, PutCounted(m, post, s.size + 1)))
  }

  function UnlockTail(s: State, t: Thread, m: Msg, post: bool, size: int): Outcome {
    Moved(s.(lockT := Null).At(t, PutDone(m, post, size)))
  }

  /** Only the producer that saw the size become 1 goes on: put posts the message, add returns it. */
  function AfterPut(s: State, t: Thread, m: Msg, post: bool, size: int): Outcome {
    Moved(s.At(t, if size != 1 then Idle else if post then Posting(m) else Holding(m)))
  }

  function Post(s: State, t: Thread, m: Msg): Outcome {
    Moved(s.(queue := s.queue + [m]).At(t, Idle))
  }

  function BeginCall(s: State, t: Thread, m: Msg, inline: bool): Outcome {
    Moved(s.(past := s.past.(calls := s.past.calls + [Call(s.past.popped, m)])).At(t, Calling(m, inline)))
  }

  /** `exhausted` is the priority test; a deleted message leaves a null pointer behind. */
  function AfterCall(s: State, t: Thread, m: Msg, inline: bool, res: Result, exhausted: bool): Outcome {
    if inline then Moved(s.At(t, GetWaiting(ToReturn)))
    else if res.end then Moved(s.At(t, Idle))
    else
      var s' := if res.del then s.(past := s.past.(deleted := s.past.deleted + {s.past.popped})) else s;
      var over := exhausted || res.last;
      Moved(s'.At(t,
        if !res.keep then GetWaiting(if over then ToPost else ToRun)
        else if res.del then Idle
        else if over then Posting(m)
        else Looping(m)))
  }

  function LockHead(s: State, t: Thread, why: Purpose): Outcome {
    if s.lockH.Ptr? then Blocked else Moved(s.(lockH := Ptr(t)).At(t, GetLocked(why)))
  }

  function ReadHead(s: State, t: Thread, why: Purpose): Outcome {
    if s.head !in s.mem then Fault
    else Moved(s.At(t, GetRead(why, s.head, s.mem[s.head].next)))
  }

  function Decrement(s: State, t: Thread, why: Purpose, head: Address, next: Pointer<Address>): Outcome {
    if next.Null? then Moved(s.At(t, GetFreed(why, Null, 0)))
    else
      Moved(s.(size := s.size - 1, past := s.past.(popped := s.past.popped + 1))
             .At(t, GetCounted(why, head, next.at, s.size - 1)))
  }

  function MoveHead(s: State, t: Thread, why: Purpose, head: Address, next: Address, size: int): Outcome {
    if next !in s.mem then Fault
    else
      Moved(s.(head := next, past := s.past.(moved := s.past.moved + 1))
             .At(t, GetMoved(why, head, s.mem[next].value, size)))
  }

  function Release(s: State, t: Thread, why: Purpose, head: Address, elem: Pointer<Msg>, size: int): Outcome {
    if elem.Null? then Moved(s.At(t, GetFreed(why, elem, size)))
    else if head !in s.mem then Fault
    else
      Moved(s.(mem := s.mem - {head}, past := s.past.(freed := s.past.freed + 1))
             .At(t, GetFreed(why, elem, size)))
  }

  /** With a positive size the next message is looked at; otherwise the token has passed on. */
  function UnlockHead(s: State, t: Thread, why: Purpose, elem: Pointer<Msg>, size: int): Outcome {
    Moved(s.(lockH := Null)
           .At(t, if size > 0 then PeekStart(why) else if why.ToReturn? then Stale(elem) else Idle))
  }

  function Peek(s: State, t: Thread, why: Purpose, head: Address): Outcome {
    if head !in s.mem then Fault
    else if s.mem[head].next.Null? then Moved(s.At(t, Idle))
    else if s.mem[head].next.at !in s.mem then Fault
    else if s.mem[s.mem[head].next.at].value.Null? then Moved(s.At(t, Idle))
    else
      Moved(s.At(t, Resume(why, s.mem[s.mem[head].next.at].value.at)))
  }

  /** What is done with the next message: execute goes on with it or posts it, getNext returns it. */
  function Resume(why: Purpose, m: Msg): PC {
    match why
    case ToRun => Looping(m)
    case ToPost => Posting(m)
    case ToReturn => Holding(m)
  }

  // ---- the invariant ----

  /** The one right to execute, while a thread has it. */
  predicate HasToken(pc: PC) {
    match pc
    case PutCounted(_, _, size) => size == 1
    case PutDone(_, _, size) => size == 1
    case Posting(_) => true
    case Holding(_) => true
    case Looping(_) => true
    case Calling(_, _) => true
    case Called(_, _, _) => true
    case GetWaiting(_) => true
    case GetLocked(_) => true
    case GetRead(_, _, _) => true
    case GetCounted(_, _, _, size) => size > 0
    case GetMoved(_, _, _, size) => size > 0
    case GetFreed(_, _, size) => size > 0
    case PeekStart(_) => true
    case PeekRead(_, _) => true
    case _ => false
  }

  ghost function Tokens(s: State): set<Thread> {
    set t | t in s.pcs && HasToken(s.pcs[t])
  }

  /** Exactly one token while the counted size is positive, none while it is zero. */
  ghost predicate OneToken(s: State) {
    s.size >= 0 && |Tokens(s)| + |s.queue| == if s.size > 0 then 1 else 0
  }

  /** The nodes from the last one not released on form the chain of linked messages. */
  ghost predicate Chain(s: State) {
    var p := s.past;
    && |p.places| == |p.linked| + 1
    && p.freed <= p.moved <= p.popped <= p.counted <= |p.linked| <= p.counted + 1
    && s.size == p.counted - p.popped
    && s.head == p.places[p.moved]
    && (forall i :: p.freed <= i < |p.places| ==> p.places[i] in s.mem)
    && (forall i, j :: p.freed <= i < j < |p.places| ==> p.places[i] != p.places[j])
    && (forall i :: p.freed <= i < |p.linked| ==> s.mem[p.places[i]].next == Ptr(p.places[i + 1]))
    && s.mem[p.places[|p.linked|]].next == Null
    && (forall i :: p.moved < i < |p.places| ==> s.mem[p.places[i]].value == Ptr(p.linked[i - 1]))
  }

  ghost predicate TailSettled(s: State) {
    && |s.past.places| == |s.past.linked| + 1
    && |s.past.linked| == s.past.counted && s.tail == s.past.places[|s.past.linked|]
  }

  ghost predicate HeadSettled(s: State) {
    s.past.popped == s.past.moved == s.past.freed
  }

  /** The tail lock covers exactly the producers between locking and unlocking. */
  ghost predicate TailLock(s: State) {
    && (s.lockT.Null? ==> TailSettled(s))
    && (s.lockT.Ptr? ==> s.lockT.at in s.pcs && InTail(s.pcs[s.lockT.at]))
    && (forall t :: t in s.pcs && InTail(s.pcs[t]) ==> s.lockT == Ptr(t))
  }

  ghost predicate HeadLock(s: State) {
    && (s.lockH.Null? ==> HeadSettled(s))
    && (s.lockH.Ptr? ==> s.lockH.at in s.pcs && InHead(s.pcs[s.lockH.at]))
    && (forall t :: t in s.pcs && InHead(s.pcs[t]) ==> s.lockH == Ptr(t))
  }

  predicate InTail(pc: PC) {
    pc.PutLocked? || pc.PutLinked? || pc.PutMoved? || pc.PutCounted?
  }

  predicate InHead(pc: PC) {
    pc.GetLocked? || pc.GetRead? || pc.GetCounted? || pc.GetMoved? || pc.GetFreed?
  }

  /** The first message that is counted and not popped. */
  ghost predicate IsFirst(s: State, m: Msg) {
    s.past.popped < s.past.counted && s.past.popped < |s.past.linked| && s.past.linked[s.past.popped] == m
  }

  /** The functor of the first message has been called since the last pop. */
  ghost predicate FirstWasCalled(s: State) {
    s.past.calls != [] && s.past.calls[|s.past.calls| - 1].pos == s.past.popped
  }

  /** A node that a producer has filled and not linked yet. */
  ghost predicate OwnsNode(s: State, n: Address, m: Msg) {
    && n in s.mem && s.mem[n] == Node(Ptr(m), Null)
    && (forall i :: s.past.freed <= i < |s.past.places| ==> s.past.places[i] != n)
  }

  ghost predicate Linking(s: State, n: Address, m: Msg) {
    && |s.past.places| == |s.past.linked| + 1 && |s.past.linked| == s.past.counted + 1
    && s.past.places[|s.past.linked|] == n && s.past.linked[|s.past.linked| - 1] == m
  }

  /** What each thread relies on. */
  ghost predicate Relies(s: State, pc: PC) {
    match pc
    case PutReady(n, m, _) => OwnsNode(s, n, m)
    case PutLocked(n, m, _) => OwnsNode(s, n, m) && TailSettled(s)
    case PutLinked(n, m, _) => Linking(s, n, m) && s.tail == s.past.places[|s.past.linked| - 1]
    case PutMoved(n, m, _) => Linking(s, n, m) && s.tail == n
    case PutCounted(m, _, size) => TailSettled(s) && (size == 1 ==> IsFirst(s, m))
    case PutDone(m, _, size) => size == 1 ==> IsFirst(s, m)
    case Posting(m) => IsFirst(s, m)
    case Holding(m) => IsFirst(s, m)
    case Looping(m) => IsFirst(s, m)
    case Calling(m, _) => IsFirst(s, m) && FirstWasCalled(s)
    case Called(m, _, _) => IsFirst(s, m) && FirstWasCalled(s)
    case GetWaiting(_) => FirstWasCalled(s)
    case GetLocked(_) => FirstWasCalled(s) && HeadSettled(s)
    case GetRead(_, head, next) =>
      && FirstWasCalled(s) && HeadSettled(s) && head == s.head
      && s.past.moved + 1 < |s.past.places| && next == Ptr(s.past.places[s.past.moved + 1])
    case GetCounted(_, head, next, size) =>
      && head == s.head && s.past.popped == s.past.moved + 1 && s.past.moved == s.past.freed
      && s.past.moved + 1 < |s.past.places| && next == s.past.places[s.past.moved + 1]
    case GetMoved(_, head, elem, _) =>
      && s.past.popped == s.past.moved == s.past.freed + 1
      && s.past.freed < |s.past.places| && head == s.past.places[s.past.freed]
      && s.past.freed < |s.past.linked| && elem == Ptr(s.past.linked[s.past.freed])
    case GetFreed(_, elem, _) =>
      && HeadSettled(s) && 0 < s.past.freed <= |s.past.linked| && elem == Ptr(s.past.linked[s.past.freed - 1])
    case PeekStart(_) => s.lockH.Null?
    case PeekRead(_, head) => s.lockH.Null? && head == s.head
    case _ => true
  }

  ghost predicate Threads(s: State) {
    && (forall t :: t in s.pcs ==> Relies(s, s.pcs[t]))
    && (forall t, u :: t in s.pcs && u in s.pcs && t != u && Prepares(s.pcs[t]) && Prepares(s.pcs[u]) ==>
          s.pcs[t].n != s.pcs[u].n)
    && (forall i :: 0 <= i < |s.queue| ==> IsFirst(s, s.queue[i]))
  }

  predicate Prepares(pc: PC) {
    pc.PutReady? || pc.PutLocked?
  }

  predicate BeforePop(pc: PC) {
    pc.GetWaiting? || pc.GetLocked? || pc.GetRead?
  }

  /** Calls follow the order of linking, none is left out; the last one is for the first message or the one before. */
  ghost predicate CallOrder(p: History) {
    && (p.calls == [] ==> p.popped == 0)
    && (p.calls != [] ==> p.calls[0].pos == 0 && p.popped - 1 <= p.calls[|p.calls| - 1].pos <= p.popped)
    && (forall k :: 0 <= k < |p.calls| ==> p.calls[k].pos < |p.linked| && p.calls[k].m == p.linked[p.calls[k].pos])
    && (forall k :: 0 < k < |p.calls| ==> p.calls[k - 1].pos <= p.calls[k].pos <= p.calls[k - 1].pos + 1)
  }

  /** Moreover, a deleted message is on its way out. */
  ghost predicate Ordered(s: State) {
    && CallOrder(s.past)
    && (forall d :: d in s.past.deleted ==> d <= s.past.popped)
    && (s.past.popped in s.past.deleted ==> exists t :: t in s.pcs && BeforePop(s.pcs[t]))
  }

  ghost predicate Inv(s: State) {
    && OneToken(s) && Chain(s) && TailLock(s) && HeadLock(s) && Threads(s) && Ordered(s)
  }
}
