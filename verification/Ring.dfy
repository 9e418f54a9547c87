/**
 The indices of FastBuffer.hpp, and its two sides as interleaved steps: one producer in push_sp and one
 consumer in pop_sc. A slot that is not null holds an item; each side moves only its own index.
 */
module Ring {
  import opened Word64
  import opened Pointers

  // ---- indices ----

  /** The buffer of 8-byte slots fits in memory. */
  predicate IsRingSize(size: nat) {
    0 < size < TOP_BIT
  }

  /** The next index, by the unsigned step 1 - size at the end of the buffer. */
  function Advance(i: Word, size: Word): Word {
    Add(i, if Add(i, 1) >= size then Sub(1, size) else 1)
  }

  function ToSigned(w: Word): int {
    if w < TOP_BIT then w else w - MODULUS
  }

  /** length(): the distance between the indices, or all or nothing when they meet. */
  function Length<T>(slots: seq<Pointer<T>>, read: Word, write: Word, size: Word): Word
    requires write < |slots|
  {
    var len := ToSigned(Sub(write, read));
    if len > 0 then len
    else if len < 0 then (size + len) % MODULUS
    else if slots[write].Null? then 0
    else size
  }

  /** Where the p-th item since the start goes. */
  function Place(p: nat, size: nat): (i: nat)
    requires size > 0
    ensures i < size
  {
    p % size
  }

  lemma AdvanceWraps(i: Word, size: Word)
    requires IsRingSize(size) && i < size
    ensures Advance(i, size) == if i + 1 == size then 0 else i + 1
  {
    if i + 1 == size && size > 1 {
      assert (1 - size) % MODULUS == 1 - size + MODULUS;
      assert (i + (1 - size + MODULUS)) % MODULUS == 0;
    }
  }

  lemma AdvancePlace(p: nat, size: Word)
    requires IsRingSize(size)
    ensures Advance(Place(p, size), size) == Place(p + 1, size)
  {
    AdvanceWraps(Place(p, size), size);
    var i, q := p % size, p / size;
    if i + 1 == size {
      DivModUnique(p + 1, size, q + 1, 0);
    } else {
      DivModUnique(p + 1, size, q, i + 1);
    }
  }

  lemma SamePlace(p: nat, q: nat, size: nat)
    requires size > 0 && Place(p, size) == Place(q, size) && q - size < p < q + size
    ensures p == q
  {
    assert p - q == (p / size - q / size) * size;
    MultiplesApart(p / size - q / size, size);
  }

  lemma PlaceRepeats(p: nat, size: nat)
    requires size > 0
    ensures Place(p + size, size) == Place(p, size)
  {
    assert p + size == (p / size + 1) * size + p % size;
    DivModUnique(p + size, size, p / size + 1, p % size);
  }

  /** The distance between two places is that of the items, give or take whole turns. */
  lemma PlacesApart(w: nat, r: nat, size: nat)
    requires size > 1 && -1 <= w - r <= size + 1
    ensures var x := Place(w, size) - Place(r, size);
            && (w - r == -1 ==> x == -1 || x == size - 1)
            && (w - r == 0 ==> x == 0)
            && (0 < w - r < size ==> x == w - r || x == w - r - size)
            && (w - r == size ==> x == 0)
            && (w - r == size + 1 ==> x == 1 || x == 1 - size)
  {
    var x, k := Place(w, size) - Place(r, size), w / size - r / size;
    assert w - r == k * size + x;
    MultiplesApart(k - 2, size);
    MultiplesApart(k + 1, size);
  }

  /** Modulo 2^64, a signed difference of places gives the distance going forward. */
  lemma SignedDistance(write: Word, read: Word, size: Word)
    requires IsRingSize(size) && read < size && write < size
    ensures ToSigned(Sub(write, read)) == write - read
    ensures write < read ==> (size + (write - read)) % MODULUS == size + write - read
  {
    if write < read {
      assert (write - read) % MODULUS == write - read + MODULUS;
    }
  }

  // ---- the two sides ----

  datatype Producing<T> = Resting | Testing(data: Pointer<T>) | Writing(data: Pointer<T>) | Pushed
  datatype Consuming<T> = Waiting | Checking | Reading | Clearing(data: Pointer<T>) | Popped

  /** The buffer, what each side is doing, and all that was written to and cleared from slots so far. */
  datatype State<T> = State(slots: seq<Pointer<T>>, read: Word, write: Word, producer: Producing<T>,
                            consumer: Consuming<T>, pushed: seq<Pointer<T>>, popped: seq<Pointer<T>>)

  datatype Action<T> = Push(data: Pointer<T>) | Produce | Pop | Consume

  predicate InBounds<T>(s: State<T>) {
    IsRingSize(|s.slots|) && s.read < |s.slots| && s.write < |s.slots|
  }

  /** One step; an action that its side cannot do now changes nothing. */
  function Step<T>(s: State<T>, a: Action<T>): (s': State<T>)
    requires InBounds(s)
    ensures InBounds(s')
  {
    AdvanceWraps(s.read, |s.slots|);
    AdvanceWraps(s.write, |s.slots|);
    match a
    case Push(data) => if s.producer.Resting? && data.Ptr? then s.(producer := Testing(data)) else s
    case Produce =>
      (match s.producer
       case Resting => s
       case Testing(data) => s.(producer := if s.slots[s.write].Null? then Writing(data) else Resting)
       case Writing(data) =>
         s.(slots := s.slots[s.write := data], pushed := s.pushed + [data], producer := Pushed)
       case Pushed => s.(write := Advance(s.write, |s.slots|), producer := Resting))
    case Pop => if s.consumer.Waiting? then s.(consumer := Checking) else s
    case Consume =>
      match s.consumer
      case Waiting => s
      case Checking => s.(consumer := if s.slots[s.read].Null? then Waiting else Reading)
      case Reading => s.(consumer := Clearing(s.slots[s.read]))
      case Clearing(data) =>
        s.(slots := s.slots[s.read := Null], popped := s.popped + [data], consumer := Popped)
      case Popped => s.(read := Advance(s.read, |s.slots|), consumer := Waiting)
  }

  function Run<T>(s: State<T>, acts: seq<Action<T>>): (s': State<T>)
    requires InBounds(s)
    ensures InBounds(s')
    decreases |acts|
  {
    if acts == [] then s else Run(Step(s, acts[0]), acts[1..])
  }

  /** The state that reset() leaves. */
  function Reset<T>(size: nat): (s: State<T>)
    requires IsRingSize(size)
    ensures InBounds(s)
  {
    State(seq(size, _ => Null), 0, 0, Resting, Waiting, [], [])
  }

  // ---- the invariant ----

  /** The items numbered from |popped| on: those pushed sit in their slots, the other slots are null. */
  ghost predicate Slots<T>(slots: seq<Pointer<T>>, pushed: seq<Pointer<T>>, popped: nat)
    requires |slots| > 0
  {
    && popped <= |pushed| <= popped + |slots|
    && (forall p :: popped <= p < popped + |slots| ==>
          slots[Place(p, |slots|)] == if p < |pushed| then pushed[p] else Null)
    && (forall p :: 0 <= p < |pushed| ==> pushed[p].Ptr?)
  }

  ghost predicate Sides<T>(s: State<T>)
    requires InBounds(s)
  {
    var o, i, size := |s.popped|, |s.pushed|, |s.slots|;
    && (s.producer.Pushed? ==> i > 0)
    && (s.consumer.Popped? ==> o > 0)
    && s.write == Place(if s.producer.Pushed? then i - 1 else i, size)
    && s.read == Place(if s.consumer.Popped? then o - 1 else o, size)
    && (s.producer.Testing? || s.producer.Writing? ==> s.producer.data.Ptr?)
    && (s.producer.Writing? ==> i < o + size)
    && (s.consumer.Reading? ==> o < i)
    && (s.consumer.Clearing? ==> o < i && s.consumer.data == s.pushed[o])
  }

  ghost predicate Inv<T>(s: State<T>) {
    && InBounds(s)
    && Slots(s.slots, s.pushed, |s.popped|)
    && s.popped == s.pushed[..|s.popped|]
    && Sides(s)
  }

  lemma ResetHolds<T>(size: nat)
    requires IsRingSize(size)
    ensures Inv(Reset<T>(size))
  {
  }

  lemma PushFills<T>(slots: seq<Pointer<T>>, pushed: seq<Pointer<T>>, popped: nat, data: Pointer<T>)
    requires |slots| > 0 && Slots(slots, pushed, popped) && |pushed| < popped + |slots| && data.Ptr?
    ensures Slots(slots[Place(|pushed|, |slots|) := data], pushed + [data], popped)
  {
    forall p | popped <= p < popped + |slots| && p != |pushed|
      ensures Place(p, |slots|) != Place(|pushed|, |slots|)
    {
      if Place(p, |slots|) == Place(|pushed|, |slots|) {
        SamePlace(p, |pushed|, |slots|);
      }
    }
  }

  lemma PopClears<T>(slots: seq<Pointer<T>>, pushed: seq<Pointer<T>>, popped: nat)
    requires |slots| > 0 && Slots(slots, pushed, popped) && popped < |pushed|
    ensures Slots(slots[Place(popped, |slots|) := Null], pushed, popped + 1)
  {
    PlaceRepeats(popped, |slots|);
    forall p | popped < p < popped + |slots|
      ensures Place(p, |slots|) != Place(popped, |slots|)
    {
      if Place(p, |slots|) == Place(popped, |slots|) {
        SamePlace(p, popped, |slots|);
      }
    }
  }

  /** Both sides say where they are, so each writes the slot it means to. */
  lemma StepKeepsSlots<T>(s: State<T>, a: Action<T>)
    requires Inv(s)
    ensures var s' := Step(s, a); Slots(s'.slots, s'.pushed, |s'.popped|) && s'.popped == s'.pushed[..|s'.popped|]
  {
    hide Place, Slots;
    if a.Produce? && s.producer.Writing? {
      PushFills(s.slots, s.pushed, |s.popped|, s.producer.data);
      SlotsLength(s.slots, s.pushed, |s.popped|);
    } else if a.Consume? && s.consumer.Clearing? {
      PopClears(s.slots, s.pushed, |s.popped|);
    }
  }

  lemma SlotsLength<T>(slots: seq<Pointer<T>>, pushed: seq<Pointer<T>>, popped: nat)
    requires |slots| > 0 && Slots(slots, pushed, popped)
    ensures popped <= |pushed| <= popped + |slots|
    ensures slots[Place(popped, |slots|)] == if popped < |pushed| then pushed[popped] else Null
    ensures slots[Place(|pushed|, |slots|)].Null? ==> |pushed| < popped + |slots|
  {
    hide Place;
    PlaceRepeats(popped, |slots|);
  }

  lemma StepKeepsSides<T>(s: State<T>, a: Action<T>)
    requires Inv(s)
    ensures Sides(Step(s, a))
  {
    var i, o, size := |s.pushed|, |s.popped|, |s.slots|;
    SlotsLength(s.slots, s.pushed, o);
    hide Place, Slots;
    match a
    case Produce =>
      if s.producer.Pushed? {
        AdvancePlace(i - 1, size);
      }
    case Consume =>
      if s.consumer.Popped? {
        AdvancePlace(o - 1, size);
      }
    case _ =>
  }

  lemma StepKeeps<T>(s: State<T>, a: Action<T>)
    requires Inv(s)
    ensures Inv(Step(s, a))
  {
    StepKeepsSlots(s, a);
    StepKeepsSides(s, a);
    hide Slots, Sides, Step;
  }

  lemma {:induction false} RunKeeps<T>(s: State<T>, acts: seq<Action<T>>)
    requires Inv(s)
    ensures Inv(Run(s, acts))
    decreases |acts|
  {
    if acts != [] {
      StepKeeps(s, acts[0]);
      hide Inv, Step;
      RunKeeps(Step(s, acts[0]), acts[1..]);
    }
  }

  // ---- what the two sides see ----

  /** In every interleaving the items come out as they went in, and no more than the size of the buffer are in it. */
  lemma EveryRunIsFifo<T>(size: nat, acts: seq<Action<T>>)
    requires IsRingSize(size)
    ensures var s := Run(Reset<T>(size), acts);
            && s.popped <= s.pushed
            && |s.pushed| - |s.popped| <= size
            && forall p :: 0 <= p < |s.pushed| ==> s.pushed[p].Ptr?
  {
    ResetHolds<T>(size);
    RunKeeps(Reset<T>(size), acts);
    RunSameSize(Reset<T>(size), acts);
  }

  lemma {:induction false} RunSameSize<T>(s: State<T>, acts: seq<Action<T>>)
    requires InBounds(s)
    ensures |Run(s, acts).slots| == |s.slots|
    decreases |acts|
  {
    if acts != [] {
      RunSameSize(Step(s, acts[0]), acts[1..]);
    }
  }

  /** push_sp refuses an item exactly if the buffer is full when it looks, pop_sc gives up exactly if it is empty. */
  lemma RefusedIffFull<T>(s: State<T>)
    requires Inv(s)
    ensures s.producer.Testing? ==>
              (Step(s, Produce).producer.Resting? <==> |s.pushed| - |s.popped| == |s.slots|)
    ensures s.consumer.Checking? ==> (Step(s, Consume).consumer.Waiting? <==> |s.pushed| == |s.popped|)
  {
    var i, o, size := |s.pushed|, |s.popped|, |s.slots|;
    hide Place;
    PlaceRepeats(o, size);
    assert s.slots[Place(o, size)].Null? <==> o == i;
    assert i < o + size ==> s.slots[Place(i, size)].Null?;
  }

  lemma SlotAtWrite<T>(s: State<T>)
    requires Inv(s)
    ensures s.producer.Pushed? ==> (s.slots[s.write].Null? <==> |s.popped| == |s.pushed|)
    ensures !s.producer.Pushed? ==> (s.slots[s.write].Null? <==> |s.pushed| < |s.popped| + |s.slots|)
  {
    var i, o, size := |s.pushed|, |s.popped|, |s.slots|;
    hide Place;
    if s.producer.Pushed? {
      PlaceRepeats(i - 1, size);
      assert o < i ==> s.slots[Place(i - 1, size)] == s.pushed[i - 1];
      assert o == i ==> s.slots[Place(i - 1 + size, size)].Null?;
    } else {
      PlaceRepeats(o, size);
      assert i < o + size ==> s.slots[Place(i, size)].Null?;
      assert s.slots[Place(o, size)].Null? <==> o == i;
    }
  }

  /**
   length() is the number of items in the buffer exactly if both sides or neither are between touching
   a slot and moving their index (or the buffer has one slot): in particular with no operation in progress.
   */
  lemma LengthExactIff<T>(s: State<T>)
    requires Inv(s)
    ensures Length(s.slots, s.read, s.write, |s.slots|) == |s.pushed| - |s.popped|
            <==> (s.producer.Pushed? == s.consumer.Popped? || |s.slots| == 1)
  {
    var size := |s.slots|;
    SlotAtWrite(s);
    SignedDistance(s.write, s.read, size);
    var w := if s.producer.Pushed? then |s.pushed| - 1 else |s.pushed|;
    var r := if s.consumer.Popped? then |s.popped| - 1 else |s.popped|;
    if size > 1 {
      PlacesApart(w, r, size);
    }
    hide Place, Slots;
  }

  /** A push into an empty buffer of two slots, before its index has moved: one item, and a length of two. */
  lemma LengthMidPush<T>(data: T)
    ensures var s := Run(Reset<T>(2), [Push(Ptr(data)), Produce, Produce]);
            |s.pushed| - |s.popped| == 1 && Length(s.slots, s.read, s.write, |s.slots|) == 2
  {
    var acts: seq<Action<T>> := [Push(Ptr(data)), Produce, Produce];
    assert acts[1..][1..] == [Produce] && acts[1..][1..][1..] == [];
    var s0 := Reset<T>(2);
    var s1 := Step(s0, acts[0]);
    var s2 := Step(s1, Produce);
    var s3 := Step(s2, Produce);
    assert s3.slots == [Ptr(data), Null] && s3.read == s3.write == 0 && s3.pushed == [Ptr(data)] && s3.popped == [];
    hide Step;
    assert Run(s0, acts) == Run(s1, acts[1..]) == Run(s2, acts[1..][1..]) == Run(s3, []);
  }

  /** With the producer at rest, a push of an item and three steps append it, unless the buffer is full. */
  lemma PushCompletes<T>(s: State<T>, data: Pointer<T>)
    requires Inv(s) && s.producer.Resting? && data.Ptr?
    ensures var s' := Run(s, [Push(data), Produce, Produce, Produce]);
            && s'.producer.Resting? && s'.consumer == s.consumer && s'.popped == s.popped
            && s'.pushed == if |s.pushed| - |s.popped| < |s.slots| then s.pushed + [data] else s.pushed
  {
    var s1 := Step(s, Push(data));
    StepKeeps(s, Push(data));
    RefusedIffFull(s1);
    SlotsHold(s);
    hide Inv, Slots, Sides, Place, Advance;
    var s2 := Step(s1, Produce);
    var s3 := Step(s2, Produce);
    var s4 := Step(s3, Produce);
    FourActions(s, Push(data), Produce, Produce, Produce);
  }

  /** With the consumer at rest, a pop and four steps take out exactly the oldest item, unless the buffer is empty. */
  lemma PopCompletes<T>(s: State<T>)
    requires Inv(s) && s.consumer.Waiting?
    ensures var s' := Run(Run(s, [Pop, Consume, Consume, Consume]), [Consume]);
            && s'.consumer.Waiting? && s'.producer == s.producer && s'.pushed == s.pushed
            && s'.popped == if |s.popped| < |s.pushed| then s.popped + [s.pushed[|s.popped|]] else s.popped
  {
    var s1 := Step(s, Pop);
    var s2 := Step(s1, Consume);
    var s3 := Step(s2, Consume);
    var s4 := Step(s3, Consume);
    StepKeeps(s, Pop);
    StepKeeps(s1, Consume);
    StepKeeps(s2, Consume);
    RefusedIffFull(s1);
    SlotsHold(s);
    FourActions(s, Pop, Consume, Consume, Consume);
    OneAction(s4, Consume);
    assert s3.consumer.Clearing? ==> s3.consumer.data == s3.pushed[|s3.popped|];
    hide Inv, Slots, Sides, Place, Advance, Run;
  }

  /** No more items are in the buffer than it has slots. */
  lemma SlotsHold<T>(s: State<T>)
    requires Inv(s)
    ensures |s.popped| <= |s.pushed| <= |s.popped| + |s.slots|
  {
  }

  lemma OneAction<T>(s: State<T>, a: Action<T>)
    requires InBounds(s)
    ensures Run(s, [a]) == Step(s, a)
  {
    assert [a][1..] == [];
  }

  lemma FirstAction<T>(s: State<T>, a: Action<T>, rest: seq<Action<T>>)
    requires InBounds(s)
    ensures Run(s, [a] + rest) == Run(Step(s, a), rest)
  {
    assert ([a] + rest)[1..] == rest;
  }

  lemma FourActions<T>(s: State<T>, a: Action<T>, b: Action<T>, c: Action<T>, d: Action<T>)
    requires InBounds(s)
    ensures Run(s, [a, b, c, d]) == Step(Step(Step(Step(s, a), b), c), d)
  {
    hide Step, Run;
    assert [a, b, c, d] == [a] + [b, c, d] && [b, c, d] == [b] + [c, d] && [c, d] == [c] + [d];
    FirstAction(s, a, [b, c, d]);
    FirstAction(Step(s, a), b, [c, d]);
    FirstAction(Step(Step(s, a), b), c, [d]);
    OneAction(Step(Step(Step(s, a), b), c), d);
  }
}
