/** What a recycling list of elements does: the free chain as a sequence, and the elements handed out. */
module FreeChain {
  datatype Pool<E> = Pool(chain: seq<E>, out: set<E>)

  /** `made` is the element that the allocator would make now, if asked. */
  datatype Op<E> = Get(made: E) | Release(e: E)

  datatype Marks = Marks(low: int, high: int)

  predicate Recycles<E>(p: Pool<E>, m: Marks) {
    |p.chain| - 1 > m.low
  }

  predicate Keeps<E>(p: Pool<E>, m: Marks) {
    |p.chain| - 1 < m.high
  }

  function Apply<E>(p: Pool<E>, op: Op<E>, m: Marks): Pool<E> {
    match op
    case Get(made) =>
      if Recycles(p, m) && p.chain != [] then Pool(p.chain[1..], p.out + {p.chain[0]})
      else Pool(p.chain, p.out + {made})
    case Release(e) => Pool(if Keeps(p, m) then p.chain + [e] else p.chain, p.out - {e})
  }

  ghost predicate Sound<E>(p: Pool<E>, m: Marks) {
    && 0 <= m.low <= |p.chain| - 1 <= m.high
    && (forall i, j :: 0 <= i < j < |p.chain| ==> p.chain[i] != p.chain[j])
    && (forall i :: 0 <= i < |p.chain| ==> p.chain[i] !in p.out)
  }

  /** Only an element that is handed out is released, and a new element is new. */
  ghost predicate Fits<E>(p: Pool<E>, op: Op<E>) {
    match op
    case Get(made) => made !in p.chain && made !in p.out
    case Release(e) => e in p.out
  }

  function Run<E>(p: Pool<E>, ops: seq<Op<E>>, m: Marks): Pool<E>
    decreases |ops|
  {
    if ops == [] then p else Run(Apply(p, ops[0], m), ops[1..], m)
  }

  ghost predicate AllFit<E>(p: Pool<E>, ops: seq<Op<E>>, m: Marks)
    decreases |ops|
  {
    ops != [] ==> Fits(p, ops[0]) && AllFit(Apply(p, ops[0], m), ops[1..], m)
  }

  /** The elements handed out again from the chain during a run, in order. */
  function Reissued<E>(p: Pool<E>, ops: seq<Op<E>>, m: Marks): seq<E>
    decreases |ops|
  {
    if ops == [] then []
    else
      var rest := Reissued(Apply(p, ops[0], m), ops[1..], m);
      if ops[0].Get? && Recycles(p, m) && p.chain != [] then [p.chain[0]] + rest else rest
  }

  /** The elements released and kept during a run, in order. */
  function Kept<E>(p: Pool<E>, ops: seq<Op<E>>, m: Marks): seq<E>
    decreases |ops|
  {
    if ops == [] then []
    else
      var rest := Kept(Apply(p, ops[0], m), ops[1..], m);
      if ops[0].Release? && Keeps(p, m) then [ops[0].e] + rest else rest
  }

  lemma ApplySound<E>(p: Pool<E>, op: Op<E>, m: Marks)
    requires Sound(p, m) && Fits(p, op)
    ensures Sound(Apply(p, op, m), m)
  {
  }

  /** The size stays between the marks, and nothing is both free and handed out. */
  lemma {:induction false} RunSound<E>(p: Pool<E>, ops: seq<Op<E>>, m: Marks)
    requires Sound(p, m) && AllFit(p, ops, m)
    ensures Sound(Run(p, ops, m), m)
    decreases |ops|
  {
    if ops != [] {
      ApplySound(p, ops[0], m);
      RunSound(Apply(p, ops[0], m), ops[1..], m);
    }
  }

  /** Everything that was free or was kept is either handed out again or still free, in that order. */
  lemma {:induction false} RunIsFifo<E>(p: Pool<E>, ops: seq<Op<E>>, m: Marks)
    ensures p.chain + Kept(p, ops, m) == Reissued(p, ops, m) + Run(p, ops, m).chain
    decreases |ops|
  {
    if ops != [] {
      var p1, rest := Apply(p, ops[0], m), ops[1..];
      RunIsFifo(p1, rest, m);
      var k, r := Kept(p1, rest, m), Reissued(p1, rest, m);
      var c := Run(p1, rest, m).chain;
      match ops[0]
      case Get(_) =>
        if Recycles(p, m) && p.chain != [] {
          assert p.chain + k == [p.chain[0]] + (p1.chain + k);
          assert [p.chain[0]] + (r + c) == ([p.chain[0]] + r) + c;
        }
      case Release(e) =>
        if Keeps(p, m) {
          assert p.chain + ([e] + k) == p1.chain + k;
        }
    }
  }

  /** The j-th element kept comes out again after the whole chain of the start and the j elements kept before it. */
  lemma ReissuedInOrder<E>(p: Pool<E>, ops: seq<Op<E>>, m: Marks, j: nat)
    requires j < |Kept(p, ops, m)| && |p.chain| + j < |Reissued(p, ops, m)|
    ensures Reissued(p, ops, m)[|p.chain| + j] == Kept(p, ops, m)[j]
  {
    RunIsFifo(p, ops, m);
    assert (p.chain + Kept(p, ops, m))[|p.chain| + j] == Kept(p, ops, m)[j];
  }
}
