/** allocator.hpp: NonSyncFreeListBase, a chain of free elements between a low and a high water mark. */
module FreeLists {
  import opened Pointers
  import opened FreeChain

  class MsgElement<T> {
    var value: Pointer<T>
    var next: MsgElement?<T>

    constructor ()
      ensures next == null && value.Null?
    {
      value, next := Null, null;
    }
  }

  class NonSyncFreeListBase<T> {
    var freeHead: MsgElement?<T>
    var freeTail: MsgElement?<T>
    var freeListSize: int
    const highWaterMark: int
    const lowWaterMark: int
    /** The elements from freeHead on, and those handed out and not released. */
    ghost var chain: seq<MsgElement<T>>
    ghost var out: set<MsgElement<T>>

    ghost function Marks(): Marks {
      FreeChain.Marks(lowWaterMark, highWaterMark)
    }

    ghost function State(): Pool<MsgElement<T>>
      reads this
    {
      Pool(chain, out)
    }

    ghost predicate Linked()
      reads this, chain
    {
      && (forall i :: 0 <= i < |chain| - 1 ==> chain[i].next == chain[i + 1])
      && (chain != [] ==> chain[|chain| - 1].next == null)
    }

    ghost predicate Valid()
      reads this, chain
    {
      && Sound(State(), Marks())
      && |chain| == freeListSize + 1
      && freeHead == chain[0] && freeTail == chain[freeListSize]
      && Linked()
    }

    /** The counters are set, and the chain is still to be made. */
    constructor (hwm: int, lwm: int)
      ensures highWaterMark == hwm && lowWaterMark == lwm && freeListSize == hwm
      ensures freeHead == null && freeTail == null && chain == [] && out == {}
    {
      highWaterMark, lowWaterMark, freeListSize := hwm, lwm, hwm;
      freeHead, freeTail := null, null;
      chain, out := [], {};
    }

    method Init()
      requires 0 <= lowWaterMark <= highWaterMark == freeListSize && out == {}
      modifies this
      ensures Valid() && fresh(chain) && out == {} && freeListSize == highWaterMark
    {
      var msg := new MsgElement<T>();
      freeHead := msg;
      freeTail := msg;
      chain := [msg];
      for i := 0 to highWaterMark
        invariant |chain| == i + 1 && fresh(chain) && Linked()
        invariant freeHead == chain[0] && freeTail == chain[i]
        invariant forall i, j :: 0 <= i < j < |chain| ==> chain[i] != chain[j]
        invariant out == {} && freeListSize == highWaterMark
      {
        msg := new MsgElement<T>();
        freeTail.next := msg;
        freeTail := msg;
        chain := chain + [msg];
      }
    }

    /** The first of the chain above the low mark, a new element otherwise; its link is cleared. */
    method GetElement() returns (msg: MsgElement<T>)
      requires Valid() && forall e :: e in out ==> allocated(e)
      modifies this, chain
      ensures Valid() && msg.next == null
      ensures if old(freeListSize) > lowWaterMark then msg == old(chain)[0] else fresh(msg)
      ensures msg !in old(out) && msg !in chain
      ensures State() == Apply(old(State()), Get(msg), Marks())
      ensures out == old(out) + {msg}
      ensures chain == if old(freeListSize) > lowWaterMark then old(chain)[1..] else old(chain)
      ensures forall e :: e in old(chain) && e != msg ==> e.next == old(e.next)
    {
      if freeListSize > lowWaterMark {
        msg := freeHead;
        freeHead := msg.next;
        msg.next := null;
        freeListSize := freeListSize - 1;
        chain := chain[1..];
      } else {
        msg := new MsgElement<T>();
      }
      out := out + {msg};
    }

    /** Below the high mark the element goes to the end of the chain; otherwise it is deleted. */
    method ReleaseElement(elem: MsgElement<T>)
      requires Valid() && elem in out
      modifies this, chain, elem
      ensures Valid()
      ensures State() == Apply(old(State()), Release(elem), Marks())
      ensures out == old(out) - {elem}
      ensures chain == if old(freeListSize) < highWaterMark then old(chain) + [elem] else old(chain)
      ensures elem in chain <==> old(freeListSize) < highWaterMark
      ensures elem in chain ==> freeTail == elem && elem.next == null
    {
      if freeListSize < highWaterMark {
        freeTail.next := elem;
        freeTail := elem;
        elem.next := null;
        freeListSize := freeListSize + 1;
        chain := chain + [elem];
      }
      out := out - {elem};
    }

    /** The destructor's walk meets every free element once and comes to an end. */
    method Destroy() returns (deleted: seq<MsgElement<T>>)
      requires Valid()
      ensures deleted == chain
    {
      deleted := [];
      var curr := freeHead;
      while curr != null
        invariant |deleted| <= |chain| && deleted == chain[..|deleted|]
        invariant curr == if |deleted| < |chain| then chain[|deleted|] else null
        decreases |chain| - |deleted|
      {
        var tmp := curr.next;
        deleted := deleted + [curr];
        curr := tmp;
      }
    }
  }
}
