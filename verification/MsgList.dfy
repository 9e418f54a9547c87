/** msglist.hpp: the list of messages as one thread sees it; module Mailbox has its steps interleaved. */
module MsgLists {
  import opened Pointers
  import opened FreeLists

  class MsgList<T> {
    var head: MsgElement<T>
    var tail: MsgElement<T>
    var size: int
    /** The elements from head on: a dummy, and one for each message that has not been popped. */
    ghost var chain: seq<MsgElement<T>>
    ghost var pending: seq<T>

    ghost predicate Valid()
      reads this, chain
    {
      && |chain| == |pending| + 1 && size == |pending|
      && head == chain[0] && tail == chain[|pending|]
      && (forall i, j :: 0 <= i < j < |chain| ==> chain[i] != chain[j])
      && (forall i :: 0 <= i < |pending| ==> chain[i].next == chain[i + 1])
      && chain[|pending|].next == null
      && (forall i :: 0 <= i < |pending| ==> chain[i + 1].value == Ptr(pending[i]))
    }

    constructor ()
      ensures Valid() && pending == [] && fresh(chain)
    {
      var msg := new MsgElement<T>();
      tail := msg;
      head := msg;
      size := 0;
      chain, pending := [msg], [];
    }

    /** The number of messages with the new one, or -1 for a null pointer. */
    method Put(val: Pointer<T>) returns (n: int)
      requires Valid()
      modifies this, chain
      ensures Valid() && (forall e :: e in chain ==> e in old(chain) || fresh(e))
      ensures val.Null? ==> n == -1 && pending == old(pending)
      ensures val.Ptr? ==> n == |pending| && pending == old(pending) + [val.at]
    {
      if val.Null? {
        return -1;
      }
      var msg := new MsgElement<T>();
      msg.value := val;
      tail.next := msg;
      tail := msg;
      size := size + 1;
      chain, pending := chain + [msg], pending + [val.at];
      return size;
    }

    /** The oldest message and the number left; the element before it is released. */
    method Get() returns (n: int, elem: Pointer<T>)
      requires Valid()
      modifies this, chain
      ensures Valid()
      ensures old(pending) == [] ==> n == 0 && elem == Null && pending == [] && chain == old(chain)
      ensures old(pending) != [] ==>
                && elem == Ptr(old(pending)[0]) && pending == old(pending)[1..] && n == |pending|
                && chain == old(chain)[1..]
    {
      n, elem := 0, Null;
      var msg := head;
      var newHead := msg.next;
      if newHead != null {
        size := size - 1;
        n := size;
        elem := newHead.value;
        head := newHead;
        chain, pending := chain[1..], pending[1..];
      }
      if elem.Ptr? {
        msg.value := Null;
      }
    }

    /** The oldest message stays where it is. */
    method Peek() returns (n: int, elem: Pointer<T>)
      requires Valid()
      ensures n == |pending| && elem == if pending == [] then Null else Ptr(pending[0])
    {
      elem := Null;
      var msg := head;
      var newHead := msg.next;
      if newHead != null {
        elem := newHead.value;
      }
      n := size;
    }
  }

  class Referencer<T> {
    const completionList: MsgList<T>
    /** The dispatch queue, shared with other actors in the source. */
    var posted: seq<T>

    ghost predicate Valid()
      reads this, completionList, completionList.chain
    {
      completionList.Valid()
    }

    constructor ()
      ensures Valid() && completionList.pending == [] && posted == []
      ensures fresh(completionList) && fresh(completionList.chain)
    {
      completionList := new MsgList<T>();
      posted := [];
    }

    /** Only the message that makes the list non-empty is posted. */
    method Put(msg: T)
      requires Valid()
      modifies this, completionList, completionList.chain
      ensures Valid() && completionList.pending == old(completionList.pending) + [msg]
      ensures posted == if old(completionList.pending) == [] then old(posted) + [msg] else old(posted)
    {
      var n := completionList.Put(Ptr(msg));
      if n == 1 {
        posted := posted + [msg];
      }
    }

    /** The message itself if its sender is to execute it, null if another one is at it. */
    method Add(msg: T) returns (mine: Pointer<T>)
      requires Valid()
      modifies completionList, completionList.chain
      ensures Valid() && completionList.pending == old(completionList.pending) + [msg]
      ensures mine == if old(completionList.pending) == [] then Ptr(msg) else Null
    {
      var n := completionList.Put(Ptr(msg));
      mine := if n == 1 then Ptr(msg) else Null;
    }

    /** The message after the one popped; after the last one, the popped message once more. */
    method GetNext() returns (tmp: Pointer<T>)
      requires Valid()
      modifies completionList, completionList.chain
      ensures Valid()
      ensures var was := old(completionList.pending);
              && completionList.pending == (if was == [] then [] else was[1..])
              && tmp == if was == [] then Null else if |was| == 1 then Ptr(was[0]) else Ptr(was[1])
    {
      var n;
      n, tmp := completionList.Get();
      if n > 0 {
        var _, next := completionList.Peek();
        tmp := next;
      }
    }
  }
}
