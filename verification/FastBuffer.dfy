/** FastBuffer.hpp: a bounded queue of pointers in a ring of slots, one operation at a time. */
module FastBuffers {
  import opened Word64
  import opened Pointers
  import opened Ring

  class FastBuffer<T> {
    const buffer: array<Pointer<T>>
    var pread: Word
    var pwrite: Word
    /** All items pushed since reset, and how many of them have been popped. */
    ghost var pushed: seq<Pointer<T>>
    ghost var popped: nat

    ghost predicate Valid()
      reads this, buffer
    {
      && IsRingSize(buffer.Length)
      && Slots(buffer[..], pushed, popped)
      && pread == Place(popped, buffer.Length) && pwrite == Place(|pushed|, buffer.Length)
    }

    ghost function Contents(): seq<Pointer<T>>
      reads this, buffer
      requires Valid()
    {
      pushed[popped..]
    }

    /** Memory for the slots, reset. */
    constructor (size: nat)
      requires IsRingSize(size)
      ensures Valid() && Contents() == [] && buffer.Length == size && fresh(buffer)
    {
      buffer := new Pointer<T>[size](_ => Null);
      pread, pwrite := 0, 0;
      pushed, popped := [], 0;
    }

    method Reset()
      requires Valid()
      modifies this, buffer
      ensures Valid() && Contents() == []
    {
      pread, pwrite := 0, 0;
      for i := 0 to buffer.Length
        invariant pread == pwrite == 0
        invariant forall k :: 0 <= k < i ==> buffer[k].Null?
      {
        buffer[i] := Null;
      }
      assert Place(0, buffer.Length) == 0;
      pushed, popped := [], 0;
    }

    method Length() returns (len: Word)
      requires Valid()
      ensures len == |Contents()|
    {
      LengthExactIff(State(buffer[..], pread, pwrite, Resting, Waiting, pushed, pushed[..popped]));
      var distance := ToSigned(Sub(pwrite, pread));
      if distance > 0 {
        return distance;
      }
      if distance < 0 {
        return (buffer.Length + distance) % MODULUS;
      }
      if buffer[pwrite].Null? {
        return 0;
      }
      return buffer.Length;
    }

    method IsEmpty() returns (b: bool)
      requires Valid()
      ensures b <==> Contents() == []
    {
      b := buffer[pread].Null?;
      assert buffer[..][Place(popped, buffer.Length)] == if popped < |pushed| then pushed[popped] else Null;
    }

    method IsAvailable() returns (b: bool)
      requires Valid()
      ensures b <==> |Contents()| < buffer.Length
    {
      SlotAtWrite(State(buffer[..], pread, pwrite, Resting, Waiting, pushed, pushed[..popped]));
      b := buffer[pwrite].Null?;
    }

    method PushSp(data: Pointer<T>) returns (ok: bool)
      requires Valid()
      modifies this, buffer
      ensures Valid()
      ensures ok <==> data.Ptr? && |old(Contents())| < buffer.Length
      ensures Contents() == if ok then old(Contents()) + [data] else old(Contents())
    {
      if data.Null? {
        return false;
      }
      var free := IsAvailable();
      if free {
        PushFills(buffer[..], pushed, popped, data);
        AdvancePlace(|pushed|, buffer.Length);
        buffer[pwrite] := data;
        pwrite := Advance(pwrite, buffer.Length);
        pushed := pushed + [data];
        return true;
      }
      return false;
    }

    method PopSc() returns (ok: bool, data: Pointer<T>)
      requires Valid()
      modifies this, buffer
      ensures Valid()
      ensures ok <==> old(Contents()) != []
      ensures old(Contents()) == if ok then [data] + Contents() else Contents()
      ensures ok ==> data.Ptr?
    {
      data := Null;
      var empty := IsEmpty();
      if empty {
        return false, data;
      }
      PopClears(buffer[..], pushed, popped);
      AdvancePlace(popped, buffer.Length);
      assert buffer[..][Place(popped, buffer.Length)] == pushed[popped];
      data := buffer[pread];
      buffer[pread] := Null;
      pread := Advance(pread, buffer.Length);
      popped := popped + 1;
      return true, data;
    }
  }
}
