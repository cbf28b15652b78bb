// The proxy through which the system reads and writes guest memory, one
// packet per cache line.
module PortProxy {
  import opened ByteSeq
  import opened Chunks

  // A functional packet reaches the memory of the guest it is tagged with.
  class Proxy {
    const cacheLineSize: nat
    var DSid: nat
    var guests: map<nat, seq<byte>>

    ghost predicate Valid()
      reads this
    {
      cacheLineSize > 0 && DSid in guests
    }

    constructor (line: nat, memories: map<nat, seq<byte>>)
      requires line > 0
      ensures cacheLineSize == line && DSid == 0xFFFF && guests == memories
    {
      cacheLineSize, DSid, guests := line, 0xFFFF, memories;
    }

    method UpdateDSid(id: nat)
      modifies this`DSid
      ensures DSid == id
    {
      DSid := id;
    }

    method SendWrite(addr: nat, data: seq<byte>)
      requires Valid() && addr + |data| <= |guests[DSid]|
      modifies this`guests
      ensures guests == old(guests)[DSid := Splice(old(guests)[DSid], addr, data)]
    {
      guests := guests[DSid := Splice(guests[DSid], addr, data)];
    }

    // The packets of a blob are one contiguous write to this guest.
    method WriteBlob(addr: nat, data: seq<byte>)
      requires Valid() && addr + |data| <= |guests[DSid]|
      modifies this`guests
      ensures guests == old(guests)[DSid := Splice(old(guests)[DSid], addr, data)]
    {
      ghost var mem := guests[DSid];
      var done := 0;
      assert Splice(mem, addr, data[..0]) == mem;
      while done < |data|
        invariant 0 <= done <= |data|
        invariant guests == old(guests)[DSid := Splice(mem, addr, data[..done])]
      {
        var n := FirstSize(addr + done, |data| - done, cacheLineSize);
        SpliceAgain(mem, addr, data[..done], data[done..done + n]);
        assert data[..done] + data[done..done + n] == data[..done + n];
        hide Splice;
        SendWrite(addr + done, data[done..done + n]);
        done := done + n;
      }
      assert data[..done] == data;
    }

    method ReadBlob(addr: nat, size: nat) returns (data: seq<byte>)
      requires Valid() && addr + size <= |guests[DSid]|
      ensures data == guests[DSid][addr..addr + size]
    {
      data := [];
      while |data| < size
        invariant |data| <= size && data == guests[DSid][addr..addr + |data|]
        decreases size - |data|
      {
        var at := addr + |data|;
        var n := FirstSize(at, size - |data|, cacheLineSize);
        assert guests[DSid][addr..at] + guests[DSid][at..at + n] == guests[DSid][addr..at + n];
        data := data + guests[DSid][at..at + n];
      }
    }
  }
}
