// The chunk generator: cuts [addr, addr + size) at multiples of a block size.
// It is gem5 code outside the repository; this is its contract, and every
// loop over it in the repository is written against it.
module Chunks {

  datatype Chunk = Chunk(addr: nat, size: nat, offset: nat)

  function Min(a: nat, b: nat): nat { if a < b then a else b }

  function FirstSize(addr: nat, size: nat, block: nat): (n: nat)
    requires block > 0
    ensures n <= size && (size > 0 ==> n > 0)
    ensures addr % block + n <= block
  {
    Min(size, block - addr % block)
  }

  function Split(addr: nat, size: nat, block: nat, offset: nat): seq<Chunk>
    requires block > 0
    decreases size
  {
    if size == 0 then []
    else
      var n := FirstSize(addr, size, block);
      [Chunk(addr, n, offset)] + Split(addr + n, size - n, block, offset + n)
  }

  // The chunks lie end to end from base on and cover exactly `size` bytes.
  ghost predicate Tiles(cs: seq<Chunk>, addr: nat, size: nat, offset: nat)
    decreases |cs|
  {
    if cs == [] then size == 0
    else
      && cs[0].addr == addr && cs[0].offset == offset && 0 < cs[0].size <= size
      && Tiles(cs[1..], addr + cs[0].size, size - cs[0].size, offset + cs[0].size)
  }

  lemma {:induction false} SplitTiles(addr: nat, size: nat, block: nat, offset: nat)
    requires block > 0
    ensures Tiles(Split(addr, size, block, offset), addr, size, offset)
    ensures forall i :: 0 <= i < |Split(addr, size, block, offset)| ==>
              var c := Split(addr, size, block, offset)[i]; c.addr % block + c.size <= block
    decreases size
  {
    if size > 0 {
      var n := FirstSize(addr, size, block);
      SplitTiles(addr + n, size - n, block, offset + n);
    }
  }

  ghost predicate Covers(c: Chunk, offset: nat) { c.offset <= offset < c.offset + c.size }

  // Every byte is in exactly one chunk, at the address that belongs to it.
  lemma {:induction false} TilesCoverOnce(cs: seq<Chunk>, addr: nat, size: nat, offset: nat, k: nat)
    requires Tiles(cs, addr, size, offset) && offset <= k < offset + size
    ensures exists i :: 0 <= i < |cs| && Covers(cs[i], k)
    ensures forall i, j :: 0 <= i < |cs| && 0 <= j < |cs| && Covers(cs[i], k) && Covers(cs[j], k) ==> i == j
    ensures forall i :: 0 <= i < |cs| ==> cs[i].addr - addr == cs[i].offset - offset && cs[i].offset >= offset
    decreases |cs|
  {
    TilesStayInside(cs, addr, size, offset);
    var rest, n := cs[1..], cs[0].size;
    TilesStayInside(rest, addr + n, size - n, offset + n);
    assert forall i :: 0 < i < |cs| ==> cs[i] == rest[i - 1];
    if k < offset + n {
      assert Covers(cs[0], k);
    } else {
      TilesCoverOnce(rest, addr + n, size - n, offset + n, k);
      var i :| 0 <= i < |rest| && Covers(rest[i], k);
      assert Covers(cs[i + 1], k);
    }
  }

  lemma {:induction false} TilesStayInside(cs: seq<Chunk>, addr: nat, size: nat, offset: nat)
    requires Tiles(cs, addr, size, offset)
    ensures forall i :: 0 <= i < |cs| ==>
              && offset <= cs[i].offset && cs[i].offset + cs[i].size <= offset + size
              && cs[i].addr - addr == cs[i].offset - offset
              && 0 < cs[i].size
    decreases |cs|
  {
    if cs != [] {
      TilesStayInside(cs[1..], addr + cs[0].size, size - cs[0].size, offset + cs[0].size);
    }
  }
}
