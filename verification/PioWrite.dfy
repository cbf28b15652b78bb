// PIO data-out: what the words written to the data register do to the image.
module PioWrite {
  import opened ByteSeq
  import opened DiskSpec
  import opened DiskInvariants
  import opened PioHost
  import opened PioRead

  function WordBytes(ws: seq<Word>): (bs: seq<byte>)
    ensures |bs| == 2 * |ws|
  {
    if ws == [] then []
    else WordBytes(ws[..|ws| - 1]) + [ws[|ws| - 1].lo, ws[|ws| - 1].hi]
  }

  lemma {:induction false} WordBytesAt(ws: seq<Word>, i: nat)
    requires i < |ws|
    ensures WordAt(WordBytes(ws), 2 * i) == ws[i]
  {
    if i < |ws| - 1 { WordBytesAt(ws[..|ws| - 1], i); }
  }

  // The image once the words have filled the first j sectors from lba on.
  function Written(image: seq<Sector>, lba: nat, ws: seq<Word>, j: nat): (r: seq<Sector>)
    requires lba + j <= |image| && 256 * j <= |ws|
    ensures |r| == |image|
  {
    if j == 0 then image
    else Written(image, lba, ws, j - 1)[lba + j - 1 := WordBytes(ws[256 * (j - 1)..256 * j])]
  }

  // Exactly the target sectors hold the words; every other sector is as it was.
  lemma {:induction false} WrittenAt(image: seq<Sector>, lba: nat, ws: seq<Word>, j: nat, s: nat)
    requires lba + j <= |image| && 256 * j <= |ws| && s < |image|
    ensures Written(image, lba, ws, j)[s] ==
            if lba <= s < lba + j then WordBytes(ws[256 * (s - lba)..256 * (s - lba) + 256]) else image[s]
  {
    if j > 0 { WrittenAt(image, lba, ws, j - 1, s); }
  }

  lemma {:induction false} WrittenIgnoresTail(image: seq<Sector>, lba: nat, ws: seq<Word>, w: Word, j: nat)
    requires lba + j <= |image| && 256 * j <= |ws|
    ensures Written(image, lba, ws + [w], j) == Written(image, lba, ws, j)
  {
    if j > 0 {
      WrittenIgnoresTail(image, lba, ws, w, j - 1);
      assert (ws + [w])[256 * (j - 1)..256 * j] == ws[256 * (j - 1)..256 * j];
    }
  }

  // A write of n sectors from lba on has taken the words ws: j full sectors
  // are on the image and i more words in the buffer.
  predicate Writing(d: Disk, image: seq<Sector>, lba: nat, n: nat, ws: seq<Word>, j: nat, i: nat)
    requires lba + n <= |image|
  {
    && j <= n && i < 256 && |ws| == 256 * j + i
    && d.image == Written(image, lba, ws, j)
    && if j == n then i == 0 && (d.devState == DeviceIdleS || d.devState == DeviceIdleSI)
       else
         && (d.devState == DataReadyIntrqOut || d.devState == TransferDataOut)
         && d.cmdBytesLeft == 512 * (n - j) - 2 * i
         && d.drqBytesLeft == 512 - 2 * i
         && d.curSector == lba + j
         && d.buffer[..2 * i] == WordBytes(ws[256 * j..])
  }

  predicate ObeysWrite(d: Disk, acc: Access) {
    match acc
    case WriteData16(_) => d.status.drq && !d.intrPending
    case WriteData32(_, _) => d.status.drq && !d.intrPending && d.drqBytesLeft >= 4
    case _ => IsQuiet(acc)
  }

  function Given(acc: Access): seq<Word> {
    match acc
    case WriteData16(w) => [w]
    case WriteData32(w, w') => [w, w']
    case _ => []
  }

  ghost predicate ConformsWrite(d: Disk, accs: seq<Access>)
    requires Shape(d)
    decreases |accs|
  {
    accs == [] ||
    (ObeysWrite(d, accs[0]) && (Do(d, accs[0], true).Ok? ==> ConformsWrite(Do(d, accs[0], true).d, accs[1..])))
  }

  ghost function AllGiven(accs: seq<Access>): seq<Word> {
    if accs == [] then [] else Given(accs[0]) + AllGiven(accs[1..])
  }

  ghost function FinalWrite(d: Disk, accs: seq<Access>): Result
    requires Shape(d) && ConformsWrite(d, accs)
    decreases |accs|
  {
    if accs == [] then Ok(d)
    else if Do(d, accs[0], true).Panic? then Do(d, accs[0], true)
    else FinalWrite(Do(d, accs[0], true).d, accs[1..])
  }

  // ---- One access while writing ----

  lemma BlockOpens(d: Disk, image: seq<Sector>, lba: nat, n: nat, ws: seq<Word>, j: nat)
    requires lba + n <= |image| && j <= n && |ws| == 256 * j
    requires d.image == Written(image, lba, ws, j) && d.devState == PrepareDataOut
    requires d.cmdBytesLeft == 512 * (n - j) && d.curSector == lba + j && !d.intrPending
    ensures Proceed(d).Ok? && Writing(Proceed(d).d, image, lba, n, ws, j, 0)
  {
    hide Written; hide Zeros;
    assert ws[256 * j..] == [];
  }

  lemma CommandStartsWrite(d: Disk, sel: bool)
    requires Stable(d) && d.devState == DeviceIdleS && LbaMode(d)
    requires LbaBase(d) + CommandSectors(d) <= |d.image|
    ensures var r := Do(d, WriteCommand(WriteSectors), sel);
            r.Ok? && Stable(r.d) && Writing(r.d, d.image, LbaBase(d), CommandSectors(d), [], 0, 0)
  {
    hide Do; hide Writing; hide Proceed;
    CommandWriteStarts(d, WriteSectors, sel);
    AccessKeepsStable(d, WriteCommand(WriteSectors), sel);
    BlockOpens(SetUpTransfer(d.(command := WriteSectors), PrepareDataOut),
               d.image, LbaBase(d), CommandSectors(d), [], 0);
  }

  lemma WriteWordIs(d: Disk, w: Word, sel: bool)
    requires Shape(d) && d.devState == TransferDataOut && d.curSector < |d.image|
    ensures d.drqBytesLeft == 2 ==>
              var s := StoreBlock(TakeWord(d.(data := w)));
              s.Ok? && Shape(s.d) && s.d.devState == PrepareDataOut
    ensures WriteWord(d, w, sel) ==
            if d.drqBytesLeft != 2 then Ok(TakeWord(d.(data := w)))
            else Proceed(StoreBlock(TakeWord(d.(data := w))).d)
  {
    hide Proceed; hide Overwrite;
  }

  lemma WordJoinsBuffer(buffer: Buffer, ws: seq<Word>, w: Word, j: nat, i: nat)
    requires i < 256 && |ws| == 256 * j + i && buffer[..2 * i] == WordBytes(ws[256 * j..])
    ensures Overwrite(buffer, 2 * i, [w.lo, w.hi])[..2 * i + 2] == WordBytes((ws + [w])[256 * j..])
  {
    var part := (ws + [w])[256 * j..];
    assert part == ws[256 * j..] + [w];
    assert part[..|part| - 1] == ws[256 * j..];
    assert Overwrite(buffer, 2 * i, [w.lo, w.hi])[..2 * i + 2] == buffer[..2 * i] + [w.lo, w.hi];
  }

  lemma MidBlock(d: Disk, w: Word, image: seq<Sector>, lba: nat, n: nat, ws: seq<Word>, j: nat, i: nat)
    requires lba + n <= |image| && j < n && i < 255 && Shape(d)
    requires Writing(d, image, lba, n, ws, j, i) && d.devState == TransferDataOut
    ensures BlockShape(d.(data := w)) && TakeWord(d.(data := w)).devState == TransferDataOut
    ensures Writing(TakeWord(d.(data := w)), image, lba, n, ws + [w], j, i + 1)
  {
    WordJoinsBuffer(d.buffer, ws, w, j, i);
    WrittenIgnoresTail(image, lba, ws, w, j);
    hide Overwrite; hide Written; hide WordBytes; hide CountersFit;
  }

  lemma BlockIsStored(d: Disk, w: Word, image: seq<Sector>, lba: nat, n: nat, ws: seq<Word>, j: nat)
    requires lba + n <= |image| && j < n && Shape(d)
    requires Writing(d, image, lba, n, ws, j, 255) && d.devState == TransferDataOut
    ensures BlockShape(d.(data := w))
    ensures var t := TakeWord(d.(data := w));
            && t.cmdBytesLeft % 512 == 0 && t.curSector == lba + j && t.image == d.image
            && t.cmdBytesLeft == 512 * (n - (j + 1))
            && t.intrPending == d.intrPending && |ws| == 256 * j + 255 && |t.image| == |image|
            && t.image[lba + j := t.buffer[..512]] == Written(image, lba, ws + [w], j + 1)
  {
    WordJoinsBuffer(d.buffer, ws, w, j, 255);
    WrittenIgnoresTail(image, lba, ws, w, j);
    hide Overwrite; hide WordBytes;
    assert (ws + [w])[256 * j..] == (ws + [w])[256 * j..256 * (j + 1)];
  }

  lemma LastWord(d: Disk, w: Word, image: seq<Sector>, lba: nat, n: nat, ws: seq<Word>, j: nat)
    requires lba + n <= |image| && j < n && Shape(d) && !d.intrPending
    requires Writing(d, image, lba, n, ws, j, 255) && d.devState == TransferDataOut
    ensures var s := StoreBlock(TakeWord(d.(data := w)));
            && s.Ok? && Shape(s.d) && s.d.devState == PrepareDataOut
            && Proceed(s.d).Ok? && Writing(Proceed(s.d).d, image, lba, n, ws + [w], j + 1, 0)
  {
    hide *;
    BlockIsStored(d, w, image, lba, n, ws, j);
    var t := TakeWord(d.(data := w));
    StoreIs(t);
    BlockOpens(StoreBlock(t).d, image, lba, n, ws + [w], j + 1);
  }

  lemma StoreIs(t: Disk)
    requires t.curSector < |t.image|
    ensures var s := StoreBlock(t);
            && s.Ok? && s.d.devState == PrepareDataOut && s.d.curSector == t.curSector + 1
            && s.d.image == t.image[t.curSector := t.buffer[..512]]
            && s.d.cmdBytesLeft == t.cmdBytesLeft && s.d.intrPending == t.intrPending
            && (t.cmdBytesLeft % 512 == 0 ==> Shape(s.d))
  {}

  lemma WriteWordAdvances(d: Disk, w: Word, image: seq<Sector>, lba: nat, n: nat, ws: seq<Word>, j: nat, i: nat)
    requires lba + n <= |image| && j < n && i < 256
    requires Stable(d) && Writing(d, image, lba, n, ws, j, i) && d.devState == TransferDataOut
    ensures Shape(d) && WriteWord(d, w, true).Ok? && Stable(WriteWord(d, w, true).d)
    ensures Writing(WriteWord(d, w, true).d, image, lba, n, ws + [w], J(j, i), I(i))
    ensures i < 255 ==> WriteWord(d, w, true).d.devState == TransferDataOut
  {
    assert !d.intrPending;
    hide *;
    StableHasShape(d);
    WritingGives(d, image, lba, n, ws, j, i);
    WordKeepsStable(d, w, true);
    WriteWordIs(d, w, true);
    Step(j, i);
    if i < 255 {
      MidBlock(d, w, image, lba, n, ws, j, i);
    } else {
      LastWord(d, w, image, lba, n, ws, j);
    }
  }

  lemma WritingGives(d: Disk, image: seq<Sector>, lba: nat, n: nat, ws: seq<Word>, j: nat, i: nat)
    requires lba + n <= |image| && Writing(d, image, lba, n, ws, j, i)
    ensures j < n ==> d.drqBytesLeft == 512 - 2 * i && d.curSector < |d.image|
    ensures InCommand(d.devState)
    ensures j <= n && i < 256 && |ws| == 256 * j + i && (j == n ==> i == 0)
  {
    hide WordBytes;
  }

  lemma ReadyWhileWriting(d: Disk, image: seq<Sector>, lba: nat, n: nat, ws: seq<Word>, j: nat, i: nat)
    requires lba + n <= |image| && Stable(d) && Writing(d, image, lba, n, ws, j, i)
    ensures d.status.drq && !d.intrPending ==> d.devState == TransferDataOut && j < n
  {
    hide Written; hide WordBytes;
  }

  lemma SameTransferWrites(d: Disk, d': Disk, image: seq<Sector>, lba: nat, n: nat, ws: seq<Word>, j: nat, i: nat)
    requires lba + n <= |image| && Writing(d, image, lba, n, ws, j, i) && SameTransfer(d, d')
    ensures Writing(d', image, lba, n, ws, j, i)
  {
    hide Written; hide WordBytes;
  }

  lemma Write32Is(d: Disk, w: Word, w': Word)
    requires Shape(d) && WriteWord(d, w, true).Ok?
    ensures Do(d, WriteData16(w), true) == WriteWord(d, w, true)
    ensures Do(d, WriteData32(w, w'), true) == WriteWord(WriteWord(d, w, true).d, w', true)
  {
    hide WriteWord; hide Update; hide CountersFit;
  }

  lemma WordsAreWritten(d: Disk, w: Word, w': Word, image: seq<Sector>, lba: nat, n: nat, ws: seq<Word>, j: nat, i: nat)
    requires lba + n <= |image| && j < n && i < 256
    requires Stable(d) && Writing(d, image, lba, n, ws, j, i) && d.devState == TransferDataOut
    ensures Shape(d)
    ensures var r := Do(d, WriteData16(w), true);
            r.Ok? && Stable(r.d) && Writing(r.d, image, lba, n, ws + [w], J(j, i), I(i))
    ensures i < 255 ==>
            var r := Do(d, WriteData32(w, w'), true);
            r.Ok? && Stable(r.d) && Writing(r.d, image, lba, n, ws + [w, w'], J(j, i + 1), I(i + 1))
  {
    hide *;
    StableHasShape(d);
    WriteWordAdvances(d, w, image, lba, n, ws, j, i);
    Write32Is(d, w, w');
    if i < 255 {
      assert J(j, i) == j && I(i) == i + 1 by { Step(j, i); }
      WriteWordAdvances(WriteWord(d, w, true).d, w', image, lba, n, ws + [w], j, i + 1);
      assert ws + [w] + [w'] == ws + [w, w'];
    }
  }

  lemma Step(j: nat, i: nat)
    ensures i < 255 ==> J(j, i) == j && I(i) == i + 1
    ensures i == 255 ==> J(j, i) == j + 1 && I(i) == 0
  {}

  lemma AccessWrites(d: Disk, acc: Access, image: seq<Sector>, lba: nat, n: nat, ws: seq<Word>, j: nat, i: nat)
    returns (j': nat, i': nat)
    requires lba + n <= |image| && Stable(d) && Writing(d, image, lba, n, ws, j, i) && ObeysWrite(d, acc)
    ensures Shape(d) && Do(d, acc, true).Ok? && Stable(Do(d, acc, true).d)
    ensures Writing(Do(d, acc, true).d, image, lba, n, ws + Given(acc), j', i')
  {
    StableHasShape(d);
    WritingGives(d, image, lba, n, ws, j, i);
    ReadyWhileWriting(d, image, lba, n, ws, j, i);
    hide Do; hide Stable; hide Writing; hide CountersFit; hide SameTransfer;
    if acc.WriteData16? {
      WordsAreWritten(d, acc.word, acc.word, image, lba, n, ws, j, i);
      j', i' := J(j, i), I(i);
    } else if acc.WriteData32? {
      WordsAreWritten(d, acc.first, acc.second, image, lba, n, ws, j, i);
      j', i' := J(j, i + 1), I(i + 1);
    } else {
      QuietKeepsTransfer(d, acc, true);
      SameTransferWrites(d, Do(d, acc, true).d, image, lba, n, ws, j, i);
      assert ws + [] == ws;
      j', i' := j, i;
    }
  }

  // ---- Whole writes ----

  lemma WriteRunUnfolds(d: Disk, accs: seq<Access>)
    requires Shape(d) && ConformsWrite(d, accs)
    ensures accs == [] ==> FinalWrite(d, accs) == Ok(d) && AllGiven(accs) == []
    ensures accs != [] ==> ObeysWrite(d, accs[0])
    ensures accs != [] && Do(d, accs[0], true).Ok? ==>
              && ConformsWrite(Do(d, accs[0], true).d, accs[1..])
              && AllGiven(accs) == Given(accs[0]) + AllGiven(accs[1..])
              && FinalWrite(d, accs) == FinalWrite(Do(d, accs[0], true).d, accs[1..])
  {
    hide Do; hide ObeysWrite; hide CountersFit;
  }

  lemma {:induction false} WriteInProgress(d: Disk, accs: seq<Access>, image: seq<Sector>, lba: nat, n: nat,
                                           ws: seq<Word>, j: nat, i: nat)
    returns (j': nat, i': nat)
    requires lba + n <= |image| && Stable(d) && Writing(d, image, lba, n, ws, j, i)
    requires ConformsWrite(d, accs)
    ensures FinalWrite(d, accs).Ok? && Stable(FinalWrite(d, accs).d)
    ensures Writing(FinalWrite(d, accs).d, image, lba, n, ws + AllGiven(accs), j', i')
    decreases |accs|
  {
    hide *;
    StableHasShape(d);
    WriteRunUnfolds(d, accs);
    if accs == [] {
      assert ws + [] == ws;
      j', i' := j, i;
    } else {
      var j1, i1 := AccessWrites(d, accs[0], image, lba, n, ws, j, i);
      j', i' := WriteInProgress(Do(d, accs[0], true).d, accs[1..], image, lba, n, ws + Given(accs[0]), j1, i1);
      assert ws + (Given(accs[0]) + AllGiven(accs[1..])) == ws + Given(accs[0]) + AllGiven(accs[1..]);
    }
  }

  // A write command, from an idle disk on: no conforming access stops the
  // simulator, the host cannot give more words than the sectors hold, the full
  // sectors given so far are on the image and nothing else on it has changed,
  // and the disk is idle again exactly when all words are given.
  lemma WriteStoresSectors(d: Disk, sel: bool, accs: seq<Access>)
    requires Stable(d) && d.devState == DeviceIdleS && LbaMode(d)
    requires LbaBase(d) + CommandSectors(d) <= |d.image|
    requires var r := Do(d, WriteCommand(WriteSectors), sel); r.Ok? ==> ConformsWrite(r.d, accs)
    ensures Do(d, WriteCommand(WriteSectors), sel).Ok?
    ensures var f := FinalWrite(Do(d, WriteCommand(WriteSectors), sel).d, accs);
            var ws, n := AllGiven(accs), CommandSectors(d);
            && f.Ok? && |ws| <= 256 * n && Stable(f.d)
            && f.d.image == Written(d.image, LbaBase(d), ws, |ws| / 256)
            && (|ws| == 256 * n <==> f.d.devState == DeviceIdleS || f.d.devState == DeviceIdleSI)
  {
    hide Do; hide AllGiven; hide ConformsWrite; hide FinalWrite; hide LbaBase; hide CommandSectors; hide Written;
    CommandStartsWrite(d, sel);
    var d1 := Do(d, WriteCommand(WriteSectors), sel).d;
    StableHasShape(d1);
    hide Stable; hide WordBytes;
    var j, i := WriteInProgress(d1, accs, d.image, LbaBase(d), CommandSectors(d), [], 0, 0);
    assert [] + AllGiven(accs) == AllGiven(accs);
    assert (256 * j + i) / 256 == j;
  }

  // ---- Write, then read back ----

  lemma ReadBack(image: seq<Sector>, lba: nat, n: nat, ws: seq<Word>)
    requires lba + n <= |image| && |ws| == 256 * n
    ensures SectorWords(Written(image, lba, ws, n), lba, n, 0) == ws
  {
    var image' := Written(image, lba, ws, n);
    var got := SectorWords(image', lba, n, 0);
    hide SectorWords; hide Written; hide WordBytes; hide WordAt;
    forall k | 0 <= k < 256 * n
      ensures got[k] == ws[k]
    {
      var j, i := k / 256, k % 256;
      WordOfSectors(image', lba, n, 0, j, i);
      WrittenAt(image, lba, ws, n, lba + j);
      WordBytesAt(ws[256 * j..256 * j + 256], i);
    }
  }

  // A finished write followed by a finished read of the same range returns
  // the words that were written, whatever accesses the host chose to move
  // them with.
  lemma WriteThenReadIsIdentity(d: Disk, writes: seq<Access>, f: Disk, back: seq<Access>)
    requires Stable(d) && d.devState == DeviceIdleS && LbaMode(d)
    requires LbaBase(d) + CommandSectors(d) <= |d.image|
    requires |AllGiven(writes)| == 256 * CommandSectors(d)
    // f is the disk after the write, brought to idle and set up for the same range
    requires var r := Do(d, WriteCommand(WriteSectors), true);
             r.Ok? ==>
               && ConformsWrite(r.d, writes)
               && (FinalWrite(r.d, writes).Ok? ==> f.image == FinalWrite(r.d, writes).d.image)
    requires Stable(f) && f.devState == DeviceIdleS && LbaMode(f)
    requires LbaBase(f) == LbaBase(d) && CommandSectors(f) == CommandSectors(d)
    requires var r := Do(f, WriteCommand(ReadSectors), true); r.Ok? ==> Conforms(r.d, back)
    ensures Do(f, WriteCommand(ReadSectors), true).Ok?
    ensures var d1 := Do(f, WriteCommand(ReadSectors), true).d;
            && AllTaken(d1, back) <= AllGiven(writes) && Final(d1, back).Ok?
            && (Final(d1, back).d.devState == DeviceIdleS <==> AllTaken(d1, back) == AllGiven(writes))
  {
    hide *;
    WriteStoresSectors(d, true, writes);
    ReadBack(d.image, LbaBase(d), CommandSectors(d), AllGiven(writes));
    assert 256 * CommandSectors(d) / 256 == CommandSectors(d);
    ReadReturnsSectors(f, true, back);
  }
}
