// PIO data-in: what the host gets from the data register.
module PioRead {
  import opened DiskSpec
  import opened DiskInvariants
  import opened PioHost

  // The words of the first j sectors from lba on, then i words of the next.
  function SectorWords(image: seq<Sector>, lba: nat, j: nat, i: nat): (ws: seq<Word>)
    requires lba + j <= |image| && i <= 256 && (i > 0 ==> lba + j < |image|)
    ensures |ws| == 256 * j + i
    decreases j, i
  {
    if i > 0 then SectorWords(image, lba, j, i - 1) + [WordAt(image[lba + j], 2 * (i - 1))]
    else if j > 0 then SectorWords(image, lba, j - 1, 256)
    else []
  }

  lemma {:induction false} WordOfSectors(image: seq<Sector>, lba: nat, j: nat, i: nat, j0: nat, i0: nat)
    requires lba + j <= |image| && i <= 256 && (i > 0 ==> lba + j < |image|)
    requires i0 < 256 && 256 * j0 + i0 < 256 * j + i
    ensures lba + j0 < |image|
    ensures SectorWords(image, lba, j, i)[256 * j0 + i0] == WordAt(image[lba + j0], 2 * i0)
    decreases j, i
  {
    if i > 0 {
      if 256 * j0 + i0 < 256 * j + i - 1 {
        WordOfSectors(image, lba, j, i - 1, j0, i0);
      } else if i <= 256 {
        assert j0 == j && i0 == i - 1;
      }
    } else {
      WordOfSectors(image, lba, j - 1, 256, j0, i0);
    }
  }

  // A read of n sectors from lba on has handed out j sectors and i words:
  // either it is over and the disk is idle, or the next word is in the data
  // register and its sector in the buffer.
  predicate Reading(d: Disk, image: seq<Sector>, lba: nat, n: nat, j: nat, i: nat)
    requires lba + n <= |image|
  {
    && d.image == image && d.command == ReadSectors
    && if j == n then i == 0 && d.devState == DeviceIdleS
       else
         && j < n && i < 256
         && (d.devState == DataReadyIntrqIn || d.devState == TransferDataIn)
         && d.cmdBytesLeft == 512 * (n - j) - 2 * i
         && d.drqBytesLeft == 512 - 2 * i
         && d.curSector == lba + j + 1
         && d.buffer[..512] == image[lba + j]
         && d.data == WordAt(image[lba + j], 2 * i)
  }

  // ---- The host ----

  // The host reads data only when the disk asks for it and no interrupt is
  // outstanding, and 32 bits only when the block has two words left.
  predicate Obeys(d: Disk, acc: Access) {
    match acc
    case ReadData16 => d.status.drq && !d.intrPending
    case ReadData32 => d.status.drq && !d.intrPending && d.drqBytesLeft >= 4
    case _ => IsQuiet(acc)
  }

  function Taken(r: Reply): seq<Word> { if r.Words? then r.ws else [] }

  ghost predicate Conforms(d: Disk, accs: seq<Access>)
    requires Shape(d)
    decreases |accs|
  {
    accs == [] ||
    (Obeys(d, accs[0]) && (Do(d, accs[0], true).Ok? ==> Conforms(Do(d, accs[0], true).d, accs[1..])))
  }

  ghost function AllTaken(d: Disk, accs: seq<Access>): seq<Word>
    requires Shape(d) && Conforms(d, accs)
    decreases |accs|
  {
    if accs == [] then []
    else
      Taken(Answer(d, accs[0], true))
      + if Do(d, accs[0], true).Ok? then AllTaken(Do(d, accs[0], true).d, accs[1..]) else []
  }

  // The disk after all accesses, unless one of them stops the simulator.
  ghost function Final(d: Disk, accs: seq<Access>): Result
    requires Shape(d) && Conforms(d, accs)
    decreases |accs|
  {
    if accs == [] then Ok(d)
    else if Do(d, accs[0], true).Panic? then Do(d, accs[0], true)
    else Final(Do(d, accs[0], true).d, accs[1..])
  }

  // ---- Facts about single calls ----

  lemma ReadWordIs(d: Disk, sel: bool)
    requires Shape(d) && d.devState == TransferDataIn
    ensures ReadWord(d, sel) ==
            if d.drqBytesLeft != 2 then Ok(NextWord(d))
            else if d.cmdBytesLeft == 2 then Ok(NextWord(d).(status := COMPLETE, devState := DeviceIdleS))
            else Proceed(NextWord(d).(devState := PrepareDataIn, status := d.status.(bsy := true, drq := false)))
  {
    hide Proceed; hide NextWord;
  }

  // ---- One access while reading ----

  lemma LoadStartsBlock(d: Disk, image: seq<Sector>, lba: nat, n: nat, j: nat)
    requires lba + n <= |image| && j < n
    requires d.image == image && d.command == ReadSectors && d.devState == PrepareDataIn
    requires d.cmdBytesLeft == 512 * (n - j) && d.curSector == lba + j && !d.intrPending
    ensures Proceed(d).Ok? && Reading(Proceed(d).d, image, lba, n, j, 0)
  {
    assert Overwrite(d.buffer, 0, image[lba + j])[..512] == image[lba + j];
    hide Overwrite; hide WordAt;
  }

  // The command itself.
  lemma CommandStartsRead(d: Disk, sel: bool)
    requires Stable(d) && d.devState == DeviceIdleS && LbaMode(d)
    requires LbaBase(d) + CommandSectors(d) <= |d.image|
    ensures var r := Do(d, WriteCommand(ReadSectors), sel);
            r.Ok? && Stable(r.d) && Reading(r.d, d.image, LbaBase(d), CommandSectors(d), 0, 0)
  {
    hide Do; hide Reading; hide Proceed;
    CommandWriteStarts(d, ReadSectors, sel);
    AccessKeepsStable(d, WriteCommand(ReadSectors), sel);
    LoadStartsBlock(SetUpTransfer(d.(command := ReadSectors), PrepareDataIn),
                    d.image, LbaBase(d), CommandSectors(d), 0);
  }

  lemma WordOfBlock(sector: Sector, i: nat, buffer: Buffer)
    requires i < 256 && buffer[..512] == sector
    ensures WordAt(buffer, 2 * i) == WordAt(sector, 2 * i)
  {
    assert buffer[2 * i] == buffer[..512][2 * i] && buffer[2 * i + 1] == buffer[..512][2 * i + 1];
  }

  lemma NextBlockBegins(d: Disk, image: seq<Sector>, lba: nat, n: nat, j: nat)
    requires lba + n <= |image| && j + 1 < n
    requires Stable(d) && Reading(d, image, lba, n, j, 255) && d.devState == TransferDataIn
    ensures BlockShape(d)
    ensures var r := Proceed(NextWord(d).(devState := PrepareDataIn,
                                          status := d.status.(bsy := true, drq := false)));
            r.Ok? && Reading(r.d, image, lba, n, j + 1, 0)
  {
    var p := NextWord(d).(devState := PrepareDataIn, status := d.status.(bsy := true, drq := false));
    assert p.cmdBytesLeft == 512 * (n - (j + 1)) && p.curSector == lba + (j + 1) && !p.intrPending;
    assert p.image == image && p.command == ReadSectors;
    hide Proceed; hide Reading; hide NextWord;
    LoadStartsBlock(p, image, lba, n, j + 1);
  }

  // The position after one more word.
  function J(j: nat, i: nat): nat { if i < 255 then j else j + 1 }
  function I(i: nat): nat { if i < 255 then i + 1 else 0 }

  lemma MidBlockAdvances(d: Disk, image: seq<Sector>, lba: nat, n: nat, j: nat, i: nat)
    requires lba + n <= |image| && j < n && i < 255
    requires Shape(d) && Reading(d, image, lba, n, j, i) && d.devState == TransferDataIn
    ensures BlockShape(d) && d.drqBytesLeft != 2
    ensures Reading(NextWord(d), image, lba, n, j, i + 1) && NextWord(d).devState == TransferDataIn
  {
    hide WordAt;
    WordOfBlock(image[lba + j], i + 1, d.buffer);
  }

  lemma EndOfBlock(d: Disk, image: seq<Sector>, lba: nat, n: nat, j: nat)
    requires lba + n <= |image| && j < n
    requires Shape(d) && Reading(d, image, lba, n, j, 255) && d.devState == TransferDataIn
    ensures BlockShape(d) && d.drqBytesLeft == 2 && (d.cmdBytesLeft == 2 <==> j + 1 == n)
    ensures j + 1 == n ==>
      Reading(NextWord(d).(status := COMPLETE, devState := DeviceIdleS), image, lba, n, n, 0)
  {
    hide WordAt;
  }

  lemma ReadWordAdvances(d: Disk, image: seq<Sector>, lba: nat, n: nat, j: nat, i: nat, sel: bool)
    requires lba + n <= |image| && j < n && i < 256
    requires Stable(d) && Reading(d, image, lba, n, j, i) && d.devState == TransferDataIn
    ensures ReadWord(d, sel).Ok? && Stable(ReadWord(d, sel).d)
    ensures Reading(ReadWord(d, sel).d, image, lba, n, J(j, i), I(i))
    ensures i < 255 ==> ReadWord(d, sel).d.devState == TransferDataIn
  {
    hide ReadWord; hide Proceed; hide WordAt; hide Stable; hide CountersFit; hide Reading; hide NextWord;
    StableHasShape(d);
    WordKeepsStable(d, d.data, sel);
    ReadWordIs(d, sel);
    if i < 255 {
      MidBlockAdvances(d, image, lba, n, j, i);
    } else {
      EndOfBlock(d, image, lba, n, j);
      if j + 1 < n { NextBlockBegins(d, image, lba, n, j); }
    }
  }

  lemma SameTransferReads(d: Disk, d': Disk, image: seq<Sector>, lba: nat, n: nat, j: nat, i: nat)
    requires lba + n <= |image| && Reading(d, image, lba, n, j, i) && SameTransfer(d, d')
    ensures InCommand(d.devState)
    ensures Reading(d', image, lba, n, j, i)
  {
    hide WordAt;
  }

  lemma QuietAccess(d: Disk, acc: Access, image: seq<Sector>, lba: nat, n: nat, j: nat, i: nat)
    requires lba + n <= |image| && Stable(d) && Reading(d, image, lba, n, j, i) && IsQuiet(acc)
    ensures Shape(d)
    ensures var r := Do(d, acc, true);
            && r.Ok? && Stable(r.d) && Reading(r.d, image, lba, n, j, i)
            && Taken(Answer(d, acc, true)) == []
  {
    ReadyWhileReading(d, image, lba, n, j, i);
    assert SameTransfer(d, d);
    hide *;
    SameTransferReads(d, d, image, lba, n, j, i);
    QuietKeepsTransfer(d, acc, true);
    SameTransferReads(d, Do(d, acc, true).d, image, lba, n, j, i);
    assert Taken(Answer(d, acc, true)) == [] by { NoWords(Answer(d, acc, true)); }
  }

  lemma NoWords(r: Reply)
    requires !r.Words?
    ensures Taken(r) == []
  {}

  lemma ReadyWhileReading(d: Disk, image: seq<Sector>, lba: nat, n: nat, j: nat, i: nat)
    requires lba + n <= |image| && Stable(d) && Reading(d, image, lba, n, j, i)
    ensures d.status.drq && !d.intrPending ==> d.devState == TransferDataIn && j < n
    ensures j < n && d.drqBytesLeft >= 4 ==> i < 255
    ensures j <= n && i <= 255 && (j == n ==> i == 0)
    ensures Shape(d)
  {
    hide WordAt;
  }

  // ---- Whole reads ----

  // What one access adds to the words taken so far.
  ghost predicate Extends(d: Disk, acc: Access, image: seq<Sector>, lba: nat, n: nat,
                          j: nat, i: nat, j': nat, i': nat)
    requires lba + n <= |image| && Shape(d)
  {
    && j <= n && i <= 255 && (j == n ==> i == 0)
    && j' <= n && i' <= 255 && (j' == n ==> i' == 0)
    && Do(d, acc, true).Ok? && Stable(Do(d, acc, true).d)
    && Reading(Do(d, acc, true).d, image, lba, n, j', i')
    && SectorWords(image, lba, j, i) + Taken(Answer(d, acc, true)) == SectorWords(image, lba, j', i')
  }

  lemma SnocWord(image: seq<Sector>, lba: nat, j: nat, i: nat)
    requires lba + j < |image| && i < 256
    ensures SectorWords(image, lba, j, i) + [WordAt(image[lba + j], 2 * i)]
            == SectorWords(image, lba, J(j, i), I(i))
  {
    hide WordAt;
    assert SectorWords(image, lba, j, i + 1) ==
           SectorWords(image, lba, j, i) + [WordAt(image[lba + j], 2 * i)];
  }

  lemma ReadData16Extends(d: Disk, image: seq<Sector>, lba: nat, n: nat, j: nat, i: nat)
    requires lba + n <= |image| && Stable(d) && Reading(d, image, lba, n, j, i) && Obeys(d, ReadData16)
    ensures Extends(d, ReadData16, image, lba, n, j, i, J(j, i), I(i))
  {
    hide Update; hide ReadWord; hide Stable; hide SectorWords; hide WordAt;
    ReadyWhileReading(d, image, lba, n, j, i);
    ReadWordAdvances(d, image, lba, n, j, i, true);
    SnocWord(image, lba, j, i);
  }

  lemma ReadData32Is(d: Disk)
    requires Shape(d) && ReadWord(d, true).Ok?
    ensures Do(d, ReadData32, true) == ReadWord(ReadWord(d, true).d, true)
    ensures Taken(Answer(d, ReadData32, true)) == [d.data, ReadWord(d, true).d.data]
  {
    hide ReadWord; hide Update;
  }

  // The host asks for two words only where the block holds two.
  lemma TwoWordsAreLeft(d: Disk, image: seq<Sector>, lba: nat, n: nat, j: nat, i: nat)
    requires lba + n <= |image| && Stable(d) && Reading(d, image, lba, n, j, i) && Obeys(d, ReadData32)
    ensures j < n && i < 255 && d.devState == TransferDataIn && Shape(d)
    ensures J(j, i) == j && I(i) == i + 1
  {
    ReadyWhileReading(d, image, lba, n, j, i);
    hide Update; hide SectorWords; hide WordAt; hide CountersFit;
  }

  lemma ReadData32Extends(d: Disk, image: seq<Sector>, lba: nat, n: nat, j: nat, i: nat)
    requires lba + n <= |image| && Stable(d) && Reading(d, image, lba, n, j, i) && Obeys(d, ReadData32)
    ensures i < 255 && Extends(d, ReadData32, image, lba, n, j, i, J(j, i + 1), I(i + 1))
  {
    hide Update; hide ReadWord; hide Stable; hide SectorWords; hide WordAt; hide Do; hide Answer; hide Reading;
    hide CountersFit; hide Obeys;
    TwoWordsAreLeft(d, image, lba, n, j, i);
    ReadingGives(d, image, lba, n, j, i);
    ReadWordAdvances(d, image, lba, n, j, i, true);
    var d1 := ReadWord(d, true).d;
    StableHasShape(d1);
    ReadingGives(d1, image, lba, n, j, i + 1);
    ReadWordAdvances(d1, image, lba, n, j, i + 1, true);
    ReadData32Is(d);
    SnocWord(image, lba, j, i);
    SnocWord(image, lba, j, i + 1);
    assert SectorWords(image, lba, j, i) + [d.data, d1.data]
           == (SectorWords(image, lba, j, i) + [d.data]) + [d1.data];
  }

  lemma ReadingGives(d: Disk, image: seq<Sector>, lba: nat, n: nat, j: nat, i: nat)
    requires lba + n <= |image| && Reading(d, image, lba, n, j, i) && j < n
    ensures i < 256 && d.data == WordAt(image[lba + j], 2 * i)
  {}

  lemma AccessExtends(d: Disk, acc: Access, image: seq<Sector>, lba: nat, n: nat, j: nat, i: nat)
    returns (j': nat, i': nat)
    requires lba + n <= |image| && Stable(d) && Reading(d, image, lba, n, j, i) && Obeys(d, acc)
    ensures j <= n && i <= 255 && (j == n ==> i == 0)
    ensures j' <= n && i' <= 255 && (j' == n ==> i' == 0)
    ensures Do(d, acc, true).Ok? && Stable(Do(d, acc, true).d)
    ensures Reading(Do(d, acc, true).d, image, lba, n, j', i')
    ensures SectorWords(image, lba, j, i) + Taken(Answer(d, acc, true)) == SectorWords(image, lba, j', i')
  {
    ReadyWhileReading(d, image, lba, n, j, i);
    hide Do; hide Reading; hide SectorWords; hide WordAt; hide Stable; hide Answer;
    if acc.ReadData16? {
      ReadData16Extends(d, image, lba, n, j, i);
      j', i' := J(j, i), I(i);
    } else if acc.ReadData32? {
      ReadData32Extends(d, image, lba, n, j, i);
      j', i' := J(j, i + 1), I(i + 1);
    } else {
      QuietAccess(d, acc, image, lba, n, j, i);
      j', i' := j, i;
    }
  }

  lemma HostObeys(d: Disk, accs: seq<Access>)
    requires Shape(d) && accs != [] && Conforms(d, accs)
    ensures Obeys(d, accs[0])
  {}

  lemma RunUnfolds(d: Disk, accs: seq<Access>)
    requires Shape(d) && accs != [] && Conforms(d, accs) && Do(d, accs[0], true).Ok?
    ensures Conforms(Do(d, accs[0], true).d, accs[1..])
    ensures AllTaken(d, accs) ==
            Taken(Answer(d, accs[0], true)) + AllTaken(Do(d, accs[0], true).d, accs[1..])
    ensures Final(d, accs) == Final(Do(d, accs[0], true).d, accs[1..])
  {
    hide Do; hide Answer; hide Obeys; hide CountersFit;
  }

  // Whatever a conforming host does, the words it has taken are the words of
  // the sectors, in order and without gaps, up to where the disk stands.
  lemma {:induction false} ReadInProgress(d: Disk, accs: seq<Access>, image: seq<Sector>, lba: nat, n: nat,
                                          j: nat, i: nat)
    returns (j': nat, i': nat)
    requires lba + n <= |image| && Stable(d) && Reading(d, image, lba, n, j, i)
    requires Conforms(d, accs)
    ensures j <= n && i <= 255 && (j == n ==> i == 0)
    ensures j' <= n && i' <= 255 && (j' == n ==> i' == 0)
    ensures SectorWords(image, lba, j, i) + AllTaken(d, accs) == SectorWords(image, lba, j', i')
    ensures Final(d, accs).Ok? && Stable(Final(d, accs).d) && Reading(Final(d, accs).d, image, lba, n, j', i')
    decreases |accs|
  {
    hide *;
    ReadyWhileReading(d, image, lba, n, j, i);
    if accs == [] {
      EmptyRun(d);
      assert SectorWords(image, lba, j, i) + [] == SectorWords(image, lba, j, i);
      j', i' := j, i;
    } else {
      HostObeys(d, accs);
      var j1, i1 := AccessExtends(d, accs[0], image, lba, n, j, i);
      RunUnfolds(d, accs);
      var t, d1 := Taken(Answer(d, accs[0], true)), Do(d, accs[0], true).d;
      j', i' := ReadInProgress(d1, accs[1..], image, lba, n, j1, i1);
      assert SectorWords(image, lba, j, i) + (t + AllTaken(d1, accs[1..]))
             == (SectorWords(image, lba, j, i) + t) + AllTaken(d1, accs[1..]);
    }
  }

  lemma EmptyRun(d: Disk)
    requires Shape(d)
    ensures Conforms(d, []) && AllTaken(d, []) == [] && Final(d, []) == Ok(d)
  {}

  // A read command, from an idle disk on: no conforming access stops the
  // simulator, the words taken are a prefix of the requested sectors, and the
  // disk is idle again exactly when all of them are taken.  A sector count of 0 reads 256 sectors.
  lemma ReadReturnsSectors(d: Disk, sel: bool, accs: seq<Access>)
    requires Stable(d) && d.devState == DeviceIdleS && LbaMode(d)
    requires LbaBase(d) + CommandSectors(d) <= |d.image|
    requires var r := Do(d, WriteCommand(ReadSectors), sel); r.Ok? ==> Conforms(r.d, accs)
    ensures Do(d, WriteCommand(ReadSectors), sel).Ok?
    ensures var d1 := Do(d, WriteCommand(ReadSectors), sel).d;
            var all := SectorWords(d.image, LbaBase(d), CommandSectors(d), 0);
            && AllTaken(d1, accs) <= all && Final(d1, accs).Ok?
            && (AllTaken(d1, accs) == all <==> Final(d1, accs).d.devState == DeviceIdleS)
            && Final(d1, accs).d.image == d.image
  {
    hide Do; hide AllTaken; hide Conforms; hide Final; hide WordAt; hide LbaBase; hide CommandSectors;
    CommandStartsRead(d, sel);
    var d1 := Do(d, WriteCommand(ReadSectors), sel).d;
    var n := CommandSectors(d);
    var j, i := ReadInProgress(d1, accs, d.image, LbaBase(d), n, 0, 0);
    assert SectorWords(d.image, LbaBase(d), 0, 0) == [];
    assert [] + AllTaken(d1, accs) == AllTaken(d1, accs);
    PrefixOfSectors(d.image, LbaBase(d), n, j, i);
  }

  lemma PrefixOfSectors(image: seq<Sector>, lba: nat, n: nat, j: nat, i: nat)
    requires lba + n <= |image| && j <= n && i <= 255 && (j == n ==> i == 0)
    ensures SectorWords(image, lba, j, i) <= SectorWords(image, lba, n, 0)
  {
    var part, all := SectorWords(image, lba, j, i), SectorWords(image, lba, n, 0);
    forall k | 0 <= k < |part|
      ensures part[k] == all[k]
    {
      WordOfSectors(image, lba, j, i, k / 256, k % 256);
      WordOfSectors(image, lba, n, 0, k / 256, k % 256);
    }
  }

  // A read can always be finished: while words are missing, reading status
  // and then data is conforming and takes exactly the next word.
  lemma ReadCanGoOn(d: Disk, image: seq<Sector>, lba: nat, n: nat, j: nat, i: nat)
    requires lba + n <= |image| && Stable(d) && Reading(d, image, lba, n, j, i) && j < n
    ensures Do(d, ReadStatus, true).Ok? && i < 256
    ensures var d1 := Do(d, ReadStatus, true).d;
            && Obeys(d1, ReadData16) && Do(d1, ReadData16, true).Ok?
            && Reading(Do(d1, ReadData16, true).d, image, lba, n, J(j, i), I(i))
            && Answer(d1, ReadData16, true) == Words([WordAt(image[lba + j], 2 * i)])
  {
    hide Update; hide ReadWord; hide WordAt;
    StatusReadIs(d, true);
    AccessKeepsStable(d, ReadStatus, true);
    var d1 := Do(d, ReadStatus, true).d;
    assert d1.devState == TransferDataIn && Reading(d1, image, lba, n, j, i);
    ReadWordAdvances(d1, image, lba, n, j, i, true);
  }
}
