// Registrations at the granularity of the words they write.
module IchRuns {
  import opened IchSpec

  // One registration at a time; its words go to the row in order, the first
  // word last.
  datatype Writing = Quiet | Copying(dsid: nat, row: nat, next: nat)

  datatype State = State(rows: seq<Row>, names: seq<nat>, writing: Writing)

  datatype Event = Begin(dsid: nat) | CopyOn | Lookup(dsid: nat)

  ghost predicate Enabled(st: State, e: Event) {
    match e
    case Begin(d) => st.writing.Quiet? && (|st.names| < MAX_GUESTS || d in st.names)
    case CopyOn =>
      && st.writing.Copying? && st.writing.row < |st.rows| && st.writing.row < MAX_GUESTS
      && st.writing.next <= WORDS
    case Lookup(_) => true
  }

  ghost function Apply(st: State, e: Event): State
    requires Enabled(st, e)
  {
    match e
    case Begin(d) =>
      var s := Scan(st.rows, d, 0);
      if s.FreeRow? then st.(writing := Copying(d, s.row, 1)) else st
    case CopyOn =>
      var w := st.writing;
      var i := if w.next < WORDS then w.next else 0;
      var rows := st.rows[w.row := CopyWord(st.rows[w.row], Wanted(w.dsid, w.row), i)];
      if i != 0 then State(rows, st.names, w.(next := w.next + 1))
      else State(rows, st.names + [w.dsid], Quiet)
    case Lookup(d) => st.(rows := Normalise(st.rows, d))
  }

  // A row of which words 1..next have been written.
  function Half(dsid: nat, k: nat, next: nat): Row
    requires k < MAX_GUESTS && 1 <= next <= WORDS
  {
    if next == 1 then Blank() else CopyWord(Half(dsid, k, next - 1), Wanted(dsid, k), next - 1)
  }

  ghost predicate Distinct(s: seq<nat>) { forall i, j :: 0 <= i < |s| && 0 <= j < |s| && s[i] == s[j] ==> i == j }

  // A complete row; past the fourth its selection may have been normalised.
  predicate Registered(row: Row, dsid: nat, k: nat)
    requires k < MAX_GUESTS
  {
    row == Wanted(dsid, k) || (k >= 4 && row == Wanted(dsid, k).(selected := UNSELECTED))
  }

  // Registered guests fill a prefix of the table, each in the row that is
  // the number of its set.
  ghost predicate Inv(st: State) {
    var n := |st.names|;
    && n <= MAX_GUESTS && n <= |st.rows| && Distinct(st.names)
    && (forall k :: 0 <= k < n ==> Registered(st.rows[k], st.names[k], k))
    && (forall k :: n < k < |st.rows| ==> st.rows[k] == Blank())
    && match st.writing
       case Quiet => n < |st.rows| ==> st.rows[n] == Blank()
       case Copying(d, r, next) =>
         && r == n < MAX_GUESTS && n < |st.rows| && d !in st.names && 1 <= next <= WORDS
         && st.rows[n] == Half(d, n, next)
  }

  lemma {:induction false} HalfAt(dsid: nat, k: nat, next: nat)
    requires k < MAX_GUESTS && 1 <= next <= WORDS
    ensures var h, w := Half(dsid, k, next), Wanted(dsid, k);
            && h.flags == 0 && h.dsid == NO_DSID && h.selected == UNSELECTED
            && (forall j :: 0 <= j < 4 ==> h.regbase[j] == if j + 1 < next then w.regbase[j] else MAX64)
            && (forall l :: 0 <= l < 24 ==> h.lines[l] == if 5 + l / 2 < next then w.lines[l] else -1)
  {
    if next > 1 {
      HalfAt(dsid, k, next - 1);
      hide Wanted;
    }
  }

  lemma HalfDone(dsid: nat, k: nat)
    requires k < MAX_GUESTS
    ensures CopyWord(Half(dsid, k, WORDS), Wanted(dsid, k), 0) == Wanted(dsid, k)
  {
    HalfAt(dsid, k, WORDS);
    var h, w := Half(dsid, k, WORDS), Wanted(dsid, k);
    assert h.regbase == w.regbase;
    assert h.lines == w.lines;
    assert w.flags == 1 && w.dsid == dsid && w.selected == k;
  }

  lemma RegisteredIs(row: Row, dsid: nat, k: nat)
    requires k < MAX_GUESTS && Registered(row, dsid, k)
    ensures row.flags == 1 && row.dsid == dsid && row.lines == Wanted(dsid, k).lines
    ensures k < 4 ==> row == Wanted(dsid, k)
    ensures k >= 4 ==> row.selected >= 4
  {}

  lemma {:induction false} ScanIs(st: State, d: nat, i: nat)
    requires Inv(st) && st.writing.Quiet? && i <= |st.names|
    requires forall k :: 0 <= k < i ==> st.names[k] != d
    ensures Scan(st.rows, d, i) ==
            if d in st.names then Already else if |st.names| < |st.rows| then FreeRow(|st.names|) else Full
    decreases |st.names| - i
  {
    if i < |st.names| {
      RegisteredIs(st.rows[i], st.names[i], i);
      if st.names[i] != d { ScanIs(st, d, i + 1); }
    }
  }

  lemma BeginKeepsInv(st: State, d: nat)
    requires Inv(st) && Enabled(st, Begin(d))
    ensures Inv(Apply(st, Begin(d)))
  {
    ScanIs(st, d, 0);
    hide Scan; hide Registered;
  }

  lemma CopyKeepsInv(st: State)
    requires Inv(st) && Enabled(st, CopyOn)
    ensures Inv(Apply(st, CopyOn))
  {
    if st.writing.next == WORDS {
      HalfDone(st.writing.dsid, st.writing.row);
      hide Half; hide CopyWord; hide Wanted;
      assert forall k :: 0 <= k < |st.names| ==> Registered(st.rows[k], st.names[k], k);
    } else {
      hide CopyWord; hide Wanted; hide Registered;
    }
  }

  lemma LookupKeepsInv(st: State, d: nat)
    requires Inv(st)
    ensures Inv(Apply(st, Lookup(d)))
  {
    var r := FindRow(st.rows, d, 0);
    if r < |st.names| {
      RegisteredIs(st.rows[r], st.names[r], r);
    } else if st.writing.Copying? && r == |st.names| {
      HalfAt(st.writing.dsid, r, st.writing.next);
      hide Half; hide Wanted;
    }
  }

  lemma StepKeepsInv(st: State, e: Event)
    requires Inv(st) && Enabled(st, e)
    ensures Inv(Apply(st, e))
  {
    hide Inv; hide Apply; hide Enabled;
    match e
    case Begin(d) => BeginKeepsInv(st, d);
    case CopyOn => CopyKeepsInv(st);
    case Lookup(d) => LookupKeepsInv(st, d);
  }

  ghost predicate IsRun(trace: seq<State>, entries: nat) {
    && trace != []
    && trace[0] == State(seq(entries, _ => Blank()), [], Quiet)
    && forall k :: 0 <= k < |trace| - 1 ==> Next(trace[k], trace[k + 1])
  }

  ghost predicate Next(st: State, st': State) { exists e :: Enabled(st, e) && st' == Apply(st, e) }

  // Over every run, at every word written and with lookups in between.
  lemma {:induction false} RunKeepsInv(trace: seq<State>, entries: nat)
    requires IsRun(trace, entries)
    ensures Inv(trace[|trace| - 1])
    decreases |trace|
  {
    hide Inv; hide Apply; hide Enabled;
    StartHasInv(entries);
    if |trace| > 1 {
      var before, k := trace[..|trace| - 1], |trace| - 2;
      assert forall j :: 0 <= j < |before| - 1 ==> Next(before[j], before[j + 1]);
      RunKeepsInv(before, entries);
      assert Next(trace[k], trace[k + 1]);
      var e :| Enabled(trace[k], e) && trace[k + 1] == Apply(trace[k], e);
      StepKeepsInv(trace[k], e);
    }
  }

  lemma StartHasInv(entries: nat)
    ensures Inv(State(seq(entries, _ => Blank()), [], Quiet))
  {}

  // A registration goes on to its last word.
  ghost function Finish(st: State): (r: State)
    requires Inv(st)
    ensures Inv(r) && r.writing.Quiet? && |r.rows| == |st.rows|
    ensures r.names == if st.writing.Quiet? then st.names else st.names + [st.writing.dsid]
    decreases if st.writing.Quiet? then 0 else WORDS + 1 - st.writing.next
  {
    if st.writing.Quiet? then st
    else
      CopyKeepsInv(st);
      Finish(Apply(st, CopyOn))
  }

  // ---- Addresses ----

  // What a guest with set k sees.
  function SetRemap(k: nat, a: nat): nat
    requires k < 4
  {
    if IO + 0x3f8 <= a < IO + 0x400 then PartBase(k, 0) + (a - (IO + 0x3f8))
    else if IO + 0x70 <= a < IO + 0x74 then a
    else if IO + 0x40 <= a < IO + 0x44 then PartBase(k, 2) + (a - (IO + 0x40))
    else if IO_APIC <= a < IO_APIC + 0x14 then a
    else IO
  }

  lemma WantedRemap(dsid: nat, k: nat, a: nat)
    requires k < 4
    ensures RemapPart(Wanted(dsid, k), k, a, 0) == SetRemap(k, a)
  {
    var r := Wanted(dsid, k);
    assert RemapPart(r, k, a, 4) == IO;
    assert RemapPart(r, k, a, 3) == if IO_APIC <= a < IO_APIC + 0x14 then a else IO;
    assert RemapPart(r, k, a, 2) == if IO + 0x40 <= a < IO + 0x44 then PartBase(k, 2) + (a - (IO + 0x40))
                                    else RemapPart(r, k, a, 3);
  }

  // A guest sees its own set from the moment its registration is complete,
  // and until then nothing: the words before the last change no address.
  // There are four sets; a guest past the fourth sees nothing.
  lemma RemapIs(st: State, g: nat, a: nat)
    requires Inv(st)
    ensures forall k :: 0 <= k < |st.names| && st.names[k] == g ==>
              Remap(st.rows, g, a) == if k < 4 then SetRemap(k, a) else IO
    ensures g !in st.names ==> Remap(st.rows, g, a) == IO
  {
    hide SetRemap; hide RemapPart; hide Half;
    var r := FindRow(st.rows, g, 0);
    forall k | 0 <= k < |st.names|
      ensures st.rows[k].dsid == st.names[k] && (k < 4 ==> st.rows[k] == Wanted(st.names[k], k))
      ensures k >= 4 ==> st.rows[k].selected >= 4
    {
      RegisteredIs(st.rows[k], st.names[k], k);
    }
    hide Registered;
    forall k | 0 <= k < |st.names| && st.names[k] == g
      ensures Remap(st.rows, g, a) == if k < 4 then SetRemap(k, a) else IO
    {
      if k < 4 { WantedRemap(g, k, a); }
    }
    if st.writing.Copying? && r == |st.names| {
      HalfAt(st.writing.dsid, r, st.writing.next);
    }
  }

  predicate IsShared(p: nat) { p == IO || IO + 0x70 <= p < IO + 0x74 || IO_APIC <= p < IO_APIC + 0x14 }

  lemma SetsAreApart(k: nat, m: nat, a: nat, b: nat)
    requires k < m < 4 && SetRemap(k, a) == SetRemap(m, b)
    ensures IsShared(SetRemap(k, a))
  {}

  // Two guests meet only in the clock memory, at the I/O APIC and at port 0.
  lemma GuestsAreSeparate(trace: seq<State>, entries: nat, g: nat, g': nat, a: nat, b: nat)
    requires IsRun(trace, entries) && g != g'
    requires var rows := trace[|trace| - 1].rows; Remap(rows, g, a) == Remap(rows, g', b)
    ensures IsShared(Remap(trace[|trace| - 1].rows, g, a))
  {
    RunKeepsInv(trace, entries);
    var st := trace[|trace| - 1];
    hide IsRun; hide Remap; hide SetRemap;
    RemapIs(st, g, a);
    RemapIs(st, g', b);
    if g in st.names && g' in st.names {
      var k :| 0 <= k < |st.names| && st.names[k] == g;
      var m :| 0 <= m < |st.names| && st.names[m] == g';
      if k < m < 4 { SetsAreApart(k, m, a, b); } else if m < k < 4 { SetsAreApart(m, k, b, a); }
    }
  }

  // ---- Interrupts ----

  // The line that the guest of set k has for a pin: 2 for its timer, 4 for
  // its serial port, 8 for the clock.
  function LineOf(k: nat, pin: nat): int {
    if pin == 8 then 8 else if pin == k + 4 then 4 else if pin == k then 2 else -1
  }

  lemma LinesOf(dsid: nat, k: nat, pin: nat)
    requires k < MAX_GUESTS && pin < PINS
    ensures Wanted(dsid, k).dsid == dsid && Wanted(dsid, k).lines[pin] == LineOf(k, pin)
  {}

  // Who hears of a pin among the first m guests.
  function Heard(names: seq<nat>, pin: nat, m: nat): seq<(nat, int)>
    requires m <= |names|
  {
    if m == 0 then []
    else Heard(names, pin, m - 1) + if LineOf(m - 1, pin) != -1 then [(names[m - 1], LineOf(m - 1, pin))] else []
  }

  // And the row in progress: it has lines before it has a guest.
  ghost function Stray(st: State, pin: nat): seq<(nat, int)> {
    if st.writing.Copying? && 5 + pin / 2 < st.writing.next && LineOf(|st.names|, pin) != -1
    then [(NO_DSID, LineOf(|st.names|, pin))] else []
  }

  lemma RowIs(st: State, pin: nat, k: nat)
    requires Inv(st) && pin < PINS && k < |st.rows|
    ensures k < |st.names| ==> st.rows[k].dsid == st.names[k] && st.rows[k].lines[pin] == LineOf(k, pin)
    ensures k > |st.names| ==> st.rows[k].lines[pin] == -1
    ensures k == |st.names| ==>
      (if st.rows[k].lines[pin] != -1 then [(st.rows[k].dsid, st.rows[k].lines[pin])] else []) == Stray(st, pin)
  {
    hide LineOf;
    if k < |st.names| {
      RegisteredIs(st.rows[k], st.names[k], k);
      LinesOf(st.names[k], k, pin);
    } else if k == |st.names| && st.writing.Copying? {
      HalfAt(st.writing.dsid, k, st.writing.next);
      LinesOf(st.writing.dsid, k, pin);
    }
    hide Half; hide Wanted; hide Registered;
  }

  lemma {:induction false} TargetsUpTo(st: State, pin: nat, m: nat)
    requires Inv(st) && pin < PINS && m <= |st.rows|
    ensures Targets(st.rows, pin, m) ==
            if m <= |st.names| then Heard(st.names, pin, m)
            else Heard(st.names, pin, |st.names|) + Stray(st, pin)
  {
    hide Inv; hide Stray; hide LineOf;
    if m > 0 {
      InvFits(st);
      TargetsUpTo(st, pin, m - 1);
      RowIs(st, pin, m - 1);
    } else {
      InvFits(st);
    }
  }

  lemma InvFits(st: State)
    requires Inv(st)
    ensures |st.names| <= |st.rows|
  {}

  // Exactly who hears of a pin, whatever the pin, however many guests, and
  // also while a row is being written.
  lemma TargetsAre(st: State, pin: nat)
    requires Inv(st) && pin < PINS
    ensures Targets(st.rows, pin, |st.rows|) == Heard(st.names, pin, |st.names|) + Stray(st, pin)
  {
    hide Targets; hide Heard;
    TargetsUpTo(st, pin, |st.rows|);
    if |st.rows| == |st.names| { assert Stray(st, pin) == []; }
  }

  // With up to four guests a pin below 8 has one owner at most: timers are on
  // pins 0-3, serial ports on pins 4-7.
  lemma {:induction false} OwnersAre(names: seq<nat>, pin: nat, n: nat)
    requires pin < 8 && n <= |names| && n <= 4
    ensures Heard(names, pin, n) == if pin % 4 < n then [(names[pin % 4], if pin < 4 then 2 else 4)] else []
  {
    if n > 0 { OwnersAre(names, pin, n - 1); }
  }

  // The clock's pin reaches every registered guest, in order.
  lemma {:induction false} ClockReachesAll(names: seq<nat>, n: nat)
    requires n <= |names|
    ensures |Heard(names, 8, n)| == n && forall k :: 0 <= k < n ==> Heard(names, 8, n)[k] == (names[k], 8)
  {
    if n > 0 { ClockReachesAll(names, n - 1); }
  }

  lemma {:induction false} HeardGrows(names: seq<nat>, pin: nat, m: nat, n: nat)
    requires m <= n <= |names|
    ensures |Heard(names, pin, m)| <= |Heard(names, pin, n)|
  {
    if m < n { HeardGrows(names, pin, m, n - 1); }
  }

  lemma FiveShare(names: seq<nat>)
    requires |names| >= 5
    ensures Heard(names, 4, 5) == [(names[0], 4), (names[4], 2)]
  {
    OwnersAre(names, 4, 4);
  }

  // Between registrations, pins below 8 have one owner each exactly as long as
  // there are no more than four guests.
  lemma PinsAreOwnIff(st: State)
    requires Inv(st) && st.writing.Quiet?
    ensures (forall pin :: 0 <= pin < 8 ==> |Targets(st.rows, pin, |st.rows|)| <= 1) <==> |st.names| <= 4
  {
    hide Targets; hide Inv;
    forall pin | 0 <= pin < 8
      ensures |Targets(st.rows, pin, |st.rows|)| == |Heard(st.names, pin, |st.names|)|
    {
      TargetsAre(st, pin);
    }
    if |st.names| <= 4 {
      forall pin | 0 <= pin < 8
        ensures |Targets(st.rows, pin, |st.rows|)| <= 1
      {
        OwnersAre(st.names, pin, |st.names|);
      }
    } else {
      FiveShare(st.names);
      HeardGrows(st.names, 4, 5, |st.names|);
      assert |Targets(st.rows, 4, |st.rows|)| >= 2;
    }
  }

  // And the fifth guest is one that the tool does register: it gets row 4, and
  // its timer line is the pin of the first one's serial port.
  lemma FifthSharesPin(st: State, d: nat)
    requires Inv(st) && st.writing.Quiet? && |st.names| == 4 < |st.rows| && d !in st.names
    ensures Scan(st.rows, d, 0) == FreeRow(4)
    ensures Inv(Apply(st, Begin(d)))
    ensures var st' := Finish(Apply(st, Begin(d)));
            && st'.names == st.names + [d] && Registered(st'.rows[4], d, 4)
            && Targets(st'.rows, 4, |st'.rows|) == [(st.names[0], 4), (d, 2)]
  {
    ScanIs(st, d, 0);
    BeginKeepsInv(st, d);
    var st' := Finish(Apply(st, Begin(d)));
    hide Scan; hide Targets; hide Finish; hide Heard;
    TargetsAre(st', 4);
    FiveShare(st'.names);
  }

  // While a row is being written a pin is heard for nobody exactly from the
  // word that holds its line on.
  lemma HalfWrittenRowIsHeard(st: State, pin: nat)
    requires Inv(st) && st.writing.Copying? && pin < PINS && NO_DSID !in st.names
    ensures (exists line :: (NO_DSID, line) in Targets(st.rows, pin, |st.rows|))
            <==> 5 + pin / 2 < st.writing.next && LineOf(|st.names|, pin) != -1
  {
    TargetsAre(st, pin);
    HeardAreNames(st.names, pin, |st.names|);
    hide Targets; hide Inv; hide LineOf;
    if 5 + pin / 2 < st.writing.next && LineOf(|st.names|, pin) != -1 {
      assert (NO_DSID, LineOf(|st.names|, pin)) in Stray(st, pin);
    }
  }

  lemma {:induction false} HeardAreNames(names: seq<nat>, pin: nat, n: nat)
    requires n <= |names|
    ensures forall t :: t in Heard(names, pin, n) ==> t.0 in names
  {
    if n > 0 { HeardAreNames(names, pin, n - 1); }
  }
}
