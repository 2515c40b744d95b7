/** The tagged branch target buffer as a state machine over values: its
    configuration, its entries, its pools of history registers and counter
    tables, and the effect of each public operation on that state. The class
    in module Predictor implements these operations in place and is proved to
    produce exactly these states. */
module BtbSpec {
  import opened Bits
  import opened Fsm
  import opened History

  /** Bits of a target address that the cost model charges per entry. */
  const InformativePcBits: nat := 30
  /** Addresses are word aligned: fields start at 1-based bit 3. */
  const ThirdBit: nat := 3
  /** Start of the address bits mixed into a shared table's index, for
      sharing mode 1 (low bits) and any other non-zero mode (mid bits). */
  const LowShareBit: nat := 3
  const MidShareBit: nat := 17
  const ValidBit: nat := 1

  /** The parameters `BP_init` stores in the predictor. `shared` is 0 for no
      address mixing, 1 for low-bit mixing and 2 for mid-bit mixing. */
  datatype Config = Config(
    historySize: nat,
    tagSize: nat,
    shared: int,
    initialState: Prediction,
    globalHistory: bool,
    globalTable: bool)

  /** What the source needs of its parameters so that every shift, mask and
      table size it computes stays in C's defined range: a non-empty table
      whose index field keeps the tag shift below 32, `1 << k` a positive int
      for the tag and history widths, and a history of at least one bit
      (shifting uses historySize - 1 bits) whose table size 2^historySize is
      an int. */
  predicate ConfigOk(c: Config, btbSize: nat)
  {
    1 <= btbSize < WordModulus && Log2(btbSize) <= 29
    && 1 <= c.historySize <= 30 && c.tagSize <= 30
  }

  /** One pool member for all entries when the pool is global, one per entry
      otherwise; entry i uses member 0 or member i accordingly. */
  function PoolSize(global: bool, btbSize: nat): nat
  {
    if global then 1 else btbSize
  }

  function PoolSlot(global: bool, i: nat): nat
  {
    if global then 0 else i
  }

  /** A BTB entry: the indices of its history register and counter table in
      the pools, whether it has never been written, its tag and its target. */
  datatype Entry = Entry(historyRef: nat, tableRef: nat, isEmpty: bool, tag: nat, target: uint32)

  datatype State = State(
    entries: seq<Entry>,
    histories: seq<nat>,
    tables: seq<seq<Prediction>>,
    branches: nat,
    flushes: nat)

  predicate EntryOk(c: Config, e: Entry, i: nat)
  {
    e.historyRef == PoolSlot(c.globalHistory, i)
    && e.tableRef == PoolSlot(c.globalTable, i)
    && e.tag < Pow2(c.tagSize)
  }

  /** The predictor's invariant: pool sizes follow the configuration, every
      table has 2^historySize counters, every history register fits in
      historySize bits, and entry i refers to its own pool members. */
  predicate WellFormed(c: Config, s: State)
  {
    ConfigOk(c, |s.entries|)
    && |s.histories| == PoolSize(c.globalHistory, |s.entries|)
    && |s.tables| == PoolSize(c.globalTable, |s.entries|)
    && (forall t :: 0 <= t < |s.tables| ==> |s.tables[t]| == Pow2(c.historySize))
    && (forall h :: 0 <= h < |s.histories| ==> s.histories[h] < Pow2(c.historySize))
    && (forall i :: 0 <= i < |s.entries| ==> EntryOk(c, s.entries[i], i))
  }

  function Fill(n: nat, p: Prediction): (table: seq<Prediction>)
    ensures |table| == n && forall j :: 0 <= j < n ==> table[j] == p
  {
    seq(n, _ => p)
  }

  // ---------------------------------------------------------------------
  // Address decomposition and table indexing

  /** The entry an address selects: log2(btbSize) bits from bit 3 on. */
  function EntryIndex(pc: uint32, btbSize: nat): (i: nat)
    requires btbSize >= 1
    ensures i < btbSize
  {
    BitExtracted(pc, Log2(btbSize), ThirdBit)
  }

  /** The tag of an address: tagSize bits right above the index bits. */
  function PcTag(c: Config, pc: uint32, btbSize: nat): (tag: nat)
    requires btbSize >= 1
    ensures tag < Pow2(c.tagSize)
  {
    BitExtracted(pc, c.tagSize, Log2(btbSize) + ThirdBit)
  }

  /** Index and tag together are exactly the address bits above the two
      byte-offset bits, index below and tag above: pc >> 2 modulo
      2^(log2(btbSize) + tagSize). */
  lemma AddressDecomposition(c: Config, pc: uint32, btbSize: nat)
    requires btbSize >= 1
    ensures LowBits(Shr(pc, 2), Log2(btbSize) + c.tagSize)
         == EntryIndex(pc, btbSize) + Pow2(Log2(btbSize)) * PcTag(c, pc, btbSize)
  {
    LowBitsSplit(Shr(pc, 2), Log2(btbSize), c.tagSize);
    ShrAdd(pc, 2, Log2(btbSize));
  }

  /** Two addresses select the same entry with the same tag exactly when they
      agree on the address bits the index and the tag cover: a tag hit cannot
      tell apart addresses that differ only above those bits or in the two
      alignment bits. */
  lemma SameEntryAndTagIffSameBits(c: Config, pc1: uint32, pc2: uint32, btbSize: nat)
    requires btbSize >= 1
    ensures (EntryIndex(pc1, btbSize) == EntryIndex(pc2, btbSize) && PcTag(c, pc1, btbSize) == PcTag(c, pc2, btbSize))
        <==> LowBits(Shr(pc1, 2), Log2(btbSize) + c.tagSize) == LowBits(Shr(pc2, 2), Log2(btbSize) + c.tagSize)
  {
    AddressDecomposition(c, pc1, btbSize);
    AddressDecomposition(c, pc2, btbSize);
    if LowBits(Shr(pc1, 2), Log2(btbSize) + c.tagSize) == LowBits(Shr(pc2, 2), Log2(btbSize) + c.tagSize) {
      SplitUnique(Log2(btbSize), EntryIndex(pc1, btbSize), PcTag(c, pc1, btbSize),
                  EntryIndex(pc2, btbSize), PcTag(c, pc2, btbSize));
    }
  }

  function ShareBit(shared: int): nat
  {
    if shared == 1 then LowShareBit else MidShareBit
  }

  /** The address bits a shared table mixes into its index. */
  function ShareBits(c: Config, pc: uint32): (bits: nat)
    ensures bits < Pow2(c.historySize)
  {
    BitExtracted(pc, c.historySize, ShareBit(c.shared))
  }

  /** `getPredictionIndex`: the counter an entry's history selects. A private
      table, or a shared one without address mixing, is indexed by the
      history alone; a shared table with mixing by the history XOR the
      historySize address bits from bit 3 (shared == 1) or bit 17. */
  function PredictionIndex(c: Config, history: nat, pc: uint32): (index: nat)
    requires history < Pow2(c.historySize)
    ensures index < Pow2(c.historySize)
  {
    if c.shared == 0 || !c.globalTable then history
    else
      XorBound(ShareBits(c, pc), history, c.historySize);
      Xor(ShareBits(c, pc), history)
  }

  /** With address mixing on a shared table, one history value sends two
      addresses to the same counter exactly when their share bits agree, so
      addresses that differ there do not collide; without mixing, or with a
      private table, the address plays no part. */
  lemma SharedIndexSeparatesAddresses(c: Config, history: nat, pc1: uint32, pc2: uint32)
    requires history < Pow2(c.historySize)
    ensures c.globalTable && c.shared != 0 ==>
              (PredictionIndex(c, history, pc1) == PredictionIndex(c, history, pc2)
               <==> ShareBits(c, pc1) == ShareBits(c, pc2))
    ensures !(c.globalTable && c.shared != 0) ==>
              PredictionIndex(c, history, pc1) == history == PredictionIndex(c, history, pc2)
  {
    if c.globalTable && c.shared != 0 && PredictionIndex(c, history, pc1) == PredictionIndex(c, history, pc2) {
      XorInjective(history, ShareBits(c, pc1), ShareBits(c, pc2));
    }
  }

  // ---------------------------------------------------------------------
  // Init

  /** Entry i as `BP_init` pushes it: empty, tag and target 0, linked to
      the shared pool member 0 or to its own member i. */
  function InitEntry(c: Config, i: nat): (e: Entry)
  {
    Entry(PoolSlot(c.globalHistory, i), PoolSlot(c.globalTable, i), true, 0, 0)
  }

  /** The state `BP_init` builds: zeroed history registers, tables filled
      with the initial counter state, empty entries wired to their pool
      members, and both statistics counters at zero. */
  function InitState(c: Config, btbSize: nat): (s: State)
    requires ConfigOk(c, btbSize)
    ensures WellFormed(c, s)
    ensures |s.entries| == btbSize
  {
    State(
      seq(btbSize, i requires 0 <= i => InitEntry(c, i)),
      seq(PoolSize(c.globalHistory, btbSize), _ => 0),
      seq(PoolSize(c.globalTable, btbSize), _ => Fill(Pow2(c.historySize), c.initialState)),
      0, 0)
  }

  // ---------------------------------------------------------------------
  // Predict

  /** The address of the next instruction, in 32-bit unsigned arithmetic. */
  function FallThrough(pc: uint32): (next: uint32)
    ensures next == if pc + 4 < WordModulus then pc + 4 else pc + 4 - WordModulus
  {
    (pc + 4) % WordModulus
  }

  /** The entry an address selects holds that address's branch: it has been
      written and its tag matches. */
  predicate Hit(c: Config, s: State, pc: uint32)
    requires WellFormed(c, s)
  {
    var e := s.entries[EntryIndex(pc, |s.entries|)];
    !e.isEmpty && e.tag == PcTag(c, pc, |s.entries|)
  }

  /** The counter an address consults in a given state. */
  function Counter(c: Config, s: State, pc: uint32): Prediction
    requires WellFormed(c, s)
  {
    var e := s.entries[EntryIndex(pc, |s.entries|)];
    s.tables[e.tableRef][PredictionIndex(c, s.histories[e.historyRef], pc)]
  }

  /** `BP_predict`'s answer: fall through on a miss or on a not-taken
      counter, else jump to the stored target. */
  function PredictAnswer(c: Config, s: State, pc: uint32): (answer: (bool, uint32))
    requires WellFormed(c, s)
  {
    var e := s.entries[EntryIndex(pc, |s.entries|)];
    if e.isEmpty || e.tag != PcTag(c, pc, |s.entries|) then (false, FallThrough(pc))
    else
      var state := Counter(c, s, pc);
      if state == WNT || state == SNT then (false, FallThrough(pc))
      else (true, e.target)
  }

  /** The predictor says "taken" exactly on a hit whose counter predicts
      taken, and then gives the stored target; otherwise it gives the next
      instruction's address. */
  lemma PredictAnswerMeaning(c: Config, s: State, pc: uint32)
    requires WellFormed(c, s)
    ensures PredictAnswer(c, s, pc).0 <==> Hit(c, s, pc) && PredictsTaken(Counter(c, s, pc))
    ensures PredictAnswer(c, s, pc).1
         == if PredictAnswer(c, s, pc).0 then s.entries[EntryIndex(pc, |s.entries|)].target else FallThrough(pc)
  {
  }

  /** A freshly initialised predictor predicts fall-through for every
      address. */
  lemma ColdPredictFallsThrough(c: Config, btbSize: nat, pc: uint32)
    requires ConfigOk(c, btbSize)
    ensures PredictAnswer(c, InitState(c, btbSize), pc) == (false, FallThrough(pc))
  {
  }

  // ---------------------------------------------------------------------
  // Update

  /** The branch was mispredicted (the pipeline flushes) when the predicted
      destination is not the one the branch resolved to. */
  predicate Mispredicted(pc: uint32, targetPc: uint32, taken: bool, predDst: uint32)
  {
    (!taken && predDst != FallThrough(pc)) || (taken && predDst != targetPc)
  }

  lemma MispredictedIffWrongDestination(pc: uint32, targetPc: uint32, taken: bool, predDst: uint32)
    ensures Mispredicted(pc, targetPc, taken, predDst)
        <==> predDst != (if taken then targetPc else FallThrough(pc))
  {
  }

  /** The first step of `BP_update`: a misprediction counts one flush. */
  function CountFlush(s: State, pc: uint32, targetPc: uint32, taken: bool, predDst: uint32): State
  {
    if Mispredicted(pc, targetPc, taken, predDst) then s.(flushes := s.flushes + 1) else s
  }

  /** The miss test of the update: the stored tag differs from the address's
      tag. Whether the entry is empty plays no part. */
  predicate Miss(c: Config, s: State, pc: uint32)
    requires WellFormed(c, s)
  {
    s.entries[EntryIndex(pc, |s.entries|)].tag != PcTag(c, pc, |s.entries|)
  }

  /** First half of `BP_update`: on a miss, a private table is refilled with
      the initial state and a private history register is cleared. */
  function ResetOnMiss(c: Config, s: State, pc: uint32): (r: State)
    requires WellFormed(c, s)
    ensures WellFormed(c, r) && r.entries == s.entries
  {
    var e := s.entries[EntryIndex(pc, |s.entries|)];
    var miss := Miss(c, s, pc);
    s.(tables := if miss && !c.globalTable then s.tables[e.tableRef := Fill(Pow2(c.historySize), c.initialState)] else s.tables,
       histories := if miss && !c.globalHistory then s.histories[e.historyRef := 0] else s.histories)
  }

  /** Second half of `BP_update`: the counter the (possibly just cleared)
      history selects takes one step towards the outcome, and the outcome is
      shifted into the history register. */
  function Learn(c: Config, s: State, pc: uint32, taken: bool): (r: State)
    requires WellFormed(c, s)
    ensures WellFormed(c, r) && r.entries == s.entries
  {
    var e := s.entries[EntryIndex(pc, |s.entries|)];
    var h := s.histories[e.historyRef];
    var index := PredictionIndex(c, h, pc);
    var table := s.tables[e.tableRef];
    s.(tables := s.tables[e.tableRef := table[index := Next(table[index], taken)]],
       histories := s.histories[e.historyRef := ShiftHistory(h, c.historySize, taken)])
  }

  /** Last step of `BP_update`: the selected entry now holds the branch's
      tag and target. */
  function Record(c: Config, s: State, pc: uint32, targetPc: uint32): (r: State)
    requires WellFormed(c, s)
    ensures WellFormed(c, r)
  {
    var i := EntryIndex(pc, |s.entries|);
    var e := s.entries[i].(target := targetPc, tag := PcTag(c, pc, |s.entries|), isEmpty := false);
    assert EntryOk(c, e, i);
    s.(entries := s.entries[i := e])
  }

  /** The whole of `BP_update`, in the source's order: count a flush on a
      misprediction, reset on a miss, learn, and record the branch's tag and
      target in its entry. */
  function AfterUpdate(c: Config, s: State, pc: uint32, targetPc: uint32, taken: bool, predDst: uint32): (r: State)
    requires WellFormed(c, s)
    ensures WellFormed(c, r)
    ensures |r.entries| == |s.entries| && r.branches == s.branches
  {
    Record(c, Learn(c, ResetOnMiss(c, CountFlush(s, pc, targetPc, taken, predDst), pc), pc, taken), pc, targetPc)
  }

  /** Counting the flush and recording the entry leave the pools alone: the
      pools after an update are those the learning step makes of the reset
      state. */
  lemma UpdatePoolsAreLearnedPools(c: Config, s: State, pc: uint32, targetPc: uint32, taken: bool, predDst: uint32)
    requires WellFormed(c, s)
    ensures var r := AfterUpdate(c, s, pc, targetPc, taken, predDst);
            var l := Learn(c, ResetOnMiss(c, s, pc), pc, taken);
            r.tables == l.tables && r.histories == l.histories
  {
    var f := CountFlush(s, pc, targetPc, taken, predDst);
    assert ResetOnMiss(c, f, pc) == ResetOnMiss(c, s, pc).(flushes := f.flushes);
    var l := Learn(c, ResetOnMiss(c, f, pc), pc, taken);
    assert l.tables == Learn(c, ResetOnMiss(c, s, pc), pc, taken).tables;
    assert l.histories == Learn(c, ResetOnMiss(c, s, pc), pc, taken).histories;
  }

  /** A flush is counted exactly for a misprediction; the branch count is
      not touched by an update. */
  lemma UpdateCountsFlushes(c: Config, s: State, pc: uint32, targetPc: uint32, taken: bool, predDst: uint32)
    requires WellFormed(c, s)
    ensures var r := AfterUpdate(c, s, pc, targetPc, taken, predDst);
            r.branches == s.branches
            && r.flushes == s.flushes + (if Mispredicted(pc, targetPc, taken, predDst) then 1 else 0)
  {
  }

  /** The selected entry afterwards holds the branch: written, with the
      address's tag and the resolved target, still wired to the same pool
      members; every other entry is unchanged. */
  lemma UpdateRecordsBranch(c: Config, s: State, pc: uint32, targetPc: uint32, taken: bool, predDst: uint32)
    requires WellFormed(c, s)
    ensures var i := EntryIndex(pc, |s.entries|);
            var r := AfterUpdate(c, s, pc, targetPc, taken, predDst);
            r.entries[i] == Entry(s.entries[i].historyRef, s.entries[i].tableRef, false, PcTag(c, pc, |s.entries|), targetPc)
            && forall j :: 0 <= j < |s.entries| && j != i ==> r.entries[j] == s.entries[j]
  {
  }

  /** An update touches only the history register and the counter table of
      the selected entry. With private pools this means no other entry's
      register or table changes. */
  lemma UpdateTouchesOnlyOwnPools(c: Config, s: State, pc: uint32, targetPc: uint32, taken: bool, predDst: uint32)
    requires WellFormed(c, s)
    ensures var e := s.entries[EntryIndex(pc, |s.entries|)];
            var r := AfterUpdate(c, s, pc, targetPc, taken, predDst);
            (forall t :: 0 <= t < |s.tables| && t != e.tableRef ==> r.tables[t] == s.tables[t])
            && (forall h :: 0 <= h < |s.histories| && h != e.historyRef ==> r.histories[h] == s.histories[h])
  {
  }

  /** What one update does to the selected entry's pools, hit or miss, for
      every pool configuration. The resets come first: on a miss a private
      history reads as 0 and a private table as all initial state. The counter
      that the possibly cleared history selects (mixed with the share bits for
      a shared table) then takes one step, and that history takes the shift.
      In particular, with a private history the first update of a new branch
      in a shared gshare table trains the slot named by its share bits. */
  lemma UpdateSelectedPools(c: Config, s: State, pc: uint32, targetPc: uint32, taken: bool, predDst: uint32)
    requires WellFormed(c, s)
    ensures var e := s.entries[EntryIndex(pc, |s.entries|)];
            var miss := Miss(c, s, pc);
            var h0 := if miss && !c.globalHistory then 0 else s.histories[e.historyRef];
            var t0 := if miss && !c.globalTable then Fill(Pow2(c.historySize), c.initialState)
                      else s.tables[e.tableRef];
            var index := PredictionIndex(c, h0, pc);
            var r := AfterUpdate(c, s, pc, targetPc, taken, predDst);
            r.tables[e.tableRef] == t0[index := Next(t0[index], taken)]
            && r.histories[e.historyRef] == ShiftHistory(h0, c.historySize, taken)
  {
    UpdatePoolsAreLearnedPools(c, s, pc, targetPc, taken, predDst);
  }

  /** On a hit (matching tag) nothing is reset: the counter the current
      history selects takes one step towards the outcome, every other counter
      keeps its state, and the outcome is shifted into the history. */
  lemma UpdateOnHitTrains(c: Config, s: State, pc: uint32, targetPc: uint32, taken: bool, predDst: uint32)
    requires WellFormed(c, s) && !Miss(c, s, pc)
    ensures var e := s.entries[EntryIndex(pc, |s.entries|)];
            var h := s.histories[e.historyRef];
            var index := PredictionIndex(c, h, pc);
            var r := AfterUpdate(c, s, pc, targetPc, taken, predDst);
            r.tables[e.tableRef] == s.tables[e.tableRef][index := Next(s.tables[e.tableRef][index], taken)]
            && r.histories[e.historyRef] == ShiftHistory(h, c.historySize, taken)
  {
  }

  /** On a miss a private table is relearnt from scratch and a private
      history restarts, and the resets come before the learning step: the
      table holds the initial state everywhere except the counter that the
      cleared (or shared) history selects, which has taken one step from the
      initial state, and a private history holds just this outcome. */
  lemma UpdateOnMissResets(c: Config, s: State, pc: uint32, targetPc: uint32, taken: bool, predDst: uint32)
    requires WellFormed(c, s) && Miss(c, s, pc)
    ensures var e := s.entries[EntryIndex(pc, |s.entries|)];
            var h := if c.globalHistory then s.histories[e.historyRef] else 0;
            var index := PredictionIndex(c, h, pc);
            var r := AfterUpdate(c, s, pc, targetPc, taken, predDst);
            (!c.globalTable ==>
               forall j :: 0 <= j < Pow2(c.historySize) ==>
                 r.tables[e.tableRef][j] == if j == index then Next(c.initialState, taken) else c.initialState)
            && (!c.globalHistory ==> r.histories[e.historyRef] == Outcome(taken))
  {
    var e := s.entries[EntryIndex(pc, |s.entries|)];
    var r0 := ResetOnMiss(c, s, pc);
    var l := Learn(c, r0, pc, taken);
    UpdatePoolsAreLearnedPools(c, s, pc, targetPc, taken, predDst);
    var h0 := r0.histories[e.historyRef];
    assert h0 == if c.globalHistory then s.histories[e.historyRef] else 0;
    var index := PredictionIndex(c, h0, pc);
    var t0 := r0.tables[e.tableRef];
    assert l.tables[e.tableRef] == t0[index := Next(t0[index], taken)];
    assert !c.globalTable ==> t0 == Fill(Pow2(c.historySize), c.initialState);
    if !c.globalHistory {
      ShiftFromZero(c.historySize, taken);
      assert l.histories[e.historyRef] == ShiftHistory(0, c.historySize, taken);
    }
  }

  /** After an update, the same address hits its entry: the predictor then
      answers "taken to the recorded target" exactly when the counter it now
      consults predicts taken, and "fall through" otherwise. */
  lemma UpdateThenPredictHits(c: Config, s: State, pc: uint32, targetPc: uint32, taken: bool, predDst: uint32)
    requires WellFormed(c, s)
    ensures var r := AfterUpdate(c, s, pc, targetPc, taken, predDst);
            Hit(c, r, pc)
            && PredictAnswer(c, r, pc)
               == if PredictsTaken(Counter(c, r, pc)) then (true, targetPc) else (false, FallThrough(pc))
  {
  }

  // ---------------------------------------------------------------------
  // Empty entries

  /** Reachable states keep the private pool members of a never-written
      entry as `BP_init` left them. */
  predicate Pristine(c: Config, s: State)
    requires WellFormed(c, s)
  {
    forall i :: 0 <= i < |s.entries| && s.entries[i].isEmpty ==>
      (!c.globalTable ==> s.tables[i] == Fill(Pow2(c.historySize), c.initialState))
      && (!c.globalHistory ==> s.histories[i] == 0)
  }

  lemma InitIsPristine(c: Config, btbSize: nat)
    requires ConfigOk(c, btbSize)
    ensures Pristine(c, InitState(c, btbSize))
  {
  }

  lemma UpdatePreservesPristine(c: Config, s: State, pc: uint32, targetPc: uint32, taken: bool, predDst: uint32)
    requires WellFormed(c, s) && Pristine(c, s)
    ensures Pristine(c, AfterUpdate(c, s, pc, targetPc, taken, predDst))
  {
    var r := AfterUpdate(c, s, pc, targetPc, taken, predDst);
    var i := EntryIndex(pc, |s.entries|);
    forall j | 0 <= j < |r.entries| && r.entries[j].isEmpty
      ensures !c.globalTable ==> r.tables[j] == Fill(Pow2(c.historySize), c.initialState)
      ensures !c.globalHistory ==> r.histories[j] == 0
    {
      UpdateRecordsBranch(c, s, pc, targetPc, taken, predDst);
      UpdateTouchesOnlyOwnPools(c, s, pc, targetPc, taken, predDst);
      assert j != i && s.entries[j].isEmpty;
    }
  }

  /** The miss test ignores the empty flag, yet that changes nothing: on an
      empty entry the resets of a miss leave a reachable state as it was, so
      testing `tag != pc_tag || is_empty` would give the same predictor. */
  lemma EmptyEntryResetIsNoOp(c: Config, s: State, pc: uint32)
    requires WellFormed(c, s) && Pristine(c, s)
    requires s.entries[EntryIndex(pc, |s.entries|)].isEmpty
    ensures ResetOnMiss(c, s, pc) == s
  {
    var i := EntryIndex(pc, |s.entries|);
    assert s.entries[i].tableRef == PoolSlot(c.globalTable, i);
  }

  // ---------------------------------------------------------------------
  // GetStats

  datatype Stats = Stats(size: nat, branches: nat, flushes: nat)

  /** The hardware cost in bits of `entryCount` entries, `tableCount` counter
      tables and `historyCount` history registers: per entry a valid bit, the
      tag and 30 target bits; two bits per counter; historySize bits per
      history register. */
  function StorageCost(c: Config, entryCount: nat, tableCount: nat, historyCount: nat): nat
  {
    entryCount * (ValidBit + c.tagSize + InformativePcBits)
    + 2 * tableCount * Pow2(c.historySize)
    + historyCount * c.historySize
  }

  /** The hardware cost of a predictor state. */
  function StorageBits(c: Config, s: State): nat
  {
    StorageCost(c, |s.entries|, |s.tables|, |s.histories|)
  }

  function StatsOf(c: Config, s: State): Stats
  {
    Stats(StorageBits(c, s), s.branches, s.flushes)
  }

  /** Right after `BP_init` the statistics are zero and the cost follows the
      configuration alone. */
  lemma StatsAfterInit(c: Config, btbSize: nat)
    requires ConfigOk(c, btbSize)
    ensures StatsOf(c, InitState(c, btbSize))
         == Stats(btbSize * (1 + c.tagSize + 30)
                  + 2 * PoolSize(c.globalTable, btbSize) * Pow2(c.historySize)
                  + PoolSize(c.globalHistory, btbSize) * c.historySize,
                  0, 0)
  {
  }

  /** Updates never change the cost: it depends only on the configuration
      and the table size. */
  lemma UpdateKeepsStorageBits(c: Config, s: State, pc: uint32, targetPc: uint32, taken: bool, predDst: uint32)
    requires WellFormed(c, s)
    ensures StorageBits(c, AfterUpdate(c, s, pc, targetPc, taken, predDst)) == StorageBits(c, s)
  {
  }
}
