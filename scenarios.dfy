/** Runs of the predictor: the first use of an entry, a streak of taken
    outcomes of one branch, and two branches sharing a gshare table. The
    concrete configurations below (an 8-entry table, 2-bit histories, 4-bit
    tags) show addresses that meet the lemmas' conditions: right after init,
    0x1000 selects entry 0 and matches its zero tag, and 0x1000 and 0x1008
    differ in their low share bits. */
module Scenarios {
  import opened Bits
  import opened Fsm
  import opened History
  import opened BtbSpec

  /** Private histories and private tables, no address mixing. */
  const Private := Config(2, 4, 0, WNT, false, false)

  /** One global history and one global table whose index mixes in address
      bits from bit 3 (gshare with the low share bits). */
  const SharedLow := Config(2, 4, 1, WNT, true, true)

  /** The fields of the two example addresses. */
  lemma AddressFields()
    ensures EntryIndex(0x1000, 8) == 0 && PcTag(Private, 0x1000, 8) == 0
    ensures EntryIndex(0x1008, 8) == 2
    ensures ShareBits(SharedLow, 0x1000) == 0 && ShareBits(SharedLow, 0x1008) == 2
  {
    assert Log2(8) == 3;
    assert Shr(0x1000, 2) == 0x400 && Shr(0x1008, 2) == 0x402;
    ShrAdd(0x1000, 2, 3);
    assert Shr(0x400, 3) == 0x80;
    assert LowBits(0x80, 4) == 0;
  }

  /** The first update of an entry that has never been written (every
      entry right after init, by InitIsPristine): whether or not the
      address's tag happens to equal the zero tag of the empty entry, a
      private history then holds just the outcome, and a private table holds
      the initial state everywhere except the one counter the history
      selected (slot 0 for a private history), which has taken one step
      towards the outcome. */
  lemma FirstUseOfEntry(c: Config, s: State, pc: uint32, targetPc: uint32, taken: bool, predDst: uint32)
    requires WellFormed(c, s) && Pristine(c, s)
    requires s.entries[EntryIndex(pc, |s.entries|)].isEmpty
    ensures var i := EntryIndex(pc, |s.entries|);
            var h := s.histories[s.entries[i].historyRef];
            var r := AfterUpdate(c, s, pc, targetPc, taken, predDst);
            (!c.globalHistory ==> h == 0 && r.histories[i] == Outcome(taken))
            && (!c.globalTable ==>
                  r.tables[i] == Fill(Pow2(c.historySize), c.initialState)[PredictionIndex(c, h, pc) := Next(c.initialState, taken)])
  {
    var i := EntryIndex(pc, |s.entries|);
    EmptyEntryResetIsNoOp(c, s, pc);
    UpdatePoolsAreLearnedPools(c, s, pc, targetPc, taken, predDst);
    var l := Learn(c, s, pc, taken);
    if !c.globalHistory {
      assert s.histories[i] == 0;
      ShiftFromZero(c.historySize, taken);
    }
    if !c.globalTable {
      var index := PredictionIndex(c, s.histories[s.entries[i].historyRef], pc);
      assert l.tables[i] == s.tables[i][index := Next(s.tables[i][index], taken)];
    }
  }

  /** What one taken update that hits does to a private 2-bit history h and
      a private table, relating the state before (s) and after (r): the entry
      still matches, now written and holding the target; the counter in slot
      h steps towards taken and no other slot changes; the history becomes
      `next`; and the prediction for the address then reads slot `next`. */
  predicate TakenHit(c: Config, s: State, r: State, pc: uint32, targetPc: uint32, h: nat, next: nat)
  {
    WellFormed(c, s) && WellFormed(c, r) && c.historySize == 2 && !c.globalHistory && !c.globalTable
    && !Miss(c, s, pc) && !Miss(c, r, pc) && |r.entries| == |s.entries| && next < 4
    && var i := EntryIndex(pc, |s.entries|);
       var e := s.entries[i];
       r.entries[i] == e.(isEmpty := false, tag := PcTag(c, pc, |s.entries|), target := targetPc)
       && s.histories[e.historyRef] == h && r.histories[e.historyRef] == next
       && r.tables[e.tableRef][h] == Next(s.tables[e.tableRef][h], true)
       && (forall j :: 0 <= j < 4 && j != h ==> r.tables[e.tableRef][j] == s.tables[e.tableRef][j])
       && PredictAnswer(c, r, pc)
          == if PredictsTaken(r.tables[e.tableRef][next]) then (true, targetPc) else (false, FallThrough(pc))
  }

  /** A taken update that hits, on a private 2-bit history and a private
      table, is a TakenHit step from the history h to (2h + 1) mod 4. */
  lemma TakenStep(c: Config, s: State, pc: uint32, targetPc: uint32, predDst: uint32, h: nat)
    requires WellFormed(c, s) && c.historySize == 2
    requires !c.globalHistory && !c.globalTable && !Miss(c, s, pc)
    requires s.histories[s.entries[EntryIndex(pc, |s.entries|)].historyRef] == h
    ensures TakenHit(c, s, AfterUpdate(c, s, pc, targetPc, true, predDst), pc, targetPc, h, (2 * h + 1) % 4)
  {
    var r := AfterUpdate(c, s, pc, targetPc, true, predDst);
    var i := EntryIndex(pc, |s.entries|);
    var e := s.entries[i];
    UpdateOnHitTrains(c, s, pc, targetPc, true, predDst);
    UpdateRecordsBranch(c, s, pc, targetPc, true, predDst);
    ShiftHistoryIsModular(h, 2, true);
    assert r.histories[e.historyRef] == (2 * h + 1) % 4;
    UpdateThenPredictHits(c, s, pc, targetPc, true, predDst);
    assert Counter(c, r, pc) == r.tables[e.tableRef][(2 * h + 1) % 4];
  }

  /** A taken branch resolved again and again, starting from a cleared
      history and a matching tag (as for 0x1000 right after init) with a
      weakly-not-taken (WNT) counter in slot 3, as init leaves it when the
      initial state is WNT. By TakenStep each update is a TakenHit
      step, and the history register moves on at each one, so each update
      trains a different counter (slot 0, then 1, then 3): after two updates
      the history selects slot 3, still WNT, and the prediction falls
      through; only after the third update, which moves slot 3 to WT, is the
      branch predicted taken. (From SNT in slot 3 the third update would only
      reach WNT.) */
  lemma TakenStreak(c: Config, s0: State, s1: State, s2: State, s3: State, pc: uint32, targetPc: uint32)
    requires TakenHit(c, s0, s1, pc, targetPc, 0, 1)
    requires TakenHit(c, s1, s2, pc, targetPc, 1, 3)
    requires TakenHit(c, s2, s3, pc, targetPc, 3, 3)
    requires s0.tables[s0.entries[EntryIndex(pc, |s0.entries|)].tableRef][3] == WNT
    ensures PredictAnswer(c, s2, pc) == (false, FallThrough(pc))
    ensures PredictAnswer(c, s3, pc) == (true, targetPc)
  {
    var i := EntryIndex(pc, |s0.entries|);
    var e := s0.entries[i];
    assert s1.entries[i].tableRef == e.tableRef && s1.tables[e.tableRef][3] == WNT;
    assert s2.entries[i].tableRef == e.tableRef && s2.tables[e.tableRef][3] == WNT;
    assert s3.tables[e.tableRef][3] == WT;
  }

  /** The same streak as three calls of the update itself: from a cleared
      private 2-bit history, a matching tag and a weakly-not-taken (WNT)
      counter in slot 3, the states s1, s2 and s3 that three taken updates produce predict
      the branch not taken after two updates and taken to its target after
      the third. */
  lemma TakenStreakOfUpdates(c: Config, s0: State, s1: State, s2: State, s3: State,
                             pc: uint32, targetPc: uint32, predDst: uint32)
    requires WellFormed(c, s0) && c.historySize == 2
    requires !c.globalHistory && !c.globalTable && !Miss(c, s0, pc)
    requires s0.histories[s0.entries[EntryIndex(pc, |s0.entries|)].historyRef] == 0
    requires s0.tables[s0.entries[EntryIndex(pc, |s0.entries|)].tableRef][3] == WNT
    requires s1 == AfterUpdate(c, s0, pc, targetPc, true, predDst)
    requires s2 == AfterUpdate(c, s1, pc, targetPc, true, predDst)
    requires s3 == AfterUpdate(c, s2, pc, targetPc, true, predDst)
    ensures PredictAnswer(c, s2, pc) == (false, FallThrough(pc))
    ensures PredictAnswer(c, s3, pc) == (true, targetPc)
  {
    FirstTwoTakenUpdates(c, s0, s1, s2, pc, targetPc, predDst);
    TakenHitHits(c, s1, s2, pc, targetPc, 1, 3);
    TakenStep(c, s2, pc, targetPc, predDst, 3);
    TakenStreak(c, s0, s1, s2, s3, pc, targetPc);
  }

  /** The first two updates of the streak are TakenHit steps, from history
      0 to 1 and from 1 to 3. */
  lemma FirstTwoTakenUpdates(c: Config, s0: State, s1: State, s2: State,
                             pc: uint32, targetPc: uint32, predDst: uint32)
    requires WellFormed(c, s0) && c.historySize == 2
    requires !c.globalHistory && !c.globalTable && !Miss(c, s0, pc)
    requires s0.histories[s0.entries[EntryIndex(pc, |s0.entries|)].historyRef] == 0
    requires s1 == AfterUpdate(c, s0, pc, targetPc, true, predDst)
    requires s2 == AfterUpdate(c, s1, pc, targetPc, true, predDst)
    ensures TakenHit(c, s0, s1, pc, targetPc, 0, 1)
    ensures TakenHit(c, s1, s2, pc, targetPc, 1, 3)
  {
    TakenStep(c, s0, pc, targetPc, predDst, 0);
    TakenHitHits(c, s0, s1, pc, targetPc, 0, 1);
    TakenStep(c, s1, pc, targetPc, predDst, 1);
  }

  /** After a TakenHit step the next update of the address hits again, with
      the history the step left behind. */
  lemma TakenHitHits(c: Config, s: State, r: State, pc: uint32, targetPc: uint32, h: nat, next: nat)
    requires TakenHit(c, s, r, pc, targetPc, h, next)
    ensures WellFormed(c, r) && !Miss(c, r, pc)
    ensures r.histories[r.entries[EntryIndex(pc, |r.entries|)].historyRef] == next
  {
  }

  /** gshare: with one global history and one global table mixed with
      address bits, two branches whose share bits differ use different
      counters for the same history, so training one leaves the counter the
      other would consult untouched. */
  lemma SharedTableKeepsBranchesApart(c: Config, s: State, pc1: uint32, pc2: uint32,
                                      targetPc: uint32, taken: bool, predDst: uint32)
    requires WellFormed(c, s) && c.globalHistory && c.globalTable && c.shared != 0
    requires ShareBits(c, pc1) != ShareBits(c, pc2)
    ensures var r := AfterUpdate(c, s, pc1, targetPc, taken, predDst);
            var index2 := PredictionIndex(c, s.histories[0], pc2);
            r.tables[0][index2] == s.tables[0][index2]
  {
    var i := EntryIndex(pc1, |s.entries|);
    assert s.entries[i].historyRef == 0 && s.entries[i].tableRef == 0;
    var index1 := PredictionIndex(c, s.histories[0], pc1);
    SharedIndexSeparatesAddresses(c, s.histories[0], pc1, pc2);
    var f := CountFlush(s, pc1, targetPc, taken, predDst);
    assert ResetOnMiss(c, f, pc1) == f;
    var l := Learn(c, f, pc1, taken);
    assert l.tables[0] == s.tables[0][index1 := Next(s.tables[0][index1], taken)];
    var r := Record(c, l, pc1, targetPc);
    assert r.tables == l.tables;
    assert AfterUpdate(c, s, pc1, targetPc, taken, predDst) == r;
  }
}
