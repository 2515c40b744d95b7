/** The predictor as the source builds it: a table of entries, a pool of
    history registers and a pool of separately allocated counter tables, with
    entries referring to pool members by index; `BP_init`, `BP_predict`,
    `BP_update` and `BP_GetStats` as the constructor and methods of one
    object. Each method is proved to move the object's abstract state exactly
    as the corresponding function of BtbSpec does. */
module Predictor {
  import opened Bits
  import opened Fsm
  import opened History
  import opened BtbSpec

  /** Sets every counter of a table to one state, in place (the loops that
      initialise a table and that relearn a private table after a miss). */
  method FillTable(table: array<Prediction>, state: Prediction)
    modifies table
    ensures table[..] == Fill(table.Length, state)
  {
    var j := 0;
    while j < table.Length
      invariant 0 <= j <= table.Length
      invariant forall k :: 0 <= k < j ==> table[k] == state
    {
      table[j] := state;
      j := j + 1;
    }
  }

  /** The history pool of `BP_init`: `count` registers, all zero. */
  method NewHistories(count: nat) returns (hist: array<nat>)
    ensures fresh(hist)
    ensures hist[..] == seq(count, _ => 0)
  {
    hist := new nat[count];
    var i := 0;
    while i < count
      invariant 0 <= i <= count
      invariant forall k :: 0 <= k < i ==> hist[k] == 0
    {
      hist[i] := 0;
      i := i + 1;
    }
  }

  /** The table pool of `BP_init`: `count` distinct, newly allocated tables
      of `size` counters, each holding `state`; `contents` records them. */
  method NewTables(count: nat, size: nat, state: Prediction)
      returns (tables: seq<array<Prediction>>, ghost contents: seq<seq<Prediction>>)
    ensures |tables| == count == |contents|
    ensures forall t :: 0 <= t < count ==> fresh(tables[t])
    ensures forall t, u :: 0 <= t < count && 0 <= u < count && t != u ==> tables[t] != tables[u]
    ensures forall t :: 0 <= t < count ==> tables[t][..] == contents[t]
    ensures contents == seq(count, _ => Fill(size, state))
  {
    tables, contents := [], [];
    var i := 0;
    while i < count
      invariant 0 <= i <= count
      invariant |tables| == i == |contents|
      invariant forall t :: 0 <= t < i ==> fresh(tables[t])
      invariant forall t :: 0 <= t < i ==> tables[t][..] == contents[t] == Fill(size, state)
      invariant forall t, u :: 0 <= t < i && 0 <= u < i && t != u ==> tables[t] != tables[u]
    {
      var table := new Prediction[size];
      FillTable(table, state);
      tables := tables + [table];
      contents := contents + [table[..]];
      i := i + 1;
    }
  }

  /** The entries `BP_init` appends, one per slot: empty, tag and target
      zero, wired to the pool members the configuration gives slot i. */
  method InitialEntries(c: Config, btbSize: nat) returns (es: seq<Entry>)
    ensures |es| == btbSize
    ensures forall i :: 0 <= i < btbSize ==> es[i] == InitEntry(c, i)
  {
    es := [];
    var i := 0;
    while i < btbSize
      invariant 0 <= i <= btbSize && |es| == i
      invariant forall k :: 0 <= k < i ==> es[k] == InitEntry(c, k)
    {
      es := es + [Entry(PoolSlot(c.globalHistory, i), PoolSlot(c.globalTable, i), true, 0, 0)];
      i := i + 1;
    }
  }

  class Btb {
    const config: Config
    var entries: seq<Entry>
    var histories: array<nat>
    var fsmTables: seq<array<Prediction>>
    var numberOfBranches: nat
    var numberOfFlushes: nat

    /** The contents of the counter tables, table by table. */
    ghost var Tables: seq<seq<Prediction>>

    ghost function Abstract(): State
      reads this, histories
    {
      State(entries, histories[..], Tables, numberOfBranches, numberOfFlushes)
    }

    /** The tables are distinct arrays whose contents `Tables` records, and
        the abstract state satisfies the predictor's invariant. */
    ghost predicate Valid()
      reads this, histories, fsmTables
    {
      |Tables| == |fsmTables|
      && (forall t :: 0 <= t < |fsmTables| ==> fsmTables[t][..] == Tables[t])
      && (forall t, u :: 0 <= t < |fsmTables| && 0 <= u < |fsmTables| && t != u ==> fsmTables[t] != fsmTables[u])
      && WellFormed(config, Abstract())
    }

    /** `BP_init` on a fresh predictor. The initial state code must name one
        of the four counter states. */
    constructor (btbSize: nat, historySize: nat, tagSize: nat, fsmState: nat,
                 isGlobalHist: bool, isGlobalTable: bool, shared: int)
      requires fsmState < 4
      requires ConfigOk(Config(historySize, tagSize, shared, FromCode(fsmState), isGlobalHist, isGlobalTable), btbSize)
      ensures config == Config(historySize, tagSize, shared, FromCode(fsmState), isGlobalHist, isGlobalTable)
      ensures Valid()
      ensures Abstract() == InitState(config, btbSize)
      ensures fresh(histories) && forall t :: 0 <= t < |fsmTables| ==> fresh(fsmTables[t])
    {
      var c := Config(historySize, tagSize, shared, FromCode(fsmState), isGlobalHist, isGlobalTable);
      var hist := NewHistories(PoolSize(isGlobalHist, btbSize));
      var tables, contents := NewTables(PoolSize(isGlobalTable, btbSize), Pow2(historySize), c.initialState);
      var es := InitialEntries(c, btbSize);
      config := c;
      entries := es;
      histories := hist;
      fsmTables := tables;
      Tables := contents;
      numberOfBranches := 0;
      numberOfFlushes := 0;
    }

    /** `BP_predict`: counts the branch and answers from the selected entry
        and the counter its history selects; nothing else changes. */
    method Predict(pc: uint32) returns (taken: bool, dst: uint32)
      requires Valid()
      modifies this`numberOfBranches
      ensures Valid()
      ensures (taken, dst) == PredictAnswer(config, old(Abstract()), pc)
      ensures Abstract() == old(Abstract()).(branches := old(numberOfBranches) + 1)
    {
      numberOfBranches := numberOfBranches + 1;
      var entryNum := EntryIndex(pc, |entries|);
      var pcTag := PcTag(config, pc, |entries|);
      var entry := entries[entryNum];
      if entry.isEmpty || entry.tag != pcTag {
        return false, FallThrough(pc);
      }
      var index := PredictionIndex(config, histories[entry.historyRef], pc);
      var state := fsmTables[entry.tableRef][index];
      if state == WNT || state == SNT {
        return false, FallThrough(pc);
      }
      return true, entry.target;
    }

    /** `BP_update`: counts a flush on a misprediction, resets the selected
        entry's private table and history on a tag miss, steps the counter
        and shifts the history, and records tag and target in the entry. */
    method Update(pc: uint32, targetPc: uint32, taken: bool, predDst: uint32)
      requires Valid()
      modifies this`numberOfFlushes, this`entries, this`Tables, histories, fsmTables
      ensures Valid()
      ensures Abstract() == AfterUpdate(config, old(Abstract()), pc, targetPc, taken, predDst)
    {
      CountFlush(pc, targetPc, taken, predDst);
      ResetSelected(pc);
      TrainSelected(pc, taken);
      RecordSelected(pc, targetPc);
    }

    /** The first step of `BP_update`: the predicted destination is
        compared with the resolved one, and a mismatch counts a flush. */
    method CountFlush(pc: uint32, targetPc: uint32, taken: bool, predDst: uint32)
      requires Valid()
      modifies this`numberOfFlushes
      ensures Valid()
      ensures Abstract() == BtbSpec.CountFlush(old(Abstract()), pc, targetPc, taken, predDst)
    {
      if (!taken && predDst != FallThrough(pc)) || (taken && predDst != targetPc) {
        numberOfFlushes := numberOfFlushes + 1;
      }
    }

    /** The reset half of `BP_update`: on a tag miss, the selected entry's
        table is refilled with the initial state unless tables are shared,
        and its history is cleared unless the history is shared. */
    method ResetSelected(pc: uint32)
      requires Valid()
      modifies this`Tables, histories, fsmTables
      ensures Valid()
      ensures Abstract() == ResetOnMiss(config, old(Abstract()), pc)
    {
      ghost var r := ResetOnMiss(config, Abstract(), pc);
      var entry := entries[EntryIndex(pc, |entries|)];
      var miss := entry.tag != PcTag(config, pc, |entries|);
      if miss && !config.globalTable {
        var table := fsmTables[entry.tableRef];
        FillTable(table, config.initialState);
        Tables := Tables[entry.tableRef := table[..]];
      }
      if miss && !config.globalHistory {
        histories[entry.historyRef] := 0;
      }
      assert histories[..] == r.histories && Tables == r.tables;
      assert Abstract() == r;
    }

    /** The learning half of `BP_update`: the counter selected by the entry's
        history steps towards the outcome, and the outcome is shifted into
        the history. */
    method TrainSelected(pc: uint32, taken: bool)
      requires Valid()
      modifies this`Tables, histories, fsmTables
      ensures Valid()
      ensures Abstract() == Learn(config, old(Abstract()), pc, taken)
    {
      ghost var r := Learn(config, Abstract(), pc, taken);
      var entry := entries[EntryIndex(pc, |entries|)];
      var table := fsmTables[entry.tableRef];
      var history := histories[entry.historyRef];
      var index := PredictionIndex(config, history, pc);
      table[index] := Next(table[index], taken);
      Tables := Tables[entry.tableRef := table[..]];
      histories[entry.historyRef] := ShiftHistory(history, config.historySize, taken);
      assert histories[..] == r.histories && Tables == r.tables;
      assert Abstract() == r;
    }

    /** The last step of `BP_update`: the selected entry is marked written
        and takes the branch's tag and target. */
    method RecordSelected(pc: uint32, targetPc: uint32)
      requires Valid()
      modifies this`entries
      ensures Valid()
      ensures Abstract() == Record(config, old(Abstract()), pc, targetPc)
    {
      ghost var r := Record(config, Abstract(), pc, targetPc);
      var entryNum := EntryIndex(pc, |entries|);
      entries := entries[entryNum := entries[entryNum].(target := targetPc, tag := PcTag(config, pc, |entries|), isEmpty := false)];
      assert Abstract() == r;
    }

    /** `BP_GetStats`: the storage cost of the configuration and the two
        counters. */
    method GetStats() returns (stats: Stats)
      requires Valid()
      ensures stats == StatsOf(config, Abstract())
    {
      var entryCount, tableCount, historyCount := |entries|, |fsmTables|, histories.Length;
      assert entryCount == |Abstract().entries| && tableCount == |Abstract().tables| && historyCount == |Abstract().histories|;
      stats := Stats(StorageCost(config, entryCount, tableCount, historyCount), numberOfBranches, numberOfFlushes);
    }
  }
}
