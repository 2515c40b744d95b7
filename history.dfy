/** The branch history shift register. */
module History {
  import opened Bits

  /** The bit a resolved branch shifts into a history register. */
  function Outcome(taken: bool): nat
  {
    if taken then 1 else 0
  }

  /** The update of a history register of `historySize` bits: keep its low
      historySize - 1 bits, double them, and add the outcome. The result is
      the register shifted left by one with the outcome in its lowest bit,
      truncated to historySize bits, and it remembers the older outcomes
      above that bit. */
  function ShiftHistory(h: nat, historySize: nat, taken: bool): (r: nat)
    requires 1 <= historySize
    ensures r == LowBits(2 * h + Outcome(taken), historySize)
    ensures r < Pow2(historySize)
    ensures r % 2 == Outcome(taken)
    ensures r / 2 == LowBits(h, historySize - 1)
  {
    var low := BitExtracted(h, historySize - 1, 1);
    assert low == LowBits(h, historySize - 1);
    assert (2 * h + Outcome(taken)) / 2 == h && (2 * h + Outcome(taken)) % 2 == Outcome(taken);
    assert LowBits(2 * h + Outcome(taken), historySize) == 2 * low + Outcome(taken);
    2 * low + Outcome(taken)
  }

  /** Equivalently, the new value is ((old << 1) mod 2^historySize) | outcome:
      the shift followed by a reduction modulo the register's range. */
  lemma ShiftHistoryIsModular(h: nat, historySize: nat, taken: bool)
    requires 1 <= historySize
    ensures ShiftHistory(h, historySize, taken) == (2 * h + Outcome(taken)) % Pow2(historySize)
  {
    LowBitsIsMod(2 * h + Outcome(taken), historySize);
  }

  /** Shifting an all-zero register records just the last outcome. */
  lemma ShiftFromZero(historySize: nat, taken: bool)
    requires 1 <= historySize
    ensures ShiftHistory(0, historySize, taken) == Outcome(taken)
  {
    LowBitsOfSmall(0, historySize - 1);
  }

  /** The register is a window of the last historySize outcomes: after two
      shifts, the second lowest bit holds the older outcome and the lowest bit
      the newer one, as long as the register is wide enough to hold both. */
  lemma {:induction false} ShiftTwice(h: nat, historySize: nat, first: bool, second: bool)
    requires 2 <= historySize
    ensures var r := ShiftHistory(ShiftHistory(h, historySize, first), historySize, second);
            r % 2 == Outcome(second) && (r / 2) % 2 == Outcome(first)
  {
    var h1 := ShiftHistory(h, historySize, first);
    var r := ShiftHistory(h1, historySize, second);
    assert r / 2 == LowBits(h1, historySize - 1);
    LowestBitKept(h1, historySize - 1);
  }
}
