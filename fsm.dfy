/** The four-state saturating counter (`enum prediction` in bp.cpp). */
module Fsm {

  /** Strongly not taken < weakly not taken < weakly taken < strongly taken. */
  datatype Prediction = SNT | WNT | WT | ST

  /** The enumerator's numeric value, 0 to 3. */
  function Rank(p: Prediction): (r: nat)
    ensures r < 4
  {
    match p
    case SNT => 0
    case WNT => 1
    case WT => 2
    case ST => 3
  }

  /** The cast `prediction(fsmState)` of a configuration value that is one of
      the four enumerators. */
  function FromCode(code: nat): (p: Prediction)
    requires code < 4
    ensures Rank(p) == code
  {
    if code == 0 then SNT else if code == 1 then WNT else if code == 2 then WT else ST
  }

  /** A counter predicts "taken" unless it is WNT or SNT. */
  predicate PredictsTaken(p: Prediction)
  {
    !(p == WNT || p == SNT)
  }

  /** The transition of one resolved branch, as the update step writes it:
      a taken outcome steps towards ST unless already there, a not-taken
      outcome steps towards SNT unless already there. */
  function Next(p: Prediction, taken: bool): (r: Prediction)
    ensures taken ==> Rank(r) == if Rank(p) == 3 then 3 else Rank(p) + 1
    ensures !taken ==> Rank(r) == if Rank(p) == 0 then 0 else Rank(p) - 1
  {
    if taken && p != ST then
      (if p == SNT then WNT else if p == WNT then WT else ST)
    else if !taken && p != SNT then
      (if p == ST then WT else if p == WT then WNT else SNT)
    else p
  }

  /** The cast and the numeric value are inverse: every enumerator is the
      cast of its own value, so a configuration code names exactly one
      counter state. */
  lemma FromCodeOfRank(p: Prediction)
    ensures FromCode(Rank(p)) == p
  {
  }

  /** The direction a counter predicts is its upper half in the order. */
  lemma PredictsTakenIsUpperHalf(p: Prediction)
    ensures PredictsTaken(p) <==> Rank(p) >= 2
  {
  }

  /** Hysteresis: one outcome flips the predicted direction only from a weak
      state, and then only when it disagrees with that direction. */
  lemma FlipOnlyFromWeak(p: Prediction, taken: bool)
    requires PredictsTaken(Next(p, taken)) != PredictsTaken(p)
    ensures p == WNT || p == WT
    ensures PredictsTaken(Next(p, taken)) == taken
  {
  }

  /** Two equal outcomes in a row always make the counter predict that
      outcome. */
  lemma TwoOutcomesDecide(p: Prediction, taken: bool)
    ensures PredictsTaken(Next(Next(p, taken), taken)) == taken
  {
  }
}
