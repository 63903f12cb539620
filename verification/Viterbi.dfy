/** Hard-decision Viterbi decoding over the full 7-bit register, src/fec_decoder.cpp steps 3 and 4,
    and its brute-force specification: no input sequence is closer to the received word. */
module Viterbi {
  import opened ConvCode

  /** A received position: a hard decision, or nothing known (ERASURE). */
  datatype Symbol = Known(bit: bool) | ERASURE

  const INF_METRIC := 0xFFFFFF

  function BranchMetric(rx: Symbol, out: bool): nat {
    if rx.Known? && rx.bit != out then 1 else 0
  }

  /** Disagreement of trellis step `k` with a transition into `reg`. */
  function Cost(rx: seq<Symbol>, k: nat, reg: Reg): (c: nat)
    requires 2 * k + 2 <= |rx|
    ensures c <= 2
  {
    BranchMetric(rx[2 * k], Out0(reg)) + BranchMetric(rx[2 * k + 1], Out1(reg))
  }

  /** Hamming distance, on the positions that are not erased, between the received word and
      what the encoder sends for `bits`. */
  function Dist(rx: seq<Symbol>, bits: seq<bool>): (d: nat)
    requires 2 * |bits| <= |rx|
    ensures d <= 2 * |bits|
  {
    if |bits| == 0 then 0
    else Dist(rx, bits[..|bits| - 1]) + Cost(rx, |bits| - 1, Run(bits))
  }

  /** The specification: `best` explains the whole received word with as few disagreements as
      any input sequence of the same length does. */
  ghost predicate MaximumLikelihood(rx: seq<Symbol>, best: seq<bool>) {
    && 2 * |best| == |rx|
    && forall bits: seq<bool> :: |bits| == |best| ==> Dist(rx, best) <= Dist(rx, bits)
  }

  function Index(r: Reg): (i: nat)
    ensures i < NUM_REGS
  {
    r as int
  }

  /** The register of an index, counting up from register 0. */
  function RegAt(i: nat): (r: Reg)
    requires i < NUM_REGS
    ensures Index(r) == i
  {
    if i == 0 then 0
    else
      var before := RegAt(i - 1);
      NextReg(before);
      before + 1
  }

  lemma NextReg(r: Reg)
    requires Index(r) < 127
    ensures r < 127 && r + 1 < 128 && (r + 1) as int == r as int + 1
  {
    BelowLast(r);
  }

  lemma BelowLast(r: bv8)
    requires r as int < 127
    ensures r < 127
  {
  }

  lemma IndexInjective(r: Reg, s: Reg)
    requires Index(r) == Index(s)
    ensures r == s
  {
  }

  /** The newest input bit of a register. */
  predicate TopBit(r: Reg) {
    (r >> 6) & 1 == 1
  }

  lemma TopBitOfShift(r: Reg, b: bool)
    ensures TopBit(Shift(r, b)) == b
  {
  }

  /** The input sequence the survivor table records for register `r` after `k` steps. */
  function Trace(survivor: seq<Reg>, k: nat, r: Reg): (bits: seq<bool>)
    requires k * NUM_REGS <= |survivor|
    ensures |bits| == k
  {
    if k == 0 then []
    else Trace(survivor, k - 1, survivor[(k - 1) * NUM_REGS + Index(r)]) + [TopBit(r)]
  }

  lemma {:induction false} TracePrefix(survivor: seq<Reg>, longer: seq<Reg>, k: nat, r: Reg)
    requires k * NUM_REGS <= |survivor| <= |longer|
    requires forall i :: 0 <= i < k * NUM_REGS ==> survivor[i] == longer[i]
    ensures Trace(survivor, k, r) == Trace(longer, k, r)
  {
    if k > 0 {
      TracePrefix(survivor, longer, k - 1, survivor[(k - 1) * NUM_REGS + Index(r)]);
    }
  }

  /** What the path metrics mean after `k` steps: the metric of a register is the least distance
      of any `k`-bit input ending there, attained by the recorded survivor path, and it is
      INF_METRIC exactly when no input ends there. */
  ghost predicate Optimal(rx: seq<Symbol>, k: nat, metric: seq<nat>, survivor: seq<Reg>)
    requires 2 * k <= |rx| && |metric| == NUM_REGS && k * NUM_REGS <= |survivor|
  {
    && (forall r: Reg :: metric[Index(r)] <= INF_METRIC)
    && (forall r: Reg :: metric[Index(r)] < INF_METRIC ==> Attained(rx, k, metric, survivor, r))
    && (forall bits: seq<bool> :: |bits| == k ==> metric[Index(Run(bits))] <= Dist(rx, bits))
  }

  ghost predicate Attained(rx: seq<Symbol>, k: nat, metric: seq<nat>, survivor: seq<Reg>, r: Reg)
    requires 2 * k <= |rx| && |metric| == NUM_REGS && k * NUM_REGS <= |survivor|
  {
    var path := Trace(survivor, k, r);
    Run(path) == r && Dist(rx, path) == metric[Index(r)]
  }

  /** Reading Optimal as the brute-force minimum: each metric is the minimum over all inputs
      that end in its register, and INF_METRIC marks exactly the unreachable registers. */
  lemma MetricIsBruteForceMinimum(rx: seq<Symbol>, k: nat, metric: seq<nat>, survivor: seq<Reg>, r: Reg)
    requires 2 * k <= |rx| && |metric| == NUM_REGS && k * NUM_REGS <= |survivor|
    requires 2 * k < INF_METRIC && Optimal(rx, k, metric, survivor)
    ensures forall bits: seq<bool> :: |bits| == k && Run(bits) == r ==> metric[Index(r)] <= Dist(rx, bits)
    ensures metric[Index(r)] != INF_METRIC
            <==> exists bits: seq<bool> :: |bits| == k && Run(bits) == r
    ensures metric[Index(r)] != INF_METRIC
            ==> exists bits: seq<bool> :: |bits| == k && Run(bits) == r && Dist(rx, bits) == metric[Index(r)]
  {
    if metric[Index(r)] != INF_METRIC {
      assert Attained(rx, k, metric, survivor, r);
    }
  }

  /** One step of the recurrence: what the two inner loops establish between consecutive rows. */
  ghost predicate Relaxed(rx: seq<Symbol>, k: nat, prev: seq<nat>, curr: seq<nat>, survivor: seq<Reg>)
    requires 2 * k + 2 <= |rx| && |prev| == |curr| == NUM_REGS && (k + 1) * NUM_REGS <= |survivor|
  {
    && (forall r: Reg :: curr[Index(r)] <= INF_METRIC)
    && (forall s: Reg, b: bool :: prev[Index(s)] < INF_METRIC ==> RelaxedEdge(rx, k, prev, curr, s, b))
    && (forall r: Reg :: curr[Index(r)] < INF_METRIC ==> Supported(rx, k, prev, curr, survivor, r))
  }

  ghost predicate RelaxedEdge(rx: seq<Symbol>, k: nat, prev: seq<nat>, curr: seq<nat>, s: Reg, b: bool)
    requires 2 * k + 2 <= |rx| && |prev| == |curr| == NUM_REGS
  {
    curr[Index(Shift(s, b))] <= prev[Index(s)] + Cost(rx, k, Shift(s, b))
  }

  ghost predicate Supported(rx: seq<Symbol>, k: nat, prev: seq<nat>, curr: seq<nat>, survivor: seq<Reg>, r: Reg)
    requires 2 * k + 2 <= |rx| && |prev| == |curr| == NUM_REGS && (k + 1) * NUM_REGS <= |survivor|
  {
    var p := survivor[k * NUM_REGS + Index(r)];
    && prev[Index(p)] < INF_METRIC
    && Shift(p, TopBit(r)) == r
    && curr[Index(r)] == prev[Index(p)] + Cost(rx, k, r)
  }

  /** The transition out of `r` with input `c` comes before transition `b` of register `s`. */
  predicate Offered(r: Reg, c: bool, s: nat, b: nat) {
    Index(r) < s || (Index(r) == s && (if c then 1 else 0) < b)
  }

  lemma StepAttains(rx: seq<Symbol>, k: nat, prev: seq<nat>, curr: seq<nat>, survivor: seq<Reg>, r: Reg)
    requires 2 * k + 2 <= |rx| && |prev| == |curr| == NUM_REGS && (k + 1) * NUM_REGS <= |survivor|
    requires 2 * k + 2 < INF_METRIC
    requires Optimal(rx, k, prev, survivor) && Relaxed(rx, k, prev, curr, survivor) && curr[Index(r)] < INF_METRIC
    ensures Attained(rx, k + 1, curr, survivor, r)
  {
    hide Shift, Out0, Out1, TopBit, Index, RegAt, RelaxedEdge;
    assert Supported(rx, k, prev, curr, survivor, r);
    var p := survivor[k * NUM_REGS + Index(r)];
    assert Attained(rx, k, prev, survivor, p);
    var path := Trace(survivor, k + 1, r);
    assert path[..k] == Trace(survivor, k, p);
  }

  /** Dynamic programming: relaxing an optimal row gives the optimal next row. */
  lemma StepKeepsOptimal(rx: seq<Symbol>, k: nat, prev: seq<nat>, curr: seq<nat>, survivor: seq<Reg>)
    requires 2 * k + 2 <= |rx| && |prev| == |curr| == NUM_REGS && (k + 1) * NUM_REGS <= |survivor|
    requires 2 * k + 2 < INF_METRIC
    requires Optimal(rx, k, prev, survivor) && Relaxed(rx, k, prev, curr, survivor)
    ensures Optimal(rx, k + 1, curr, survivor)
  {
    hide Shift, Out0, Out1, TopBit, Index, RegAt, Supported, Attained, Trace;
    forall r: Reg | curr[Index(r)] < INF_METRIC ensures Attained(rx, k + 1, curr, survivor, r) {
      StepAttains(rx, k, prev, curr, survivor, r);
    }
    forall bits: seq<bool> | |bits| == k + 1
      ensures curr[Index(Run(bits))] <= Dist(rx, bits)
    {
      var s := Run(bits[..k]);
      assert prev[Index(s)] <= Dist(rx, bits[..k]);
      assert RelaxedEdge(rx, k, prev, curr, s, bits[k]);
    }
  }

  datatype Transition = Transition(nextState: Reg, out0: bool, out1: bool)

  ghost predicate IsTransitionTable(trans: array2<Transition>)
    reads trans
  {
    && trans.Length0 == NUM_REGS && trans.Length1 == 2
    && forall s, b :: 0 <= s < NUM_REGS && 0 <= b < 2 ==> trans[s, b] == TransitionOf(s, b)
  }

  method MakeTransitions() returns (trans: array2<Transition>)
    ensures fresh(trans) && IsTransitionTable(trans)
  {
    trans := new Transition[NUM_REGS, 2]((s, b) => Transition(0, false, false));
    for s := 0 to NUM_REGS
      invariant forall i, b :: 0 <= i < s && 0 <= b < 2 ==> trans[i, b] == TransitionOf(i, b)
    {
      for b := 0 to 2
        invariant forall i, c :: 0 <= i < s && 0 <= c < 2 ==> trans[i, c] == TransitionOf(i, c)
        invariant forall c :: 0 <= c < b ==> trans[s, c] == TransitionOf(s, c)
      {
        var newReg := Shift(RegAt(s), b == 1);
        trans[s, b] := Transition(newReg, Parity(newReg, GEN_0), Parity(newReg, GEN_1));
      }
    }
  }

  function TransitionOf(s: nat, b: nat): Transition
    requires s < NUM_REGS && b < 2
  {
    var newReg := Shift(RegAt(s), b == 1);
    Transition(newReg, Out0(newReg), Out1(newReg))
  }
}
