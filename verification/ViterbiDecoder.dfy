/** The Viterbi search itself: in-place metric rows and survivor table, then traceback. */
module ViterbiDecoder {
  import opened ConvCode
  import opened Viterbi
  import opened ViterbiTies

  /** The two inner loops: offer every transition out of every reachable register. On a tie the
      predecessor offered first, the lowest one, stays. */
  method RelaxRow(rx: seq<Symbol>, step: nat, trans: array2<Transition>,
                  prev: array<nat>, curr: array<nat>, survivor: array<Reg>)
    requires 2 * step + 2 <= |rx|
    requires IsTransitionTable(trans)
    requires prev.Length == curr.Length == NUM_REGS && (step + 1) * NUM_REGS <= survivor.Length
    requires prev != curr
    requires forall r :: 0 <= r < NUM_REGS ==> curr[r] == INF_METRIC
    modifies curr, survivor
    ensures Relaxed(rx, step, prev[..], curr[..], survivor[..])
    ensures FirstAmong(rx, step, prev[..], curr[..], survivor[..], NUM_REGS, 0)
    ensures forall i :: 0 <= i < survivor.Length && !(step * NUM_REGS <= i < (step + 1) * NUM_REGS)
                        ==> survivor[i] == old(survivor[i])
  {
    hide RelaxedEdge, Supported, TransitionOf, Index;
    assert PartlyRelaxed(rx, step, prev[..], curr[..], survivor[..], 0, 0);
    assert FirstAmong(rx, step, prev[..], curr[..], survivor[..], 0, 0);
    hide PartlyRelaxed, Relaxed, FirstAmong;
    for s := 0 to NUM_REGS
      invariant IsTransitionTable(trans)
      invariant PartlyRelaxed(rx, step, prev[..], curr[..], survivor[..], s, 0)
      invariant FirstAmong(rx, step, prev[..], curr[..], survivor[..], s, 0)
      invariant forall i :: 0 <= i < survivor.Length && !(step * NUM_REGS <= i < (step + 1) * NUM_REGS)
                            ==> survivor[i] == old(survivor[i])
    {
      if prev[s] >= INF_METRIC {
        SkipRegister(rx, step, prev[..], curr[..], survivor[..], s);
        SkipFirst(rx, step, prev[..], curr[..], survivor[..], s);
        continue;
      }
      for b := 0 to 2
        invariant IsTransitionTable(trans)
        invariant PartlyRelaxed(rx, step, prev[..], curr[..], survivor[..], s, b)
        invariant FirstAmong(rx, step, prev[..], curr[..], survivor[..], s, b)
        invariant forall i :: 0 <= i < survivor.Length && !(step * NUM_REGS <= i < (step + 1) * NUM_REGS)
                              ==> survivor[i] == old(survivor[i])
      {
        RelaxTransition(rx, step, trans[s, b], prev, curr, survivor, s, b);
      }
      NextRegister(rx, step, prev[..], curr[..], survivor[..], s);
      NextFirst(rx, step, prev[..], curr[..], survivor[..], s);
    }
    AllRegisters(rx, step, prev[..], curr[..], survivor[..]);
  }

  /** Branch metric, candidate, compare and store for one transition. */
  method RelaxTransition(rx: seq<Symbol>, step: nat, t: Transition, prev: array<nat>, curr: array<nat>,
                         survivor: array<Reg>, s: nat, ghost b: nat)
    requires 2 * step + 2 <= |rx|
    requires prev.Length == curr.Length == NUM_REGS && (step + 1) * NUM_REGS <= survivor.Length
    requires prev != curr && s < NUM_REGS && b < 2 && prev[s] < INF_METRIC
    requires t == TransitionOf(s, b)
    requires PartlyRelaxed(rx, step, prev[..], curr[..], survivor[..], s, b)
    requires FirstAmong(rx, step, prev[..], curr[..], survivor[..], s, b)
    modifies curr, survivor
    ensures PartlyRelaxed(rx, step, prev[..], curr[..], survivor[..], s, b + 1)
    ensures FirstAmong(rx, step, prev[..], curr[..], survivor[..], s, b + 1)
    ensures forall i :: 0 <= i < survivor.Length && !(step * NUM_REGS <= i < (step + 1) * NUM_REGS)
                        ==> survivor[i] == old(survivor[i])
  {
    hide PartlyRelaxed, FirstAmong, Shift, Out0, Out1, Index;
    var rx0, rx1 := rx[2 * step], rx[2 * step + 1];
    var bm := 0;
    if rx0 != ERASURE {
      bm := bm + if rx0 != Known(t.out0) then 1 else 0;
    }
    if rx1 != ERASURE {
      bm := bm + if rx1 != Known(t.out1) then 1 else 0;
    }
    assert bm == Cost(rx, step, t.nextState);
    var candidate := prev[s] + bm;
    ghost var curr0, survivor0 := curr[..], survivor[..];
    if candidate < curr[Index(t.nextState)] {
      curr[Index(t.nextState)] := candidate;
      survivor[step * NUM_REGS + Index(t.nextState)] := RegAt(s);
      assert curr[..] == curr0[Index(t.nextState) := candidate];
      assert survivor[..] == survivor0[step * NUM_REGS + Index(t.nextState) := RegAt(s)];
    } else {
      assert curr[..] == curr0 && survivor[..] == survivor0;
    }
    OfferEdge(rx, step, prev[..], curr0, survivor0, curr[..], survivor[..], s, b);
    OfferedEdges(rx, step, prev[..], curr0, survivor0, s, b);
    OfferFirst(rx, step, prev[..], curr0, survivor0, curr[..], survivor[..], s, b);
  }

  /** Progress of RelaxRow: registers below `s` are done, and the first `b` edges of `s`. */
  ghost predicate PartlyRelaxed(rx: seq<Symbol>, k: nat, prev: seq<nat>, curr: seq<nat>, survivor: seq<Reg>,
                                s: nat, b: nat)
    requires 2 * k + 2 <= |rx| && |prev| == |curr| == NUM_REGS && (k + 1) * NUM_REGS <= |survivor|
  {
    && (forall r: Reg :: curr[Index(r)] <= INF_METRIC)
    && (forall r: Reg, c: bool :: Offered(r, c, s, b) && prev[Index(r)] < INF_METRIC
                                  ==> RelaxedEdge(rx, k, prev, curr, r, c))
    && (forall r: Reg :: curr[Index(r)] < INF_METRIC ==> Supported(rx, k, prev, curr, survivor, r))
  }

  lemma OfferedEdges(rx: seq<Symbol>, k: nat, prev: seq<nat>, curr: seq<nat>, survivor: seq<Reg>, s: nat, b: nat)
    requires 2 * k + 2 <= |rx| && |prev| == |curr| == NUM_REGS && (k + 1) * NUM_REGS <= |survivor|
    requires PartlyRelaxed(rx, k, prev, curr, survivor, s, b)
    ensures forall r: Reg, c: bool :: Offered(r, c, s, b) && prev[Index(r)] < INF_METRIC ==> RelaxedEdge(rx, k, prev, curr, r, c)
  {
    hide Index, RelaxedEdge, Supported, Offered;
  }

  lemma SkipRegister(rx: seq<Symbol>, k: nat, prev: seq<nat>, curr: seq<nat>, survivor: seq<Reg>, s: nat)
    requires 2 * k + 2 <= |rx| && |prev| == |curr| == NUM_REGS && (k + 1) * NUM_REGS <= |survivor|
    requires s < NUM_REGS && prev[s] >= INF_METRIC
    requires PartlyRelaxed(rx, k, prev, curr, survivor, s, 0)
    ensures PartlyRelaxed(rx, k, prev, curr, survivor, s + 1, 0)
  {
    hide Shift, Out0, Out1, TopBit, Index, RelaxedEdge, Supported;
    forall r: Reg, c: bool | Offered(r, c, s + 1, 0) && prev[Index(r)] < INF_METRIC
      ensures RelaxedEdge(rx, k, prev, curr, r, c)
    {
      assert Offered(r, c, s, 0);
    }
  }

  lemma NextRegister(rx: seq<Symbol>, k: nat, prev: seq<nat>, curr: seq<nat>, survivor: seq<Reg>, s: nat)
    requires 2 * k + 2 <= |rx| && |prev| == |curr| == NUM_REGS && (k + 1) * NUM_REGS <= |survivor|
    requires s < NUM_REGS
    requires PartlyRelaxed(rx, k, prev, curr, survivor, s, 2)
    ensures PartlyRelaxed(rx, k, prev, curr, survivor, s + 1, 0)
  {
    hide Shift, Out0, Out1, TopBit, Index, RelaxedEdge, Supported;
    forall r: Reg, c: bool | Offered(r, c, s + 1, 0) && prev[Index(r)] < INF_METRIC
      ensures RelaxedEdge(rx, k, prev, curr, r, c)
    {
      assert Offered(r, c, s, 2);
    }
  }

  lemma AllRegisters(rx: seq<Symbol>, k: nat, prev: seq<nat>, curr: seq<nat>, survivor: seq<Reg>)
    requires 2 * k + 2 <= |rx| && |prev| == |curr| == NUM_REGS && (k + 1) * NUM_REGS <= |survivor|
    requires PartlyRelaxed(rx, k, prev, curr, survivor, NUM_REGS, 0)
    ensures Relaxed(rx, k, prev, curr, survivor)
  {
    hide Shift, Out0, Out1, TopBit, Index, RelaxedEdge, Supported;
    forall r: Reg, c: bool | prev[Index(r)] < INF_METRIC
      ensures RelaxedEdge(rx, k, prev, curr, r, c)
    {
      assert Offered(r, c, NUM_REGS, 0);
    }
  }

  /** One compare-and-store: the smaller of the old metric and the candidate is kept. */
  lemma OfferEdge(rx: seq<Symbol>, k: nat, prev: seq<nat>, curr0: seq<nat>, survivor0: seq<Reg>,
                  curr: seq<nat>, survivor: seq<Reg>, s: nat, b: nat)
    requires 2 * k + 2 <= |rx| && |prev| == |curr0| == |curr| == NUM_REGS
    requires (k + 1) * NUM_REGS <= |survivor0| == |survivor|
    requires s < NUM_REGS && b < 2 && prev[s] < INF_METRIC
    requires PartlyRelaxed(rx, k, prev, curr0, survivor0, s, b)
    requires var t := Shift(RegAt(s), b == 1);
             var candidate := prev[s] + Cost(rx, k, t);
             if candidate < curr0[Index(t)] then
               && curr == curr0[Index(t) := candidate]
               && survivor == survivor0[k * NUM_REGS + Index(t) := RegAt(s)]
             else curr == curr0 && survivor == survivor0
    ensures PartlyRelaxed(rx, k, prev, curr, survivor, s, b + 1)
  {
    hide Shift, Out0, Out1, TopBit, Index, RegAt, Cost;
    var from := RegAt(s);
    var t := Shift(from, b == 1);
    TopBitOfShift(from, b == 1);
    forall r: Reg ensures Index(r) == Index(t) ==> r == t {
      if Index(r) == Index(t) { IndexInjective(r, t); }
    }
    forall r: Reg, c: bool | Offered(r, c, s, b + 1) && prev[Index(r)] < INF_METRIC
      ensures RelaxedEdge(rx, k, prev, curr, r, c)
    {
      if Offered(r, c, s, b) {
        assert RelaxedEdge(rx, k, prev, curr0, r, c);
      } else {
        IndexInjective(r, from);
      }
    }
    forall r: Reg | curr[Index(r)] < INF_METRIC
      ensures Supported(rx, k, prev, curr, survivor, r)
    {
      if curr[Index(r)] == curr0[Index(r)] && survivor == survivor0 {
        assert Supported(rx, k, prev, curr0, survivor0, r);
      } else if r != t {
        assert Supported(rx, k, prev, curr0, survivor0, r);
      }
    }
  }

  /** Step 3: all path metrics and survivors, row by row, swapping the two metric rows. */
  method Forward(rx: seq<Symbol>) returns (metrics: array<nat>, survivor: array<Reg>)
    requires |rx| % 2 == 0
    ensures metrics.Length == NUM_REGS && survivor.Length == |rx| / 2 * NUM_REGS
    ensures |rx| < INF_METRIC ==> Optimal(rx, |rx| / 2, metrics[..], survivor[..])
    ensures |rx| < INF_METRIC ==> LeastPaths(rx, |rx| / 2, metrics[..], survivor[..])
  {
    hide Optimal, Relaxed, IsTransitionTable, FirstAmong, LeastPaths;
    var numSteps := |rx| / 2;
    var trans := MakeTransitions();
    var prev := new nat[NUM_REGS](i => INF_METRIC);
    var curr := new nat[NUM_REGS](i => INF_METRIC);
    prev[0] := 0;
    survivor := new Reg[numSteps * NUM_REGS](i => 0);
    InitialOptimal(rx, prev[..], survivor[..]);
    InitialLeast(rx, prev[..], survivor[..]);
    for step := 0 to numSteps
      invariant IsTransitionTable(trans)
      invariant prev != curr && fresh(prev) && fresh(curr)
      invariant prev.Length == curr.Length == NUM_REGS
      invariant |rx| < INF_METRIC ==> Optimal(rx, step, prev[..], survivor[..])
      invariant |rx| < INF_METRIC ==> LeastPaths(rx, step, prev[..], survivor[..])
    {
      Fill(curr, INF_METRIC);
      ghost var survivor0 := survivor[..];
      RelaxRow(rx, step, trans, prev, curr, survivor);
      if |rx| < INF_METRIC {
        OptimalUnderLaterWrites(rx, step, prev[..], survivor0, survivor[..]);
        LeastUnderLaterWrites(rx, step, prev[..], survivor0, survivor[..]);
        StepKeepsOptimal(rx, step, prev[..], curr[..], survivor[..]);
        StepKeepsLeast(rx, step, prev[..], curr[..], survivor[..]);
      }
      prev, curr := curr, prev;
    }
    metrics := prev;
  }

  lemma InitialOptimal(rx: seq<Symbol>, metric: seq<nat>, survivor: seq<Reg>)
    requires |metric| == NUM_REGS && metric[0] == 0
    requires forall i :: 0 < i < NUM_REGS ==> metric[i] == INF_METRIC
    ensures Optimal(rx, 0, metric, survivor)
  {
    assert Index(0) == 0;
    forall r: Reg | metric[Index(r)] < INF_METRIC ensures Attained(rx, 0, metric, survivor, r) {
      IndexInjective(r, 0);
    }
  }

  lemma OptimalUnderLaterWrites(rx: seq<Symbol>, k: nat, metric: seq<nat>, before: seq<Reg>, after: seq<Reg>)
    requires 2 * k <= |rx| && |metric| == NUM_REGS && k * NUM_REGS <= |before| == |after|
    requires forall i :: 0 <= i < k * NUM_REGS ==> before[i] == after[i]
    requires Optimal(rx, k, metric, before)
    ensures Optimal(rx, k, metric, after)
  {
    hide Shift, Out0, Out1, TopBit, Index;
    forall r: Reg | metric[Index(r)] < INF_METRIC ensures Attained(rx, k, metric, after, r) {
      assert Attained(rx, k, metric, before, r);
      TracePrefix(before, after, k, r);
    }
  }

  method Fill(a: array<nat>, value: nat)
    modifies a
    ensures forall i :: 0 <= i < a.Length ==> a[i] == value
  {
    for i := 0 to a.Length
      invariant forall j :: 0 <= j < i ==> a[j] == value
    {
      a[i] := value;
    }
  }

  /** The register with the least metric; the lowest-numbered one on a tie. */
  method BestState(metrics: array<nat>) returns (state: Reg)
    requires metrics.Length == NUM_REGS
    ensures forall r: Reg :: metrics[Index(state)] <= metrics[Index(r)]
    ensures forall r: Reg :: Index(r) < Index(state) ==> metrics[Index(state)] < metrics[Index(r)]
  {
    hide Index;
    state := RegAt(0);
    var best := metrics[0];
    for s := 1 to NUM_REGS
      invariant Index(state) < s && best == metrics[Index(state)]
      invariant forall i :: 0 <= i < s ==> best <= metrics[i]
      invariant forall i :: 0 <= i < Index(state) ==> best < metrics[i]
    {
      if metrics[s] < best {
        best := metrics[s];
        state := RegAt(s);
      }
    }
  }

  /** Step 4: walk the survivors back from the final register. */
  method Traceback(survivor: array<Reg>, numSteps: nat, final: Reg) returns (decoded: array<bool>)
    requires numSteps * NUM_REGS <= survivor.Length
    ensures decoded[..] == Trace(survivor[..], numSteps, final)
  {
    hide TopBit, Index;
    decoded := new bool[numSteps](i => false);
    var state := final;
    var step := numSteps;
    ghost var path := Trace(survivor[..], numSteps, final);
    while step > 0
      invariant 0 <= step <= numSteps
      invariant path == Trace(survivor[..], step, state) + decoded[step..]
    {
      var prevState := survivor[(step - 1) * NUM_REGS + Index(state)];
      decoded[step - 1] := TopBit(state);
      state := prevState;
      step := step - 1;
      assert decoded[step..] == [decoded[step]] + decoded[step + 1..];
    }
  }

  /** The whole search. For every received word short enough for its metrics to stay below
      INF_METRIC, the decoded bits are a maximum-likelihood input, and of those the least one when
      read from the end. */
  method Search(rx: seq<Symbol>) returns (decoded: array<bool>)
    requires |rx| % 2 == 0
    ensures decoded.Length == |rx| / 2
    ensures |rx| < INF_METRIC ==> Chosen(rx, decoded[..])
  {
    hide MaximumLikelihood, Optimal, Trace, LeastPaths, Chosen;
    var numSteps := |rx| / 2;
    var metrics, survivor := Forward(rx);
    var final := BestState(metrics);
    decoded := Traceback(survivor, numSteps, final);
    assert |decoded[..]| == numSteps;
    if |rx| < INF_METRIC {
      FinalIsMaximumLikelihood(rx, metrics[..], survivor[..], final);
      FinalIsChosen(rx, metrics[..], survivor[..], final);
    }
  }

  lemma FinalIsMaximumLikelihood(rx: seq<Symbol>, metric: seq<nat>, survivor: seq<Reg>, final: Reg)
    requires |rx| % 2 == 0 && |rx| < INF_METRIC
    requires |metric| == NUM_REGS && |survivor| == |rx| / 2 * NUM_REGS
    requires Optimal(rx, |rx| / 2, metric, survivor)
    requires forall r: Reg :: metric[Index(final)] <= metric[Index(r)]
    ensures MaximumLikelihood(rx, Trace(survivor, |rx| / 2, final))
  {
    hide Shift, Out0, Out1, TopBit, Index, Run, Dist, Trace;
    var n := |rx| / 2;
    var best := Trace(survivor, n, final);
    var zeros := seq(n, _ => false);
    assert metric[Index(final)] <= metric[Index(Run(zeros))] <= Dist(rx, zeros) <= 2 * |zeros|;
    assert Attained(rx, n, metric, survivor, final);
    forall bits: seq<bool> | |bits| == n
      ensures Dist(rx, best) <= Dist(rx, bits)
    {
      assert metric[Index(final)] <= metric[Index(Run(bits))];
      assert metric[Index(Run(bits))] <= Dist(rx, bits);
    }
  }
}
