/** Which of several equally likely paths the decoder takes: the one that is least when read from its
    newest bit backwards. That makes the decoder's output a function of what it receives. */
module ViterbiTies {
  import opened ConvCode
  import opened Viterbi

  /** Read from the end, `x` has the first zero where the two differ. */
  ghost predicate RevLess(x: seq<bool>, y: seq<bool>)
    requires |x| == |y|
  {
    exists j :: 0 <= j < |x| && LastDifference(x, y, j)
  }

  predicate LastDifference(x: seq<bool>, y: seq<bool>, j: nat)
    requires j < |x| == |y|
  {
    !x[j] && y[j] && forall i :: j < i < |x| ==> x[i] == y[i]
  }

  /** The path the decoder takes: a most likely one, and of those the least from the end. */
  ghost predicate Chosen(rx: seq<Symbol>, best: seq<bool>) {
    && MaximumLikelihood(rx, best)
    && forall bits: seq<bool> :: |bits| == |best| && Dist(rx, bits) == Dist(rx, best) && bits != best ==> RevLess(best, bits)
  }

  lemma ChosenIsLikely(rx: seq<Symbol>, best: seq<bool>)
    requires Chosen(rx, best)
    ensures MaximumLikelihood(rx, best)
  {
    hide MaximumLikelihood, RevLess;
  }

  lemma RevLessIsStrict(x: seq<bool>, y: seq<bool>)
    requires |x| == |y| && RevLess(x, y)
    ensures !RevLess(y, x)
  {
  }

  /** There is only one such path. */
  lemma ChosenIsUnique(rx: seq<Symbol>, a: seq<bool>, b: seq<bool>)
    requires Chosen(rx, a) && Chosen(rx, b)
    ensures a == b
  {
    hide Dist, RevLess;
    assert Dist(rx, a) == Dist(rx, b);
    if a != b { RevLessIsStrict(a, b); }
  }

  lemma RevLessGrows(x: seq<bool>, y: seq<bool>, b: bool)
    requires |x| == |y| && RevLess(x, y)
    ensures RevLess(x + [b], y + [b])
  {
    var j :| 0 <= j < |x| && LastDifference(x, y, j);
    assert LastDifference(x + [b], y + [b], j);
  }

  // ----- registers in order are paths in order -----

  lemma IndexOrder(r: Reg, t: Reg)
    requires Index(r) < Index(t)
    ensures r < t
  {
  }

  /** The highest bit in which two registers differ decides their order. */
  lemma HighestDifference(r: Reg, t: Reg, a: seq<bool>, c: seq<bool>) returns (m: nat)
    requires |a| == |c| == 7 && Holds(r, a) && Holds(t, c) && r < t
    ensures m < 7 && !a[m] && c[m] && forall i :: 0 <= i < m ==> a[i] == c[i]
  {
    m := if a[0] != c[0] then 0 else if a[1] != c[1] then 1 else if a[2] != c[2] then 2 else if a[3] != c[3] then 3
         else if a[4] != c[4] then 4 else if a[5] != c[5] then 5 else 6;
    LowerBits(r, t, a, c);
  }

  lemma LowerBits(r: Reg, t: Reg, a: seq<bool>, c: seq<bool>)
    requires |a| == |c| == 7 && Holds(r, a) && Holds(t, c) && r < t
    ensures a[0] != c[0] ==> !a[0]
    ensures a[0] == c[0] && a[1] != c[1] ==> !a[1]
    ensures a[0] == c[0] && a[1] == c[1] && a[2] != c[2] ==> !a[2]
    ensures a[0] == c[0] && a[1] == c[1] && a[2] == c[2] && a[3] != c[3] ==> !a[3]
    ensures a[0] == c[0] && a[1] == c[1] && a[2] == c[2] && a[3] == c[3] && a[4] != c[4] ==> !a[4]
    ensures a[0] == c[0] && a[1] == c[1] && a[2] == c[2] && a[3] == c[3] && a[4] == c[4] && a[5] != c[5] ==> !a[5]
    ensures a[0] == c[0] && a[1] == c[1] && a[2] == c[2] && a[3] == c[3] && a[4] == c[4] && a[5] == c[5] ==> !a[6] && c[6]
  {
  }

  /** Inputs that end in a lower register are less. */
  lemma LowerRegister(x: seq<bool>, y: seq<bool>)
    requires |x| == |y| && Index(Run(x)) < Index(Run(y))
    ensures RevLess(x, y)
  {
    hide Run, Holds, Index, Newest;
    RunHoldsNewest(x);
    RunHoldsNewest(y);
    IndexOrder(Run(x), Run(y));
    var m := HighestDifference(Run(x), Run(y), Newest(x), Newest(y));
    NewestDiffer(x, y, m);
  }

  lemma NewestDiffer(x: seq<bool>, y: seq<bool>, m: nat)
    requires |x| == |y| && m < 7 && !Newest(x)[m] && Newest(y)[m] && forall i :: 0 <= i < m ==> Newest(x)[i] == Newest(y)[i]
    ensures RevLess(x, y)
  {
    var j := |x| - 1 - m;
    forall i | j < i < |x| ensures x[i] == y[i] {
      assert Newest(x)[|x| - 1 - i] == Newest(y)[|x| - 1 - i];
    }
    assert LastDifference(x, y, j);
  }

  // ----- what the search keeps -----

  /** The recorded predecessor comes first among those offered that explain the metric as well. */
  ghost predicate FirstFor(rx: seq<Symbol>, k: nat, prev: seq<nat>, curr: seq<nat>, survivor: seq<Reg>, s: nat, b: nat, r: Reg)
    requires 2 * k + 2 <= |rx| && |prev| == |curr| == NUM_REGS && (k + 1) * NUM_REGS <= |survivor|
  {
    var p := survivor[k * NUM_REGS + Index(r)];
    && Index(p) <= s
    && forall q: Reg :: Offered(q, TopBit(r), s, b) && Ties(rx, k, prev, curr, q, r) ==> Index(p) <= Index(q)
  }

  /** `q` explains the metric of `r`. */
  predicate Ties(rx: seq<Symbol>, k: nat, prev: seq<nat>, curr: seq<nat>, q: Reg, r: Reg)
    requires 2 * k + 2 <= |rx| && |prev| == |curr| == NUM_REGS
  {
    prev[Index(q)] < INF_METRIC && Shift(q, TopBit(r)) == r && prev[Index(q)] + Cost(rx, k, r) == curr[Index(r)]
  }

  ghost predicate FirstAmong(rx: seq<Symbol>, k: nat, prev: seq<nat>, curr: seq<nat>, survivor: seq<Reg>, s: nat, b: nat)
    requires 2 * k + 2 <= |rx| && |prev| == |curr| == NUM_REGS && (k + 1) * NUM_REGS <= |survivor|
  {
    forall r: Reg :: curr[Index(r)] < INF_METRIC ==> FirstFor(rx, k, prev, curr, survivor, s, b, r)
  }

  lemma SkipFirst(rx: seq<Symbol>, k: nat, prev: seq<nat>, curr: seq<nat>, survivor: seq<Reg>, s: nat)
    requires 2 * k + 2 <= |rx| && |prev| == |curr| == NUM_REGS && (k + 1) * NUM_REGS <= |survivor|
    requires s < NUM_REGS && prev[s] >= INF_METRIC && FirstAmong(rx, k, prev, curr, survivor, s, 0)
    ensures FirstAmong(rx, k, prev, curr, survivor, s + 1, 0)
  {
    hide Shift, TopBit, Index, Cost;
    forall r: Reg | curr[Index(r)] < INF_METRIC ensures FirstFor(rx, k, prev, curr, survivor, s + 1, 0, r) {
      assert FirstFor(rx, k, prev, curr, survivor, s, 0, r);
      forall q: Reg | Offered(q, TopBit(r), s + 1, 0) && Ties(rx, k, prev, curr, q, r) ensures Offered(q, TopBit(r), s, 0) {
      }
    }
  }

  lemma NextFirst(rx: seq<Symbol>, k: nat, prev: seq<nat>, curr: seq<nat>, survivor: seq<Reg>, s: nat)
    requires 2 * k + 2 <= |rx| && |prev| == |curr| == NUM_REGS && (k + 1) * NUM_REGS <= |survivor|
    requires s < NUM_REGS && FirstAmong(rx, k, prev, curr, survivor, s, 2)
    ensures FirstAmong(rx, k, prev, curr, survivor, s + 1, 0)
  {
    hide Shift, TopBit, Index, Cost, Ties;
    forall r: Reg | curr[Index(r)] < INF_METRIC ensures FirstFor(rx, k, prev, curr, survivor, s + 1, 0, r) {
      assert FirstFor(rx, k, prev, curr, survivor, s, 2, r);
      forall q: Reg | Offered(q, TopBit(r), s + 1, 0) && Ties(rx, k, prev, curr, q, r) ensures Offered(q, TopBit(r), s, 2) {
      }
    }
  }

  /** One transition more: a better one takes over, an equally good one does not. */
  lemma OfferFirst(rx: seq<Symbol>, k: nat, prev: seq<nat>, curr0: seq<nat>, survivor0: seq<Reg>, curr: seq<nat>,
                   survivor: seq<Reg>, s: nat, b: nat)
    requires 2 * k + 2 <= |rx| && |prev| == |curr0| == |curr| == NUM_REGS
    requires (k + 1) * NUM_REGS <= |survivor0| == |survivor|
    requires s < NUM_REGS && b < 2 && prev[s] < INF_METRIC
    requires FirstAmong(rx, k, prev, curr0, survivor0, s, b)
    requires forall q: Reg, c: bool :: Offered(q, c, s, b) && prev[Index(q)] < INF_METRIC ==> RelaxedEdge(rx, k, prev, curr0, q, c)
    requires var t := Shift(RegAt(s), b == 1);
             var candidate := prev[s] + Cost(rx, k, t);
             if candidate < curr0[Index(t)] then
               && curr == curr0[Index(t) := candidate]
               && survivor == survivor0[k * NUM_REGS + Index(t) := RegAt(s)]
             else curr == curr0 && survivor == survivor0
    ensures FirstAmong(rx, k, prev, curr, survivor, s, b + 1)
  {
    hide Shift, TopBit, Index, RegAt, Cost, Offered, FirstFor, Ties, RelaxedEdge;
    var t := Shift(RegAt(s), b == 1);
    forall r: Reg | curr[Index(r)] < INF_METRIC ensures FirstFor(rx, k, prev, curr, survivor, s, b + 1, r) {
      if Index(r) == Index(t) { IndexInjective(r, t); }
      if r == t && prev[s] + Cost(rx, k, t) < curr0[Index(t)] {
        TakesOver(rx, k, prev, curr0, curr, survivor, s, b);
      } else {
        StaysFirst(rx, k, prev, curr0, survivor0, curr, survivor, s, b, r);
      }
    }
  }

  /** A register whose entry did not change. */
  lemma StaysFirst(rx: seq<Symbol>, k: nat, prev: seq<nat>, curr0: seq<nat>, survivor0: seq<Reg>, curr: seq<nat>,
                   survivor: seq<Reg>, s: nat, b: nat, r: Reg)
    requires 2 * k + 2 <= |rx| && |prev| == |curr0| == |curr| == NUM_REGS
    requires (k + 1) * NUM_REGS <= |survivor0| == |survivor| && s < NUM_REGS && b < 2
    requires FirstFor(rx, k, prev, curr0, survivor0, s, b, r)
    requires curr[Index(r)] == curr0[Index(r)] && survivor[k * NUM_REGS + Index(r)] == survivor0[k * NUM_REGS + Index(r)]
    ensures FirstFor(rx, k, prev, curr, survivor, s, b + 1, r)
  {
    hide Shift, TopBit, Index, Cost, Offered;
    forall q: Reg | Offered(q, TopBit(r), s, b + 1) && Ties(rx, k, prev, curr, q, r)
      ensures Index(survivor[k * NUM_REGS + Index(r)]) <= Index(q)
    {
      if Offered(q, TopBit(r), s, b) {
        assert Ties(rx, k, prev, curr0, q, r);
      } else {
        SameTransition(q, TopBit(r), s, b);
      }
    }
  }

  /** A register that the transition improves: nothing offered before was as good. */
  lemma TakesOver(rx: seq<Symbol>, k: nat, prev: seq<nat>, curr0: seq<nat>, curr: seq<nat>, survivor: seq<Reg>, s: nat, b: nat)
    requires 2 * k + 2 <= |rx| && |prev| == |curr0| == |curr| == NUM_REGS && (k + 1) * NUM_REGS <= |survivor|
    requires s < NUM_REGS && b < 2
    requires forall q: Reg, c: bool :: Offered(q, c, s, b) && prev[Index(q)] < INF_METRIC ==> RelaxedEdge(rx, k, prev, curr0, q, c)
    requires var t := Shift(RegAt(s), b == 1);
             curr[Index(t)] < curr0[Index(t)] && survivor[k * NUM_REGS + Index(t)] == RegAt(s)
    ensures FirstFor(rx, k, prev, curr, survivor, s, b + 1, Shift(RegAt(s), b == 1))
  {
    hide Shift, TopBit, Index, RegAt, Cost, Offered;
    var t := Shift(RegAt(s), b == 1);
    IndexOfRegAt(s);
    forall q: Reg | Offered(q, TopBit(t), s, b + 1) && Ties(rx, k, prev, curr, q, t) ensures s <= Index(q) {
      if Offered(q, TopBit(t), s, b) {
        assert false;
      }
      SameTransition(q, TopBit(t), s, b);
    }
  }

  lemma IndexOfRegAt(s: nat)
    requires s < NUM_REGS
    ensures Index(RegAt(s)) == s
  {
  }

  lemma SameTransition(q: Reg, c: bool, s: nat, b: nat)
    requires s < NUM_REGS && b < 2 && Offered(q, c, s, b + 1) && !Offered(q, c, s, b)
    ensures q == RegAt(s) && Index(q) == s && c == (b == 1)
  {
    IndexInjective(q, RegAt(s));
  }

  // ----- least paths -----

  /** Of all inputs that explain a register's metric, the recorded path is the least from the end. */
  ghost predicate LeastPaths(rx: seq<Symbol>, k: nat, metric: seq<nat>, survivor: seq<Reg>)
    requires 2 * k <= |rx| && |metric| == NUM_REGS && k * NUM_REGS <= |survivor|
  {
    forall bits: seq<bool> :: |bits| == k && Dist(rx, bits) == metric[Index(Run(bits))] && Dist(rx, bits) < INF_METRIC ==>
      LeastPath(survivor, k, bits)
  }

  ghost predicate LeastPath(survivor: seq<Reg>, k: nat, bits: seq<bool>)
    requires |bits| == k && k * NUM_REGS <= |survivor|
  {
    var path := Trace(survivor, k, Run(bits));
    path == bits || RevLess(path, bits)
  }

  /** One step of the recurrence keeps the recorded paths least. */
  lemma StepKeepsLeast(rx: seq<Symbol>, k: nat, prev: seq<nat>, curr: seq<nat>, survivor: seq<Reg>)
    requires 2 * k + 2 <= |rx| && |prev| == |curr| == NUM_REGS && (k + 1) * NUM_REGS <= |survivor|
    requires 2 * k + 2 < INF_METRIC
    requires Optimal(rx, k, prev, survivor) && Relaxed(rx, k, prev, curr, survivor)
    requires FirstAmong(rx, k, prev, curr, survivor, NUM_REGS, 0) && LeastPaths(rx, k, prev, survivor)
    ensures LeastPaths(rx, k + 1, curr, survivor)
  {
    hide *;
    forall bits: seq<bool> | |bits| == k + 1 && Dist(rx, bits) == curr[Index(Run(bits))] && Dist(rx, bits) < INF_METRIC
      ensures LeastPath(survivor, k + 1, bits)
    {
      LeastStep(rx, k, prev, curr, survivor, bits);
    }
    AllLeast(rx, k + 1, curr, survivor);
  }

  lemma AllLeast(rx: seq<Symbol>, k: nat, metric: seq<nat>, survivor: seq<Reg>)
    requires 2 * k <= |rx| && |metric| == NUM_REGS && k * NUM_REGS <= |survivor|
    requires forall bits: seq<bool> :: |bits| == k && Dist(rx, bits) == metric[Index(Run(bits))] && Dist(rx, bits) < INF_METRIC ==>
               LeastPath(survivor, k, bits)
    ensures LeastPaths(rx, k, metric, survivor)
  {
    hide Dist, Run, Index, LeastPath;
  }

  lemma LeastStep(rx: seq<Symbol>, k: nat, prev: seq<nat>, curr: seq<nat>, survivor: seq<Reg>, bits: seq<bool>)
    requires 2 * k + 2 <= |rx| && |prev| == |curr| == NUM_REGS && (k + 1) * NUM_REGS <= |survivor|
    requires 2 * k + 2 < INF_METRIC && |bits| == k + 1
    requires Optimal(rx, k, prev, survivor) && Relaxed(rx, k, prev, curr, survivor)
    requires FirstAmong(rx, k, prev, curr, survivor, NUM_REGS, 0) && LeastPaths(rx, k, prev, survivor)
    requires Dist(rx, bits) == curr[Index(Run(bits))] && Dist(rx, bits) < INF_METRIC
    ensures LeastPath(survivor, k + 1, bits)
  {
    hide *;
    var r, head := Run(bits), bits[..k];
    var s := Run(head);
    var p := survivor[k * NUM_REGS + Index(r)];
    PredecessorTies(rx, k, prev, curr, survivor, bits);
    var path := Trace(survivor, k, p);
    TraceStep(survivor, k, bits);
    assert bits == head + [bits[k]];
    LeastMeans(survivor, k + 1, bits);
    LeastMeans(survivor, k, head);
    if Index(p) == Index(s) {
      IndexInjective(p, s);
      LeastOf(rx, k, prev, survivor, head);
      if path != head { RevLessGrows(path, head, bits[k]); }
    } else {
      LowerRegister(path, head);
      RevLessGrows(path, head, bits[k]);
    }
  }

  lemma LeastOf(rx: seq<Symbol>, k: nat, metric: seq<nat>, survivor: seq<Reg>, bits: seq<bool>)
    requires 2 * k <= |rx| && |metric| == NUM_REGS && k * NUM_REGS <= |survivor| && |bits| == k
    requires LeastPaths(rx, k, metric, survivor) && Dist(rx, bits) == metric[Index(Run(bits))] && Dist(rx, bits) < INF_METRIC
    ensures LeastPath(survivor, k, bits)
  {
    hide Dist, Run, Index, LeastPath;
  }

  lemma LeastMeans(survivor: seq<Reg>, k: nat, bits: seq<bool>)
    requires |bits| == k && k * NUM_REGS <= |survivor|
    ensures LeastPath(survivor, k, bits)
            <==> Trace(survivor, k, Run(bits)) == bits || RevLess(Trace(survivor, k, Run(bits)), bits)
  {
    hide Trace, Run, RevLess;
  }

  /** The recorded path grows by the newest bit of its register. */
  lemma TraceStep(survivor: seq<Reg>, k: nat, bits: seq<bool>)
    requires |bits| == k + 1 && (k + 1) * NUM_REGS <= |survivor|
    ensures Trace(survivor, k + 1, Run(bits)) == Trace(survivor, k, survivor[k * NUM_REGS + Index(Run(bits))]) + [bits[k]]
  {
    hide Shift, TopBit, Index;
    TopBitOfShift(Run(bits[..k]), bits[k]);
  }

  lemma DistStep(rx: seq<Symbol>, bits: seq<bool>, k: nat)
    requires |bits| == k + 1 && 2 * k + 2 <= |rx|
    ensures Run(bits) == Shift(Run(bits[..k]), bits[k]) && TopBit(Run(bits)) == bits[k]
    ensures Dist(rx, bits) == Dist(rx, bits[..k]) + Cost(rx, k, Run(bits))
  {
    hide Shift, TopBit, Cost;
    TopBitOfShift(Run(bits[..k]), bits[k]);
  }

  lemma MetricBelow(rx: seq<Symbol>, k: nat, metric: seq<nat>, survivor: seq<Reg>, bits: seq<bool>)
    requires 2 * k <= |rx| && |metric| == NUM_REGS && k * NUM_REGS <= |survivor| && |bits| == k
    requires Optimal(rx, k, metric, survivor)
    ensures metric[Index(Run(bits))] <= Dist(rx, bits)
  {
    hide Run, Dist, Attained, Index;
  }

  lemma PathOf(rx: seq<Symbol>, k: nat, metric: seq<nat>, survivor: seq<Reg>, r: Reg)
    requires 2 * k <= |rx| && |metric| == NUM_REGS && k * NUM_REGS <= |survivor|
    requires Optimal(rx, k, metric, survivor) && metric[Index(r)] < INF_METRIC
    ensures Run(Trace(survivor, k, r)) == r && Dist(rx, Trace(survivor, k, r)) == metric[Index(r)]
  {
    hide Run, Dist, Index, Trace;
    assert Attained(rx, k, metric, survivor, r);
  }

  lemma EdgeRelaxed(rx: seq<Symbol>, k: nat, prev: seq<nat>, curr: seq<nat>, survivor: seq<Reg>, s: Reg, b: bool)
    requires 2 * k + 2 <= |rx| && |prev| == |curr| == NUM_REGS && (k + 1) * NUM_REGS <= |survivor|
    requires Relaxed(rx, k, prev, curr, survivor) && prev[Index(s)] < INF_METRIC
    ensures curr[Index(Shift(s, b))] <= prev[Index(s)] + Cost(rx, k, Shift(s, b))
  {
    hide Index, Shift, Cost, Supported;
    assert RelaxedEdge(rx, k, prev, curr, s, b);
  }

  lemma RecordedFirst(rx: seq<Symbol>, k: nat, prev: seq<nat>, curr: seq<nat>, survivor: seq<Reg>, s: Reg, r: Reg)
    requires 2 * k + 2 <= |rx| && |prev| == |curr| == NUM_REGS && (k + 1) * NUM_REGS <= |survivor|
    requires Relaxed(rx, k, prev, curr, survivor) && FirstAmong(rx, k, prev, curr, survivor, NUM_REGS, 0)
    requires curr[Index(r)] < INF_METRIC && Ties(rx, k, prev, curr, s, r)
    ensures var p := survivor[k * NUM_REGS + Index(r)]; prev[Index(p)] < INF_METRIC && Index(p) <= Index(s)
  {
    hide Index, Shift, Cost, TopBit, RelaxedEdge, Ties, Offered;
    assert Supported(rx, k, prev, curr, survivor, r);
    assert FirstFor(rx, k, prev, curr, survivor, NUM_REGS, 0, r);
    BelowAll(s, TopBit(r));
  }

  /** An input that explains the metric comes from a register that does too, not before the recorded one. */
  lemma PredecessorTies(rx: seq<Symbol>, k: nat, prev: seq<nat>, curr: seq<nat>, survivor: seq<Reg>, bits: seq<bool>)
    requires 2 * k + 2 <= |rx| && |prev| == |curr| == NUM_REGS && (k + 1) * NUM_REGS <= |survivor|
    requires 2 * k + 2 < INF_METRIC && |bits| == k + 1
    requires Optimal(rx, k, prev, survivor) && Relaxed(rx, k, prev, curr, survivor)
    requires FirstAmong(rx, k, prev, curr, survivor, NUM_REGS, 0)
    requires Dist(rx, bits) == curr[Index(Run(bits))] && Dist(rx, bits) < INF_METRIC
    ensures var p, s := survivor[k * NUM_REGS + Index(Run(bits))], Run(bits[..k]);
            && Dist(rx, bits[..k]) == prev[Index(s)] && Dist(rx, bits[..k]) < INF_METRIC
            && Index(p) <= Index(s) && Run(Trace(survivor, k, p)) == p
  {
    hide Optimal, Relaxed, FirstAmong, Dist, Run, Index, Shift, TopBit, Cost, Trace;
    var r, head := Run(bits), bits[..k];
    DistStep(rx, bits, k);
    MetricBelow(rx, k, prev, survivor, head);
    EdgeRelaxed(rx, k, prev, curr, survivor, Run(head), bits[k]);
    RecordedFirst(rx, k, prev, curr, survivor, Run(head), r);
    PathOf(rx, k, prev, survivor, survivor[k * NUM_REGS + Index(r)]);
  }

  lemma BelowAll(r: Reg, c: bool)
    ensures Offered(r, c, NUM_REGS, 0)
  {
  }

  lemma InitialLeast(rx: seq<Symbol>, metric: seq<nat>, survivor: seq<Reg>)
    requires |metric| == NUM_REGS
    ensures LeastPaths(rx, 0, metric, survivor)
  {
  }

  lemma LeastUnderLaterWrites(rx: seq<Symbol>, k: nat, metric: seq<nat>, before: seq<Reg>, after: seq<Reg>)
    requires 2 * k <= |rx| && |metric| == NUM_REGS && k * NUM_REGS <= |before| == |after|
    requires forall i :: 0 <= i < k * NUM_REGS ==> before[i] == after[i]
    requires LeastPaths(rx, k, metric, before)
    ensures LeastPaths(rx, k, metric, after)
  {
    hide Dist, Run, Index, RevLess;
    forall bits: seq<bool> | |bits| == k && Dist(rx, bits) == metric[Index(Run(bits))] && Dist(rx, bits) < INF_METRIC
      ensures LeastPath(after, k, bits)
    {
      LeastOf(rx, k, metric, before, bits);
      TracePrefix(before, after, k, Run(bits));
    }
  }

  /** The path of the lowest register with the least metric is the chosen one. */
  lemma FinalIsChosen(rx: seq<Symbol>, metric: seq<nat>, survivor: seq<Reg>, final: Reg)
    requires |rx| % 2 == 0 && |rx| < INF_METRIC
    requires |metric| == NUM_REGS && |survivor| == |rx| / 2 * NUM_REGS
    requires Optimal(rx, |rx| / 2, metric, survivor) && LeastPaths(rx, |rx| / 2, metric, survivor)
    requires forall r: Reg :: metric[Index(final)] <= metric[Index(r)]
    requires forall r: Reg :: Index(r) < Index(final) ==> metric[Index(final)] < metric[Index(r)]
    requires MaximumLikelihood(rx, Trace(survivor, |rx| / 2, final))
    ensures Chosen(rx, Trace(survivor, |rx| / 2, final))
  {
    hide Shift, Index, Run, Trace, LeastPaths, LeastPath, RevLess, MaximumLikelihood, Dist, Optimal;
    var n := |rx| / 2;
    var best := Trace(survivor, n, final);
    FinalAttained(rx, metric, survivor, final);
    forall bits: seq<bool> | |bits| == n && Dist(rx, bits) == Dist(rx, best) && bits != best ensures RevLess(best, bits) {
      var r := Run(bits);
      MetricBelow(rx, n, metric, survivor, bits);
      LeastOf(rx, n, metric, survivor, bits);
      LeastMeans(survivor, n, bits);
      if Index(r) == Index(final) {
        IndexInjective(r, final);
      } else {
        LowerRegister(best, bits);
      }
    }
  }

  lemma FinalAttained(rx: seq<Symbol>, metric: seq<nat>, survivor: seq<Reg>, final: Reg)
    requires |rx| % 2 == 0 && |rx| < INF_METRIC
    requires |metric| == NUM_REGS && |survivor| == |rx| / 2 * NUM_REGS
    requires Optimal(rx, |rx| / 2, metric, survivor)
    requires forall r: Reg :: metric[Index(final)] <= metric[Index(r)]
    ensures var best := Trace(survivor, |rx| / 2, final);
            Run(best) == final && Dist(rx, best) == metric[Index(final)] < INF_METRIC
  {
    hide Optimal, Index, Run, Trace, Dist;
    var n := |rx| / 2;
    var zeros := seq(n, _ => false);
    MetricBelow(rx, n, metric, survivor, zeros);
    assert metric[Index(final)] <= metric[Index(Run(zeros))] <= Dist(rx, zeros) <= 2 * |zeros|;
    PathOf(rx, n, metric, survivor, final);
  }
}
