/** How much weight the code gathers: the ones put out after a first one in the input, however the
    input goes on. Sums over up to twenty steps are compared as bit vectors. */
module ColumnDistances {
  import opened ConvCode

  /** Output ones of one transition. */
  function StepWeight(r: Reg): (w: nat)
    ensures w <= 2
  {
    (if Out0(r) then 1 else 0) + (if Out1(r) then 1 else 0)
  }

  /** Number of ones the encoder puts out for an input. */
  function Weight(e: seq<bool>): nat {
    if |e| == 0 then 0 else Weight(e[..|e| - 1]) + StepWeight(Run(e))
  }

  lemma {:induction false} WeightMonotone(e: seq<bool>, k: nat)
    requires k <= |e|
    ensures Weight(e[..k]) <= Weight(e)
  {
    if k < |e| {
      WeightMonotone(e[..|e| - 1], k);
      assert e[..|e| - 1][..k] == e[..k];
    } else {
      assert e[..k] == e;
    }
  }

  /** Ones guaranteed after a first one, given the number of steps from it to the end. */
  function ColumnDistance(steps: nat): nat {
    if steps >= 20 then 9 else if steps >= 16 then 7 else if steps >= 8 then 5
    else if steps >= 4 then 4 else if steps >= 2 then 3 else if steps == 1 then 2 else 0
  }

  // ----- the last 32 inputs -----

  function Push(h: bv32, b: bool): bv32 { (h >> 1) | (if b then 0x8000_0000 else 0) }

  /** The last 32 inputs, the newest on top. */
  function History(bits: seq<bool>): bv32 {
    if |bits| == 0 then 0 else Push(History(bits[..|bits| - 1]), bits[|bits| - 1])
  }

  /** The encoder's register is the top of the history. */
  function Top(h: bv32): Reg { (h >> 25) as bv8 }

  lemma TopOfPush(h: bv32, b: bool)
    ensures Top(Push(h, b)) == Shift(Top(h), b)
  {
  }

  lemma {:induction false} RunIsTop(bits: seq<bool>)
    ensures Run(bits) == Top(History(bits))
  {
    hide Shift, Top, Push;
    if |bits| == 0 {
      assert Top(0) == 0 by { TopOfZero(); }
    } else {
      var n := |bits| - 1;
      RunIsTop(bits[..n]);
      TopOfPush(History(bits[..n]), bits[n]);
    }
  }

  lemma TopOfZero()
    ensures Top(0) == 0
  {
  }

  /** All outputs of generators 171 and 133 (octal) at once: the newest on top. */
  function Stream0(h: bv32): bv32 { h ^ (h << 1) ^ (h << 2) ^ (h << 3) ^ (h << 6) }

  function Stream1(h: bv32): bv32 { h ^ (h << 2) ^ (h << 3) ^ (h << 5) ^ (h << 6) }

  /** The ones of the newest step, and of the newest four. */
  function Ones(h: bv32): bv32 { (Stream0(h) >> 31) + (Stream1(h) >> 31) }

  function Plus(a: bv32, b: bv32): bv32 { a + b }

  /** The history one step ago, and four steps ago, as long as nothing was lost below. */
  function Back(h: bv32): bv32 { h << 1 }

  function FourAgo(h: bv32): bv32 { Back(Back(Back(Back(h)))) }

  /** A sum goes on with the newest four steps, the oldest of them first. */
  function AddFour(sum: bv32, h: bv32): bv32 {
    Plus(Plus(Plus(Plus(sum, Ones(Back(Back(Back(h))))), Ones(Back(Back(h)))), Ones(Back(h))), Ones(h))
  }

  lemma OnesAreOutputs(h: bv32)
    ensures Ones(h) == (if Out0(Top(h)) then 1 else 0) + (if Out1(Top(h)) then 1 else 0)
  {
  }

  /** A count as a bit vector. */
  function Num(k: nat): bv32 { if k == 0 then 0 else Plus(Num(k - 1), 1) }

  lemma NumAdds(j: nat, k: nat)
    requires k <= 2
    ensures Num(j + k) == Plus(Num(j), if k == 0 then 0 else if k == 1 then 1 else 2)
  {
    hide Plus;
    NumSteps(j);
    if k == 0 { PlusNothing(Num(j)); }
    if k == 2 { PlusTwice(Num(j)); }
  }

  lemma NumSteps(j: nat)
    ensures Num(j + 1) == Plus(Num(j), 1) && Num(j + 2) == Plus(Num(j + 1), 1)
  {
    hide Plus;
  }

  lemma PlusNothing(n: bv32)
    ensures Plus(n, 0) == n
  {
  }

  lemma PlusTwice(n: bv32)
    ensures Plus(Plus(n, 1), 1) == Plus(n, 2)
  {
  }

  /** Small counts are what their bit vectors say. */
  lemma NumBelow(k: nat)
    ensures Num(k) >= 2 ==> k >= 2
    ensures Num(k) >= 3 ==> k >= 3
    ensures Num(k) >= 4 ==> k >= 4
    ensures Num(k) >= 5 ==> k >= 5
    ensures Num(k) >= 7 ==> k >= 7
    ensures Num(k) >= 9 ==> k >= 9
  {
    assert Num(1) == 1 && Num(2) == 2 && Num(3) == 3;
    assert Num(4) == 4 && Num(5) == 5 && Num(6) == 6;
    assert Num(7) == 7 && Num(8) == 8;
  }

  lemma StepOnes(bits: seq<bool>)
    ensures var w := StepWeight(Run(bits));
            Ones(History(bits)) == if w == 0 then 0 else if w == 1 then 1 else 2
  {
    RunIsTop(bits);
    OnesAreOutputs(History(bits));
    hide Out0, Out1, Top, Ones, Run, History;
  }

  /** One step more of a prefix. */
  lemma WeightStep(e: seq<bool>, k: nat)
    requires k < |e|
    ensures History(e[..k + 1]) == Push(History(e[..k]), e[k])
    ensures Num(Weight(e[..k + 1])) == Plus(Num(Weight(e[..k])), Ones(History(e[..k + 1])))
  {
    hide Shift, Ones, Out0, Out1, Push, Plus, Num, StepWeight;
    assert e[..k + 1][..k] == e[..k];
    StepOnes(e[..k + 1]);
    NumAdds(Weight(e[..k]), StepWeight(Run(e[..k + 1])));
  }

  /** The lowest `n` bits of a history are free. */
  predicate Free(h: bv32, n: nat) {
    if n == 4 then h & 0xF == 0 else if n == 3 then h & 0x7 == 0 else if n == 2 then h & 0x3 == 0 else h & 1 == 0
  }

  /** While its lowest bits are free, pushing can be undone. */
  lemma PushBack(h: bv32, n: nat, b: bool)
    requires 1 <= n <= 4 && Free(h, n)
    ensures Back(Push(h, b)) == h
    ensures n > 1 ==> Free(Push(h, b), n - 1)
  {
  }

  lemma FourBack(h: bv32, b0: bool, b1: bool, b2: bool, b3: bool)
    requires Free(h, 4)
    ensures var g := Push(Push(Push(Push(h, b0), b1), b2), b3);
            && Back(g) == Push(Push(Push(h, b0), b1), b2) && Back(Back(g)) == Push(Push(h, b0), b1)
            && Back(Back(Back(g))) == Push(h, b0) && FourAgo(g) == h
  {
    hide Back, Push, Free;
    PushBack(h, 4, b0);
    PushBack(Push(h, b0), 3, b1);
    PushBack(Push(Push(h, b0), b1), 2, b2);
    PushBack(Push(Push(Push(h, b0), b1), b2), 1, b3);
  }

  lemma FourSteps(e: seq<bool>, k: nat)
    requires k + 4 <= |e|
    ensures var h := History(e[..k]);
            var h1 := Push(h, e[k]);
            var h2 := Push(h1, e[k + 1]);
            var h3 := Push(h2, e[k + 2]);
            var h4 := Push(h3, e[k + 3]);
            && History(e[..k + 4]) == h4
            && Num(Weight(e[..k + 4])) == Plus(Plus(Plus(Plus(Num(Weight(e[..k])), Ones(h1)), Ones(h2)), Ones(h3)), Ones(h4))
  {
    hide *;
    WeightStep(e, k);
    WeightStep(e, k + 1);
    WeightStep(e, k + 2);
    WeightStep(e, k + 3);
  }

  /** Four steps more. */
  lemma WeightFour(e: seq<bool>, k: nat)
    requires k + 4 <= |e| && Free(History(e[..k]), 4)
    ensures FourAgo(History(e[..k + 4])) == History(e[..k])
    ensures Num(Weight(e[..k + 4])) == AddFour(Num(Weight(e[..k])), History(e[..k + 4]))
  {
    hide Push, Plus, Num, Weight, Ones, History, Back, FourAgo, Free;
    FourBack(History(e[..k]), e[k], e[k + 1], e[k + 2], e[k + 3]);
    FourSteps(e, k);
  }

  lemma {:induction false} ZerosWeighNothing(e: seq<bool>)
    requires forall j :: 0 <= j < |e| ==> !e[j]
    ensures History(e) == 0 && Run(e) == 0 && Weight(e) == 0
  {
    if |e| > 0 {
      ZerosWeighNothing(e[..|e| - 1]);
    }
  }

  // ----- the column distances -----

  /** The history has nothing older than a one that came in `steps` steps ago. */
  predicate FirstOne(h: bv32, steps: nat) {
    if steps == 4 then h & 0x1FFF_FFFF == 0x1000_0000
    else if steps == 8 then h & 0x01FF_FFFF == 0x0100_0000
    else if steps == 12 then h & 0x001F_FFFF == 0x0010_0000
    else if steps == 16 then h & 0x0001_FFFF == 0x0001_0000
    else steps == 20 && h & 0x0000_1FFF == 0x0000_1000
  }

  lemma FirstOneAges(h: bv32, steps: nat)
    requires steps in {4, 8, 12, 16} && FirstOne(FourAgo(h), steps)
    ensures FirstOne(h, steps + 4)
  {
  }

  lemma FirstOneLeavesRoom(h: bv32, steps: nat)
    requires steps in {4, 8, 12, 16} && FirstOne(h, steps)
    ensures Free(h, 4)
  {
  }

  lemma FourWeight(h: bv32)
    requires FirstOne(h, 4)
    ensures AddFour(0, h) >= 4
  {
  }

  lemma EightWeight(h: bv32)
    requires FirstOne(h, 8)
    ensures AddFour(AddFour(0, FourAgo(h)), h) >= 5
  {
  }

  lemma SixteenWeight(h: bv32)
    requires FirstOne(h, 16)
    ensures var h4 := FourAgo(h);
            var h8 := FourAgo(h4);
            AddFour(AddFour(AddFour(AddFour(0, FourAgo(h8)), h8), h4), h) >= 7
  {
  }

  /** The output ones of the last twenty steps. */
  function Twenty(h: bv32): bv32 {
    var h4 := FourAgo(h);
    var h8 := FourAgo(h4);
    var h12 := FourAgo(h8);
    AddFour(AddFour(AddFour(AddFour(AddFour(0, FourAgo(h12)), h12), h8), h4), h)
  }

  lemma TwentyAfterOne(h: bv32)
    requires FirstOne(h, 20) && h & 0x0000_2000 != 0
    ensures Twenty(h) >= 9
  {
  }

  lemma TwentyAfterZero(h: bv32)
    requires FirstOne(h, 20) && h & 0x0000_2000 == 0
    ensures Twenty(h) >= 9
  {
  }

  lemma TwentyWeight(h: bv32)
    requires FirstOne(h, 20)
    ensures var h4 := FourAgo(h);
            var h8 := FourAgo(h4);
            var h12 := FourAgo(h8);
            AddFour(AddFour(AddFour(AddFour(AddFour(0, FourAgo(h12)), h12), h8), h4), h) >= 9
  {
    hide AddFour, FourAgo, FirstOne;
    if h & 0x0000_2000 == 0 { TwentyAfterZero(h); } else { TwentyAfterOne(h); }
  }

  lemma FirstSteps(b1: bool, b2: bool, b3: bool)
    ensures Free(0, 4)
    ensures Plus(0, Ones(Push(0, true))) == 2
    ensures Plus(Plus(0, Ones(Push(0, true))), Ones(Push(Push(0, true), b1))) == 3
    ensures FirstOne(Push(Push(Push(Push(0, true), b1), b2), b3), 4)
  {
  }

  /** The first four steps from a first one on. */
  lemma FirstFour(e: seq<bool>, i: nat)
    requires i + 4 <= |e| && e[i] && forall j :: 0 <= j < i ==> !e[j]
    ensures FirstOne(History(e[..i + 4]), 4)
    ensures Num(Weight(e[..i + 4])) == AddFour(0, History(e[..i + 4]))
  {
    hide Push, Plus, Weight, Ones, History, Back, FourAgo, Free, FirstOne;
    ZerosWeighNothing(e[..i]);
    FirstSteps(e[i + 1], e[i + 2], e[i + 3]);
    WeightFour(e, i);
    FourSteps(e, i);
  }

  /** Four steps more, with the first one still in sight. */
  lemma NextFour(e: seq<bool>, i: nat, steps: nat)
    requires steps in {4, 8, 12, 16} && i + steps + 4 <= |e| && FirstOne(History(e[..i + steps]), steps)
    ensures FirstOne(History(e[..i + steps + 4]), steps + 4)
    ensures FourAgo(History(e[..i + steps + 4])) == History(e[..i + steps])
    ensures Num(Weight(e[..i + steps + 4])) == AddFour(Num(Weight(e[..i + steps])), History(e[..i + steps + 4]))
  {
    hide Push, Plus, Num, Weight, Ones, History, Back, FourAgo, Free, FirstOne;
    FirstOneLeavesRoom(History(e[..i + steps]), steps);
    WeightFour(e, i + steps);
    FirstOneAges(History(e[..i + steps + 4]), steps);
  }

  lemma ShortWeight(e: seq<bool>, i: nat, steps: nat)
    requires steps in {1, 2} && i + steps <= |e| && e[i] && forall j :: 0 <= j < i ==> !e[j]
    ensures Weight(e[..i + steps]) >= steps + 1
  {
    hide Push, Plus, Weight, Ones, History, Back, FourAgo, Free, FirstOne;
    ZerosWeighNothing(e[..i]);
    FirstSteps(steps == 2 && e[i + 1], false, false);
    WeightStep(e, i);
    if steps == 2 { WeightStep(e, i + 1); }
    NumBelow(Weight(e[..i + steps]));
  }

  lemma FourOrEight(e: seq<bool>, i: nat)
    requires i + 4 <= |e| && e[i] && forall j :: 0 <= j < i ==> !e[j]
    ensures Num(Weight(e[..i + 4])) >= 4
    ensures i + 8 <= |e| ==> Num(Weight(e[..i + 8])) >= 5
  {
    hide *;
    FirstFour(e, i);
    FourWeight(History(e[..i + 4]));
    if i + 8 <= |e| {
      NextFour(e, i, 4);
      EightWeight(History(e[..i + 8]));
    }
  }

  lemma SixteenOrTwenty(e: seq<bool>, i: nat)
    requires i + 16 <= |e| && e[i] && forall j :: 0 <= j < i ==> !e[j]
    ensures Num(Weight(e[..i + 16])) >= 7
    ensures i + 20 <= |e| ==> Num(Weight(e[..i + 20])) >= 9
  {
    hide *;
    FirstFour(e, i);
    NextFour(e, i, 4);
    NextFour(e, i, 8);
    NextFour(e, i, 12);
    SixteenWeight(History(e[..i + 16]));
    if i + 20 <= |e| {
      NextFour(e, i, 16);
      TwentyWeight(History(e[..i + 20]));
    }
  }

  /** The column distance of the code: after a first one, any continuation has put out at least 2, 3,
      4, 5, 7 and 9 ones after 1, 2, 4, 8, 16 and 20 steps. */
  lemma ColumnWeight(e: seq<bool>, i: nat, steps: nat)
    requires steps in {1, 2, 4, 8, 16, 20} && i + steps <= |e| && e[i]
    requires forall j :: 0 <= j < i ==> !e[j]
    ensures Weight(e[..i + steps]) >= ColumnDistance(steps)
  {
    hide Num, Weight;
    if steps <= 2 {
      ShortWeight(e, i, steps);
    } else {
      NumBelow(Weight(e[..i + steps]));
      if steps <= 8 { FourOrEight(e, i); } else { SixteenOrTwenty(e, i); }
    }
  }

  /** From a first one on, the code gathers its column distance. */
  lemma WeightFromFirstOne(e: seq<bool>, i: nat)
    requires i < |e| && e[i]
    requires forall j :: 0 <= j < i ==> !e[j]
    ensures Weight(e) >= ColumnDistance(|e| - i)
  {
    hide Weight;
    var n := |e| - i;
    var steps := if n >= 20 then 20 else if n >= 16 then 16 else if n >= 8 then 8 else if n >= 4 then 4 else if n >= 2 then 2 else 1;
    WeightMonotone(e, i + steps);
    ColumnWeight(e, i, steps);
  }
}
