/** Resolving the flexible lengths of one flex line, over the real numbers.  Every pass shares what
    remains among the unfrozen items, on top of what they have, and freezes every item that hits
    its minimum or maximum. */
module FlexLengths {
  import opened RealSums
  import opened FlexLines

  ghost function Targets(items: seq<FlexItem>): seq<real>
    reads items
  {
    seq(|items|, k requires 0 <= k < |items| reads items => items[k].target)
  }

  ghost function Flags(items: seq<FlexItem>): seq<bool>
    reads items
  {
    seq(|items|, k requires 0 <= k < |items| reads items => items[k].frozen)
  }

  function Margins(items: seq<FlexItem>): seq<real> {
    seq(|items|, k requires 0 <= k < |items| => items[k].marginStart + items[k].marginEnd)
  }

  function Hypotheticals(items: seq<FlexItem>): seq<real> {
    seq(|items|, k requires 0 <= k < |items| => items[k].hypothetical)
  }

  /** The items whose hypothetical size is their base size within their limits. */
  ghost predicate Proper(items: seq<FlexItem>) {
    Distinct(items) && forall k :: 0 <= k < |items| ==> items[k].hypothetical == Limited(items[k], items[k].base)
  }

  function Limited(i: FlexItem, x: real): real {
    Clamp(i.minimum, i.maximum, x)
  }

  lemma LimitedTwice(i: FlexItem, x: real)
    ensures Limited(i, Limited(i, x)) == Limited(i, x)
  {
  }

  /** How many items are not frozen yet. */
  function Loose(flags: seq<bool>): nat {
    if flags == [] then 0 else Loose(flags[..|flags| - 1]) + if flags[|flags| - 1] then 0 else 1
  }

  lemma {:induction false} LooseNone(flags: seq<bool>)
    ensures Loose(flags) <= |flags|
    ensures Loose(flags) == 0 <==> forall k :: 0 <= k < |flags| ==> flags[k]
  {
    if flags != [] { LooseNone(flags[..|flags| - 1]); }
  }

  /** Some flags of `a` have been set in `b`. */
  ghost predicate Sets(a: seq<bool>, b: seq<bool>) {
    |a| == |b| && forall k :: 0 <= k < |a| && a[k] ==> b[k]
  }

  lemma {:induction false} LooseAtMost(a: seq<bool>, b: seq<bool>)
    requires Sets(a, b)
    ensures Loose(b) <= Loose(a)
  {
    if a != [] { LooseAtMost(a[..|a| - 1], b[..|b| - 1]); }
  }

  lemma {:induction false} LooseFewer(a: seq<bool>, b: seq<bool>)
    requires Sets(a, b)
    ensures Loose(b) <= Loose(a) && (Loose(b) == Loose(a) ==> a == b)
  {
    LooseAtMost(a, b);
    if a != [] && Loose(b) == Loose(a) {
      var m := |a| - 1;
      LooseAtMost(a[..m], b[..m]);
      LooseFewer(a[..m], b[..m]);
      assert a == a[..m] + [a[m]] && b == b[..m] + [b[m]];
    }
  }

  /** The target lies within the limits of the item. */
  ghost predicate Clamped(i: FlexItem, target: real) {
    target == Limited(i, target)
  }

  function Factor(i: FlexItem, growing: bool): real {
    if growing then i.grow else i.shrink * i.base
  }

  predicate Inflexible(i: FlexItem, growing: bool) {
    || (if growing then i.grow else i.shrink) == 0.0
    || (growing && i.base > i.hypothetical) || (!growing && i.base < i.hypothetical)
  }

  method Assign(i: FlexItem, target: real, ghost items: seq<FlexItem>, ghost k: nat)
    requires Distinct(items) && k < |items| && items[k] == i
    modifies i`target
    ensures Targets(items) == old(Targets(items))[k := target] && Flags(items) == old(Flags(items))
  {
    i.target := target;
  }

  method Freeze(i: FlexItem, ghost items: seq<FlexItem>, ghost k: nat)
    requires Distinct(items) && k < |items| && items[k] == i
    modifies i`frozen
    ensures Flags(items) == old(Flags(items))[k := true] && Targets(items) == old(Targets(items))
  {
    i.frozen := true;
  }

  function AllFactors(items: seq<FlexItem>, growing: bool): seq<real> {
    seq(|items|, k requires 0 <= k < |items| => Factor(items[k], growing))
  }

  /** What the unfrozen items weigh. */
  function LooseWeights(factors: seq<real>, flags: seq<bool>): seq<real>
    requires |factors| == |flags|
  {
    seq(|factors|, k requires 0 <= k < |factors| => if flags[k] then 0.0 else factors[k])
  }

  /** The part of `remaining` that falls to an item. */
  function Share(factor: real, remaining: real, weight: real): real {
    if weight > 0.0 then remaining * factor / weight else 0.0
  }

  function Shares(factors: seq<real>, remaining: real, weight: real): (s: seq<real>)
    ensures |s| == |factors|
  {
    seq(|factors|, m requires 0 <= m < |factors| => Share(factors[m], remaining, weight))
  }

  function Picked(values: seq<real>, loose: seq<nat>): seq<real>
    requires Indices(loose, |values|)
  {
    seq(|loose|, m requires 0 <= m < |loose| => values[loose[m]])
  }

  lemma {:induction false} SumScaled(s: seq<real>, t: seq<real>, c: real)
    requires |s| == |t| && forall k :: 0 <= k < |s| ==> t[k] == c * s[k]
    ensures Sum(t) == c * Sum(s)
  {
    if s != [] {
      var n := |s| - 1;
      SumScaled(s[..n], t[..n], c);
      assert c * (Sum(s[..n]) + s[n]) == c * Sum(s[..n]) + c * s[n];
    }
  }

  /** The shares use up what remains, unless there is no weight to share by. */
  lemma SharesSum(factors: seq<real>, remaining: real, weight: real)
    requires weight == Sum(factors)
    ensures Sum(Shares(factors, remaining, weight)) == if weight > 0.0 then remaining else 0.0
    ensures weight <= 0.0 ==> forall m :: 0 <= m < |factors| ==> Shares(factors, remaining, weight)[m] == 0.0
  {
    if weight > 0.0 {
      var rate := ShareRate(factors, remaining, weight);
      SumScaled(factors, Shares(factors, remaining, weight), rate);
    } else {
      SumZero(Shares(factors, remaining, weight));
    }
  }

  /** Every share is the factor at one rate. */
  lemma ShareRate(factors: seq<real>, remaining: real, weight: real) returns (rate: real)
    requires weight > 0.0
    ensures rate * weight == remaining
    ensures forall k :: 0 <= k < |factors| ==> Shares(factors, remaining, weight)[k] == rate * factors[k]
  {
    rate := remaining / weight;
    Regroup(remaining, weight, weight);
    forall k | 0 <= k < |factors|
      ensures Shares(factors, remaining, weight)[k] == rate * factors[k]
    { ShareScaled(factors[k], remaining, weight); }
  }

  lemma ShareScaled(factor: real, remaining: real, weight: real)
    requires weight > 0.0
    ensures Share(factor, remaining, weight) == remaining / weight * factor
  {
    Regroup(remaining, factor, weight);
  }

  lemma Regroup(a: real, b: real, w: real)
    requires w > 0.0
    ensures a * b / w == a / w * b && a / w * w == a
  {
  }

  /** Where a pass stands after the first `j` unfrozen items: each of them has got its share within
      its limits, the others are as before; `given` is what a clean pass has handed out. */
  ghost predicate Passing(items: seq<FlexItem>, was: seq<real>, now: seq<real>, flagsWas: seq<bool>, flags: seq<bool>,
                          loose: seq<nat>, shares: seq<real>, j: nat, given: real, violations: bool) {
    && |was| == |now| == |flagsWas| == |flags| == |items| && j <= |loose| == |shares|
    && (forall k :: 0 <= k < |items| ==> (flagsWas[k] ==> flags[k] && now[k] == was[k]))
    && (forall m :: 0 <= m < |loose| ==> loose[m] < |items|)
    && (forall m :: 0 <= m < j ==> now[loose[m]] == Limited(items[loose[m]], was[loose[m]] + shares[m]))
    && (forall m :: 0 <= m < j ==> (flags[loose[m]] <==> now[loose[m]] != was[loose[m]] + shares[m]))
    && (forall m :: j <= m < |loose| ==> !flags[loose[m]] && now[loose[m]] == was[loose[m]])
    && (if violations then flags != flagsWas else flags == flagsWas && Sum(now) == Sum(was) + given)
  }

  /** `loose` lists the unfrozen items. */
  ghost predicate Lists(flags: seq<bool>, loose: seq<nat>) {
    && (forall m :: 0 <= m < |loose| ==> loose[m] < |flags| && !flags[loose[m]])
    && (forall k :: 0 <= k < |flags| && !flags[k] ==> k in loose)
    && (forall m, n :: 0 <= m < n < |loose| ==> loose[m] != loose[n])
  }

  lemma PassStep(items: seq<FlexItem>, was: seq<real>, now: seq<real>, flagsWas: seq<bool>, flags: seq<bool>,
                 loose: seq<nat>, shares: seq<real>, j: nat, given: real, violations: bool, candidate: real)
    requires Lists(flagsWas, loose) && Passing(items, was, now, flagsWas, flags, loose, shares, j, given, violations)
    requires j < |loose| && candidate == was[loose[j]] + shares[j]
    ensures var k := loose[j];
            var target := Limited(items[k], candidate);
            && k < |items| && now[k] == was[k] && !flags[k]
            && (target == candidate ==>
                  Passing(items, was, now[k := target], flagsWas, flags, loose, shares, j + 1, given + shares[j],
                          violations))
            && (target != candidate ==>
                  Passing(items, was, now[k := target], flagsWas, flags[k := true], loose, shares, j + 1,
                          given + shares[j], true))
  {
    hide Limited, Sum;
    SumPut(now, loose[j], Limited(items[loose[j]], candidate));
  }

  /** Hands the shares to the unfrozen items; the last of them gets whatever remains. */
  method Distribute(items: seq<FlexItem>, loose: seq<nat>, shares: seq<real>, remaining: real, weight: real)
    returns (violations: bool)
    requires Distinct(items) && Lists(Flags(items), loose) && loose != [] && |shares| == |loose|
    requires Sum(shares) == if weight > 0.0 then remaining else 0.0
    requires weight <= 0.0 ==> forall m :: 0 <= m < |shares| ==> shares[m] == 0.0
    modifies items
    ensures Passing(items, old(Targets(items)), Targets(items), old(Flags(items)), Flags(items), loose, shares, |loose|,
                    if weight > 0.0 then remaining else 0.0, violations)
  {
    violations := false;
    var spent: real := 0.0;
    ghost var was, flagsWas, given := Targets(items), Flags(items), 0.0;
    SumWhole(shares);
    for j := 0 to |loose|
      invariant Passing(items, was, Targets(items), flagsWas, Flags(items), loose, shares, j, given, violations)
      invariant given == Sum(shares[..j]) && (weight > 0.0 && j < |loose| ==> spent == given)
    {
      SumNext(shares, j);
      var share := if weight <= 0.0 then 0.0 else if j == |loose| - 1 then remaining - spent else shares[j];
      violations := HandOut(items, loose, j, share, violations, was, flagsWas, shares, given);
      spent, given := spent + share, given + shares[j];
    }
  }

  /** Gives one unfrozen item its share, within its limits. */
  method HandOut(items: seq<FlexItem>, loose: seq<nat>, j: nat, share: real, before: bool,
                 ghost was: seq<real>, ghost flagsWas: seq<bool>, ghost shares: seq<real>, ghost given: real)
    returns (violations: bool)
    requires Distinct(items) && Lists(flagsWas, loose) && j < |loose| == |shares| && share == shares[j]
    requires Passing(items, was, Targets(items), flagsWas, Flags(items), loose, shares, j, given, before)
    modifies items
    ensures Passing(items, was, Targets(items), flagsWas, Flags(items), loose, shares, j + 1, given + shares[j],
                    violations)
  {
    ghost var now, flags := Targets(items), Flags(items);
    var item := items[loose[j]];
    var candidate := item.target + share;
    var clamped := Limited(item, candidate);
    PassStep(items, was, now, flagsWas, flags, loose, shares, j, given, before, candidate);
    violations := before;
    Assign(item, clamped, items, loose[j]);
    if clamped != candidate {
      Freeze(item, items, loose[j]);
      violations := true;
    }
  }

  lemma {:induction false} SumZero(s: seq<real>)
    requires forall k :: 0 <= k < |s| ==> s[k] == 0.0
    ensures Sum(s) == 0.0
  {
    if s != [] { SumZero(s[..|s| - 1]); }
  }

  /** What the items take at present, what their factors add up to, and who is not frozen. */
  method Survey(items: seq<FlexItem>, factors: seq<real>) returns (used: real, weight: real, loose: seq<nat>)
    requires |factors| == |items|
    ensures used == Sum(Targets(items)) && Lists(Flags(items), loose)
    ensures loose == [] <==> Loose(Flags(items)) == 0
    ensures weight == Sum(Picked(factors, loose)) == Sum(LooseWeights(factors, Flags(items)))
  {
    used, weight, loose := 0.0, 0.0, [];
    ghost var targets, flags := Targets(items), Flags(items);
    ghost var weights := LooseWeights(factors, flags);
    SumWhole(targets);
    SumWhole(weights);
    for k := 0 to |items|
      invariant used == Sum(targets[..k]) && Surveyed(flags, factors, weights, k, weight, loose)
    {
      SumNext(targets, k);
      SurveyNext(flags, factors, weights, k, weight, loose);
      used := used + items[k].target;
      if !items[k].frozen {
        weight := weight + factors[k];
        loose := loose + [k];
      }
    }
    assert flags[..|items|] == flags;
    LooseNone(flags);
    assert loose != [] ==> !flags[loose[0]];
  }

  /** The first `k` items have been looked at. */
  ghost predicate Surveyed(flags: seq<bool>, factors: seq<real>, weights: seq<real>, k: nat, weight: real,
                           loose: seq<nat>) {
    && k <= |flags| == |factors| && weights == LooseWeights(factors, flags)
    && Lists(flags[..k], loose) && Indices(loose, |factors|)
    && weight == Sum(Picked(factors, loose)) == Sum(weights[..k])
  }

  lemma SurveyNext(flags: seq<bool>, factors: seq<real>, weights: seq<real>, k: nat, weight: real, loose: seq<nat>)
    requires Surveyed(flags, factors, weights, k, weight, loose) && k < |flags|
    ensures flags[k] ==> Surveyed(flags, factors, weights, k + 1, weight, loose)
    ensures !flags[k] ==> Surveyed(flags, factors, weights, k + 1, weight + factors[k], loose + [k])
  {
    hide Sum, Lists, Picked;
    SumNext(weights, k);
    assert flags[..k + 1] == flags[..k] + [flags[k]];
    ListsNext(flags[..k], flags[k], loose);
    PickedNext(factors, loose, k);
  }

  lemma PickedNext(values: seq<real>, loose: seq<nat>, k: nat)
    requires k < |values| && Indices(loose, |values|)
    ensures Indices(loose + [k], |values|)
    ensures Sum(Picked(values, loose + [k])) == Sum(Picked(values, loose)) + values[k]
  {
    assert Picked(values, loose + [k])[..|loose|] == Picked(values, loose);
  }

  lemma ListsNext(flags: seq<bool>, flag: bool, loose: seq<nat>)
    requires Lists(flags, loose)
    ensures Lists(flags + [flag], if flag then loose else loose + [|flags|])
  {
    var more := loose + [|flags|];
    assert more[|loose|] == |flags|;
    assert forall x | x in loose :: x in more;
  }

  method FreezeAll(items: seq<FlexItem>, loose: seq<nat>)
    requires Distinct(items) && Lists(Flags(items), loose)
    modifies items
    ensures Targets(items) == old(Targets(items)) && forall k :: 0 <= k < |items| ==> Flags(items)[k]
  {
    ghost var was := Flags(items);
    assert loose[0..] == loose;
    for j := 0 to |loose|
      invariant Targets(items) == old(Targets(items))
      invariant forall k :: 0 <= k < |items| ==> Flags(items)[k] || k in loose[j..]
    {
      assert loose[j..] == [loose[j]] + loose[j + 1..];
      Freeze(items[loose[j]], items, loose[j]);
    }
    assert loose[|loose|..] == [];
  }

  /** How the last pass ended: whether it found no violation, and the weight it shared by. */
  datatype Ending = Ending(clean: bool, weight: real)

  /** Every unfrozen item has got its share within its limits.  Unless the sharing is done with this,
      exactly those items have been frozen that did not get the whole of it. */
  ghost predicate Given(items: seq<FlexItem>, was: seq<real>, now: seq<real>, flagsWas: seq<bool>, flags: seq<bool>,
                        shares: seq<real>, done: bool) {
    && |was| == |now| == |flagsWas| == |flags| == |items| == |shares|
    && (forall k :: 0 <= k < |items| && !flagsWas[k] ==> now[k] == Limited(items[k], was[k] + shares[k]))
    && (forall k :: 0 <= k < |items| && !flagsWas[k] && !done ==> (flags[k] <==> now[k] != was[k] + shares[k]))
    && (done ==> forall k :: 0 <= k < |items| ==> flags[k])
  }

  lemma PassGives(items: seq<FlexItem>, was: seq<real>, now: seq<real>, flagsWas: seq<bool>, flags: seq<bool>,
                  loose: seq<nat>, allShares: seq<real>, given: real, violations: bool)
    requires |allShares| == |items| && Lists(flagsWas, loose) && |flagsWas| == |items|
    requires Passing(items, was, now, flagsWas, flags, loose, Picked(allShares, loose), |loose|, given, violations)
    ensures Given(items, was, now, flagsWas, flags, allShares, false)
    ensures Passed(items, was, now, flagsWas, flags)
  {
    forall k | 0 <= k < |items| && !flagsWas[k]
      ensures now[k] == Limited(items[k], was[k] + allShares[k]) && Clamped(items[k], now[k])
      ensures flags[k] <==> now[k] != was[k] + allShares[k]
    {
      var m :| 0 <= m < |loose| && loose[m] == k;
      assert Picked(allShares, loose)[m] == allShares[k];
      LimitedTwice(items[k], was[k] + allShares[k]);
    }
  }

  /** What a pass does to targets and flags. */
  ghost predicate Passed(items: seq<FlexItem>, was: seq<real>, now: seq<real>, flagsWas: seq<bool>, flags: seq<bool>) {
    && |was| == |now| == |flagsWas| == |flags| == |items|
    && (forall k :: 0 <= k < |items| && flagsWas[k] ==> flags[k] && now[k] == was[k])
    && (forall k :: 0 <= k < |items| && !flagsWas[k] ==> Clamped(items[k], now[k]))
  }

  /** The sharing of one pass, when some item is not frozen. */
  method ShareRound(items: seq<FlexItem>, loose: seq<nat>, shares: seq<real>, remaining: real, weight: real,
                    ghost allShares: seq<real>)
    returns (violations: bool)
    requires Distinct(items) && Lists(Flags(items), loose) && loose != [] && |allShares| == |items|
    requires shares == Picked(allShares, loose)
    requires Sum(shares) == if weight > 0.0 then remaining else 0.0
    requires weight <= 0.0 ==> forall m :: 0 <= m < |shares| ==> shares[m] == 0.0
    modifies items
    ensures Passed(items, old(Targets(items)), Targets(items), old(Flags(items)), Flags(items))
    ensures Given(items, old(Targets(items)), Targets(items), old(Flags(items)), Flags(items), allShares, !violations)
    ensures if violations then Loose(Flags(items)) < old(Loose(Flags(items))) else
              Loose(Flags(items)) == 0
              && Sum(Targets(items)) == old(Sum(Targets(items))) + if weight > 0.0 then remaining else 0.0
  {
    ghost var was, flagsWas := Targets(items), Flags(items);
    violations := Distribute(items, loose, shares, remaining, weight);
    PassGives(items, was, Targets(items), flagsWas, Flags(items), loose, allShares,
              if weight > 0.0 then remaining else 0.0, violations);
    if !violations {
      FreezeAll(items, loose);
    }
    LooseFewer(flagsWas, Flags(items));
    LooseNone(Flags(items));
  }

  lemma NothingLoose(items: seq<FlexItem>, targets: seq<real>, flags: seq<bool>, shares: seq<real>)
    requires |targets| == |flags| == |shares| == |items| && Loose(flags) == 0
    ensures Passed(items, targets, targets, flags, flags) && Given(items, targets, targets, flags, flags, shares, true)
  {
    LooseNone(flags);
  }

  /** One pass over the line: every unfrozen item gets its share of what remains, within its
      limits. */
  method Pass(items: seq<FlexItem>, factors: seq<real>, itemSpace: real)
    returns (done: bool, ending: Ending, ghost shares: seq<real>)
    requires Distinct(items) && |factors| == |items|
    modifies items
    ensures Passed(items, old(Targets(items)), Targets(items), old(Flags(items)), Flags(items))
    ensures ending.weight == Sum(LooseWeights(factors, old(Flags(items))))
    ensures shares == Shares(factors, itemSpace - old(Sum(Targets(items))), ending.weight)
    ensures Given(items, old(Targets(items)), Targets(items), old(Flags(items)), Flags(items), shares, done)
    ensures if done then Loose(Flags(items)) == 0 else Loose(Flags(items)) < old(Loose(Flags(items)))
    ensures done && old(Loose(Flags(items))) > 0 ==> ending.clean
    ensures ending.clean ==>
      done && Sum(Targets(items)) == if ending.weight > 0.0 then itemSpace else old(Sum(Targets(items)))
  {
    hide Share, Shares, Sum, Loose, Picked, Lists, LooseWeights, Passed, Given;
    var used, weight, loose := Survey(items, factors);
    shares := Shares(factors, itemSpace - used, weight);
    if |loose| == 0 {
      NothingLoose(items, Targets(items), Flags(items), shares);
      return true, Ending(false, weight), shares;
    }
    var portions := Portions(factors, loose, itemSpace - used, weight);
    var violations := ShareRound(items, loose, portions, itemSpace - used, weight, shares);
    return !violations, Ending(!violations, weight), shares;
  }

  /** The shares of the unfrozen items. */
  method Portions(factors: seq<real>, loose: seq<nat>, remaining: real, weight: real) returns (portions: seq<real>)
    requires Indices(loose, |factors|) && weight == Sum(Picked(factors, loose))
    ensures portions == Picked(Shares(factors, remaining, weight), loose)
    ensures Sum(portions) == if weight > 0.0 then remaining else 0.0
    ensures weight <= 0.0 ==> forall m :: 0 <= m < |portions| ==> portions[m] == 0.0
  {
    SharesSum(Picked(factors, loose), remaining, weight);
    portions := Shares(Picked(factors, loose), remaining, weight);
    assert portions == Picked(Shares(factors, remaining, weight), loose);
  }

  function Gaps(n: nat, gap: real): real {
    gap * (n - 1) as real
  }

  /** Sets every target to the base size and finds the space for the items. */
  method Begin(items: seq<FlexItem>, available: real, gap: real) returns (itemSpace: real, sumHypothetical: real)
    requires Distinct(items)
    modifies items
    ensures itemSpace == available - Gaps(|items|, gap) - Sum(Margins(items))
      && sumHypothetical == Sum(Hypotheticals(items))
    ensures forall k :: 0 <= k < |items| ==> items[k].target == items[k].base && !items[k].frozen
  {
    itemSpace, sumHypothetical := available - Gaps(|items|, gap), 0.0;
    ghost var margins, sizes := Margins(items), Hypotheticals(items);
    for k := 0 to |items|
      invariant itemSpace == available - Gaps(|items|, gap) - Sum(margins[..k]) && sumHypothetical == Sum(sizes[..k])
      invariant forall m :: 0 <= m < k ==> items[m].target == items[m].base && !items[m].frozen
    {
      assert margins[..k + 1][..k] == margins[..k] && sizes[..k + 1][..k] == sizes[..k];
      itemSpace := itemSpace - (items[k].marginStart + items[k].marginEnd);
      items[k].target := items[k].base;
      items[k].frozen := false;
      sumHypothetical := sumHypothetical + items[k].hypothetical;
    }
    assert margins[..|items|] == margins && sizes[..|items|] == sizes;
  }

  /** Inflexible items take their hypothetical size at once. */
  method FreezeInflexible(items: seq<FlexItem>, growing: bool)
    requires Distinct(items) && forall k :: 0 <= k < |items| ==> items[k].target == items[k].base && !items[k].frozen
    modifies items
    ensures forall k :: 0 <= k < |items| ==>
      if Inflexible(items[k], growing) then items[k].frozen && items[k].target == items[k].hypothetical
      else !items[k].frozen && items[k].target == items[k].base
  {
    for k := 0 to |items|
      invariant forall m :: 0 <= m < k ==>
        if Inflexible(items[m], growing) then items[m].frozen && items[m].target == items[m].hypothetical
        else !items[m].frozen && items[m].target == items[m].base
      invariant forall m :: k <= m < |items| ==> items[m].target == items[m].base && !items[m].frozen
    {
      if Inflexible(items[k], growing) {
        items[k].target := items[k].hypothetical;
        items[k].frozen := true;
      }
    }
  }

  /** The target is what the base and a rate of growing or shrinking give. */
  ghost predicate Rated(i: FlexItem, growing: bool, target: real, rate: real) {
    target == i.base + rate * Factor(i, growing)
  }

  ghost predicate AtLimit(i: FlexItem, target: real) {
    target == i.minimum || (0.0 <= i.maximum && target == i.maximum)
  }

  /** A flexible item that takes part in the sharing and ends strictly within its limits. */
  ghost predicate Inside(i: FlexItem, growing: bool, target: real) {
    !Inflexible(i, growing) && Factor(i, growing) > 0.0 && !AtLimit(i, target)
  }

  ghost predicate NoNegative(items: seq<FlexItem>, growing: bool) {
    forall k :: 0 <= k < |items| ==> Factor(items[k], growing) >= 0.0
  }

  /** Where the line stands between two passes: every inflexible item is frozen at its hypothetical
      size, the others have grown or shrunk at one rate unless they are frozen at a limit, and after
      the first pass every target is within its limits. */
  ghost predicate Between(items: seq<FlexItem>, growing: bool, targets: seq<real>, flags: seq<bool>, rate: real,
                          passes: nat, done: bool, ending: Ending, itemSpace: real) {
    && |targets| == |flags| == |items| && passes <= |items| + 1
    && (if done then Loose(flags) == 0 else Loose(flags) + passes <= |items| && !ending.clean)
    && (forall k :: 0 <= k < |items| && Inflexible(items[k], growing) ==>
         flags[k] && targets[k] == items[k].hypothetical)
    && (forall k :: 0 <= k < |items| ==> Clamped(items[k], targets[k]) || (!flags[k] && passes == 0))
    && (forall k :: 0 <= k < |items| && !Inflexible(items[k], growing) ==>
          Rated(items[k], growing, targets[k], rate) || (flags[k] && AtLimit(items[k], targets[k])))
    && (!done ==> forall k :: 0 <= k < |items| && !Inflexible(items[k], growing) && flags[k] ==>
          AtLimit(items[k], targets[k]))
    && (done && NoNegative(items, growing) ==>
          forall k :: 0 <= k < |items| && Inside(items[k], growing, targets[k]) ==> ending.clean && ending.weight > 0.0)
    && (ending.clean && ending.weight > 0.0 ==> Sum(targets) == itemSpace)
  }

  lemma Begun(items: seq<FlexItem>, growing: bool, itemSpace: real)
    requires Proper(items) && forall k :: 0 <= k < |items| ==>
      if Inflexible(items[k], growing) then items[k].frozen && items[k].target == items[k].hypothetical
      else !items[k].frozen && items[k].target == items[k].base
    ensures Between(items, growing, Targets(items), Flags(items), 0.0, 0, false, Ending(false, 0.0), itemSpace)
  {
    LooseNone(Flags(items));
  }

  /** The shares of one pass are the weights at one rate. */
  lemma OneRate(items: seq<FlexItem>, growing: bool, remaining: real, weight: real) returns (step: real)
    ensures forall k :: 0 <= k < |items| ==>
      Shares(AllFactors(items, growing), remaining, weight)[k] == step * Factor(items[k], growing)
  {
    var factors := AllFactors(items, growing);
    if weight > 0.0 {
      step := ShareRate(factors, remaining, weight);
    } else {
      step := 0.0;
    }
  }

  lemma RateAdds(i: FlexItem, growing: bool, target: real, share: real, rate: real, step: real)
    requires Rated(i, growing, target, rate) && share == step * Factor(i, growing)
    ensures Rated(i, growing, target + share, rate + step)
  {
    var f := Factor(i, growing);
    assert rate * f + step * f == (rate + step) * f;
  }

  /** What a limit changes is put at the limit. */
  lemma LimitedAtLimit(i: FlexItem, x: real)
    ensures Limited(i, x) == x || AtLimit(i, Limited(i, x))
  {
  }

  /** A pass adds its rate to the rate so far. */
  lemma PassRates(items: seq<FlexItem>, growing: bool, was: seq<real>, flagsWas: seq<bool>, now: seq<real>,
                  flags: seq<bool>, shares: seq<real>, done: bool, rate: real, step: real, k: nat)
    requires Passed(items, was, now, flagsWas, flags) && Given(items, was, now, flagsWas, flags, shares, done)
    requires k < |items| && shares[k] == step * Factor(items[k], growing)
    requires if flagsWas[k] then AtLimit(items[k], was[k]) else Rated(items[k], growing, was[k], rate)
    ensures Rated(items[k], growing, now[k], rate + step) || (flags[k] && AtLimit(items[k], now[k]))
    ensures flagsWas[k] || (flags[k] && !done) ==> AtLimit(items[k], now[k])
  {
    hide Limited, Factor, AtLimit, Rated, Clamped;
    if !flagsWas[k] {
      RateAdds(items[k], growing, was[k], shares[k], rate, step);
      LimitedAtLimit(items[k], was[k] + shares[k]);
    }
  }

  /** While some item with a positive weight is loose, and no weight is negative, the loose items
      weigh something. */
  lemma LooseWeigh(factors: seq<real>, flags: seq<bool>, k: nat)
    requires k < |factors| == |flags| && !flags[k] && factors[k] > 0.0
    requires forall m :: 0 <= m < |factors| ==> factors[m] >= 0.0
    ensures Sum(LooseWeights(factors, flags)) > 0.0
  {
    var w := LooseWeights(factors, flags);
    var zeros := seq(|w|, i requires 0 <= i < |w| => 0.0);
    SumZero(zeros);
    SumBelow(zeros, w);
    assert zeros[k] != w[k];
  }

  lemma PassKeeps(items: seq<FlexItem>, growing: bool, was: seq<real>, flagsWas: seq<bool>, now: seq<real>,
                  flags: seq<bool>, rate: real, step: real, shares: seq<real>,
                  passes: nat, before: Ending, done: bool, ending: Ending, itemSpace: real)
    requires Between(items, growing, was, flagsWas, rate, passes, false, before, itemSpace)
    requires Passed(items, was, now, flagsWas, flags) && Given(items, was, now, flagsWas, flags, shares, done)
    requires forall k :: 0 <= k < |items| ==> shares[k] == step * Factor(items[k], growing)
    requires if done then Loose(flags) == 0 else Loose(flags) < Loose(flagsWas) && !ending.clean
    requires done && Loose(flagsWas) > 0 ==> ending.clean
    requires ending.weight == Sum(LooseWeights(AllFactors(items, growing), flagsWas))
    requires ending.clean && ending.weight > 0.0 ==> Sum(now) == itemSpace
    ensures passes <= |items|
    ensures Between(items, growing, now, flags, rate + step, passes + 1, done, ending, itemSpace)
  {
    hide Loose, Sum, Factor, AtLimit, Rated, LooseWeights;
    forall k | 0 <= k < |items| && !Inflexible(items[k], growing)
      ensures Rated(items[k], growing, now[k], rate + step) || (flags[k] && AtLimit(items[k], now[k]))
      ensures flagsWas[k] ==> AtLimit(items[k], now[k])
      ensures !done && flags[k] ==> AtLimit(items[k], now[k])
    {
      PassRates(items, growing, was, flagsWas, now, flags, shares, done, rate, step, k);
    }
    if done && NoNegative(items, growing) {
      forall k | 0 <= k < |items| && Inside(items[k], growing, now[k])
        ensures ending.clean && ending.weight > 0.0
      {
        assert !flagsWas[k];
        LooseNone(flagsWas);
        LooseWeigh(AllFactors(items, growing), flagsWas, k);
      }
    }
  }

  /** What becomes of an item: it is within its limits, of which a maximum is the stronger one; when
      it takes part in the sharing it has grown by its factor, or shrunk by its factor and base, at the
      given rate or stands at a limit, and otherwise it has its hypothetical size. */
  ghost predicate Settled(i: FlexItem, growing: bool, rate: real)
    reads i
  {
    && i.frozen
    && (0.0 <= i.maximum ==> i.target <= i.maximum)
    && (i.target < i.minimum ==> 0.0 <= i.maximum && i.target == i.maximum)
    && if (if growing then i.grow == 0.0 || i.base > i.hypothetical else i.shrink == 0.0 || i.base < i.hypothetical)
       then i.target == i.hypothetical
       else i.target == i.minimum || (0.0 <= i.maximum && i.target == i.maximum)
            || i.target == i.base + rate * if growing then i.grow else i.shrink * i.base
  }

  /** An item with a positive weight in the sharing that stands at no limit. */
  ghost predicate Free(i: FlexItem, growing: bool)
    reads i
  {
    && i.target != i.minimum && i.target != i.maximum
    && if growing then i.grow > 0.0 && i.base <= i.hypothetical else i.shrink * i.base > 0.0 && i.base >= i.hypothetical
  }

  /** The weight of the item is not negative. */
  predicate Usual(i: FlexItem, growing: bool) {
    if growing then i.grow >= 0.0 else i.shrink * i.base >= 0.0
  }

  lemma ItemSettles(i: FlexItem, growing: bool, rate: real)
    requires i.frozen && Clamped(i, i.target) && (Inflexible(i, growing) ==> i.target == i.hypothetical)
    requires !Inflexible(i, growing) ==> Rated(i, growing, i.target, rate) || AtLimit(i, i.target)
    ensures Settled(i, growing, rate)
    ensures Free(i, growing) ==> Inside(i, growing, i.target)
  {
  }

  lemma AllResolved(items: seq<FlexItem>, growing: bool, rate: real, passes: nat, done: bool, ending: Ending,
                    itemSpace: real)
    requires Between(items, growing, Targets(items), Flags(items), rate, passes, done, ending, itemSpace)
    requires done || passes > |items|
    ensures passes <= |items| + 1 && forall k :: 0 <= k < |items| ==> Settled(items[k], growing, rate)
    ensures (exists k :: 0 <= k < |items| && Free(items[k], growing))
      && (forall k :: 0 <= k < |items| ==> Usual(items[k], growing))
      ==> Sum(Targets(items)) == itemSpace
    ensures ending.clean && ending.weight > 0.0 ==> Sum(Targets(items)) == itemSpace
  {
    hide Sum, Settled, Free, Inside, Rated, AtLimit, Clamped, Inflexible, Limited;
    LooseNone(Flags(items));
    assert forall k :: 0 <= k < |items| ==> Flags(items)[k] == items[k].frozen && Targets(items)[k] == items[k].target;
    forall k | 0 <= k < |items|
      ensures Settled(items[k], growing, rate)
      ensures Free(items[k], growing) ==> Inside(items[k], growing, items[k].target)
    { ItemSettles(items[k], growing, rate); }
  }

  /** Resolves the lengths of one line.  The passes end, with every item frozen, before their
      number is cut off.  There is one rate at which items grow or shrink; and when some item with a
      positive weight stands at no limit, items, margins and gaps fill the available space exactly. */
  method ResolveFlexibleLengths(items: seq<FlexItem>, available: real, gap: real)
    returns (ending: Ending, passes: nat, ghost growing: bool, ghost rate: real)
    requires Proper(items)
    modifies items
    ensures passes <= |items| + 1 && forall k :: 0 <= k < |items| ==> Settled(items[k], growing, rate)
    ensures items != [] ==> (growing <==> Length(items, gap) < available)
    ensures (exists k :: 0 <= k < |items| && Free(items[k], growing))
      && (forall k :: 0 <= k < |items| ==> Usual(items[k], growing))
      ==> Sum(Targets(items)) + Sum(Margins(items)) + Gaps(|items|, gap) == available
    ensures items != [] && ending.clean && ending.weight > 0.0 ==>
      Sum(Targets(items)) + Sum(Margins(items)) + Gaps(|items|, gap) == available
  {
    hide Distinct;
    hide Between, Passed, Given, Inflexible, Clamped, Loose, Sum, Gaps, Margins, Hypotheticals, Shares, LooseWeights;
    hide Length, Targets, Flags, Factor, Rated, AtLimit, Inside, NoNegative, Settled, Free, Usual;
    ending, passes, growing, rate := Ending(false, 0.0), 0, false, 0.0;
    if |items| == 0 {
      return;
    }
    var itemSpace, sumHypothetical := Begin(items, available, gap);
    var grows := sumHypothetical < itemSpace;
    var factors := AllFactors(items, grows);
    FreezeInflexible(items, grows);
    growing := grows;
    Begun(items, grows, itemSpace);
    var done := false;
    while passes <= |items| && !done
      invariant Between(items, grows, Targets(items), Flags(items), rate, passes, done, ending, itemSpace)
      decreases |items| + 1 - passes
    {
      ghost var was, flagsWas, before, shares := Targets(items), Flags(items), ending, [];
      done, ending, shares := Pass(items, factors, itemSpace);
      ghost var step := OneRate(items, grows, itemSpace - Sum(was), ending.weight);
      PassKeeps(items, grows, was, flagsWas, Targets(items), Flags(items), rate, step, shares,
                passes, before, done, ending, itemSpace);
      passes, rate := passes + 1, rate + step;
    }
    AllResolved(items, grows, rate, passes, done, ending, itemSpace);
    LengthIs(items, gap);
  }

  /** The length by which lines are broken is the one that decides between growing and shrinking. */
  lemma {:induction false} LengthIsSum(line: seq<FlexItem>, gap: real)
    requires line != []
    ensures Length(line, gap) == Sum(Hypotheticals(line)) + Sum(Margins(line)) + gap * (|line| - 1) as real
    decreases |line|
  {
    var n := |line| - 1;
    assert Hypotheticals(line)[..n] == Hypotheticals(line[..n]) && Margins(line)[..n] == Margins(line[..n]);
    if n > 0 {
      LengthIsSum(line[..n], gap);
      assert gap * n as real == gap * (n - 1) as real + gap;
    }
  }

  lemma LengthIs(line: seq<FlexItem>, gap: real)
    requires line != []
    ensures Length(line, gap) == Sum(Hypotheticals(line)) + Sum(Margins(line)) + Gaps(|line|, gap)
  {
    LengthIsSum(line, gap);
  }
}
