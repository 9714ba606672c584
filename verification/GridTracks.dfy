/** Sizing the tracks of one grid axis, over the real numbers: base sizes, the distribution of free
    space over flexible or automatic tracks, and the growth for spanning items. */
module GridTracks {
  import opened RealSums
  import opened Options

  datatype Kind = Auto | Length | Fraction | MinContent | MaxContent | AutoRepeat

  datatype LengthPercentage = LengthPercentage(pixels: real, percentage: real) {
    function Resolve(basis: real): real {
      pixels + percentage * basis / 100.0
    }
  }

  datatype Track = Track(
    kind: Kind, value: LengthPercentage, flex: real,
    minSet: bool, minKind: Kind, minValue: LengthPercentage, fitLimit: Option<LengthPercentage>)

  const AUTO_TRACK := Track(Auto, LengthPercentage(0.0, 0.0), 0.0, false, Auto, LengthPercentage(0.0, 0.0), None)

  function TrackAt(explicit: seq<Track>, implicit: seq<Track>, index: nat): Track {
    if index < |explicit| then explicit[index]
    else if implicit != [] then implicit[(index - |explicit|) % |implicit|]
    else AUTO_TRACK
  }

  function Contribution(values: seq<real>, index: nat): real {
    if index < |values| then values[index] else 0.0
  }

  /** What the content of the tracks asks for, and the space there is. */
  datatype Demand = Demand(basis: real, definite: bool, minContent: seq<real>, maxContent: seq<real>)

  function Minimum(track: Track, index: nat, d: Demand): real {
    match track.minKind
    case Length =>
      if track.minValue.percentage == 0.0 || d.definite then Max(track.minValue.Resolve(d.basis), 0.0)
      else Contribution(d.maxContent, index)
    case MinContent => Contribution(d.minContent, index)
    case MaxContent => Contribution(d.maxContent, index)
    case Auto => Contribution(d.maxContent, index)
    case _ => 0.0
  }

  function Intrinsic(track: Track, index: nat, d: Demand): real {
    match track.kind
    case Length =>
      if track.value.percentage == 0.0 || d.definite then Max(track.value.Resolve(d.basis), 0.0)
      else Contribution(d.maxContent, index)
    case MinContent => Contribution(d.minContent, index)
    case MaxContent =>
      var size := Contribution(d.maxContent, index);
      if track.fitLimit.Some?
      then Min(size, Max(track.fitLimit.value.Resolve(d.basis), Contribution(d.minContent, index))) else size
    case Fraction => Contribution(d.minContent, index)
    case Auto => Contribution(d.maxContent, index)
    case AutoRepeat => 0.0
  }

  /** The base size of a track. */
  function Base(track: Track, index: nat, d: Demand): real {
    if track.minSet then Max(Intrinsic(track, index, d), Minimum(track, index, d)) else Intrinsic(track, index, d)
  }

  /** Tracks beyond the explicit ones are the implicit ones in turn, or automatic. */
  lemma FirstTurn(explicit: seq<Track>, implicit: seq<Track>, index: nat)
    ensures index < |explicit| ==> TrackAt(explicit, implicit, index) == explicit[index]
    ensures index < |implicit| ==> TrackAt(explicit, implicit, |explicit| + index) == implicit[index]
    ensures implicit == [] && |explicit| <= index ==>
      var t := TrackAt(explicit, implicit, index); t.kind.Auto? && !t.minSet && t.fitLimit.None?
  {
    if index < |implicit| {
      assert |explicit| + index - |explicit| == index;
      OneRemainder(index / |implicit|, index % |implicit|, 0, index, |implicit|);
    }
  }

  /** And so they go on in turn. */
  lemma NextTurn(explicit: seq<Track>, implicit: seq<Track>, index: nat)
    requires implicit != [] && |explicit| <= index
    ensures TrackAt(explicit, implicit, index + |implicit|) == TrackAt(explicit, implicit, index)
  {
    var a, n := index - |explicit|, |implicit|;
    AnotherTurn(a, n);
    assert index + n - |explicit| == a + n;
  }

  lemma AnotherTurn(a: nat, n: nat)
    requires n > 0
    ensures (a + n) % n == a % n
  {
    var q, r := a / n, a % n;
    Apart(q + 1, q, n);
    assert a == q * n + r;
    OneRemainder((a + n) / n, (a + n) % n, q + 1, r, n);
  }

  lemma OneRemainder(p: int, r: int, q: int, t: int, n: nat)
    requires 0 <= r < n && 0 <= t < n && p * n + r == q * n + t
    ensures r == t
  {
    if p < q { Multiple(q - p, n); Apart(q, p, n); }
    if q < p { Multiple(p - q, n); Apart(p, q, n); }
  }

  lemma Multiple(k: int, n: nat)
    requires k >= 1
    ensures k * n >= n
  {
  }

  lemma Apart(p: int, q: int, n: int)
    ensures (p - q) * n == p * n - q * n
  {
  }

  /** The size holds the length, or the content when the length is a percentage of an unknown basis. */
  ghost predicate Holds(v: LengthPercentage, d: Demand, content: real, size: real) {
    (if v.percentage == 0.0 || d.definite then v.Resolve(d.basis) else content) <= size
  }

  /** The size is one that the track's sizing functions allow, in terms of what its style says and
      its content asks for. */
  ghost predicate Allows(t: Track, index: nat, d: Demand, size: real) {
    var least := if index < |d.minContent| then d.minContent[index] else 0.0;
    var most := if index < |d.maxContent| then d.maxContent[index] else 0.0;
    && 0.0 <= size
    && (match t.kind
        case Length => Holds(t.value, d, most, size)
        case MinContent => least <= size
        case MaxContent =>
          most <= size || (t.fitLimit.Some? && least <= size && t.fitLimit.value.Resolve(d.basis) <= size)
        case Fraction => least <= size
        case Auto => most <= size
        case AutoRepeat => true)
    && (t.minSet ==>
          match t.minKind
          case Length => Holds(t.minValue, d, most, size)
          case MinContent => least <= size
          case MaxContent => most <= size
          case Auto => most <= size
          case _ => true)
  }

  /** The base size is the least size that is allowed. */
  lemma BaseLeast(t: Track, index: nat, d: Demand, size: real)
    requires (forall i :: 0 <= i < |d.minContent| ==> d.minContent[i] >= 0.0)
      && (forall i :: 0 <= i < |d.maxContent| ==> d.maxContent[i] >= 0.0)
    ensures Allows(t, index, d, size) <==> Base(t, index, d) <= size
  {
    hide LengthPercentage.Resolve;
  }

  /** The track has the least size that is allowed. */
  ghost predicate Least(t: Track, index: nat, d: Demand, size: real) {
    Allows(t, index, d, size) && forall other :: Allows(t, index, d, other) ==> size <= other
  }

  /** What becomes of a track: its size is allowed, and the least that is unless the track takes part
      in sharing free space; so a fixed track has its length, whatever its content asks for. */
  ghost predicate Honoured(t: Track, index: nat, d: Demand, size: real) {
    && Allows(t, index, d, size) && (!t.kind.Auto? && !t.kind.Fraction? ==> Least(t, index, d, size))
    && (t.kind.Length? && !t.minSet && (t.value.percentage == 0.0 || d.definite) ==>
          size == Max(t.value.pixels + t.value.percentage * d.basis / 100.0, 0.0))
  }

  lemma BaseIsLeast(t: Track, index: nat, d: Demand)
    requires (forall i :: 0 <= i < |d.minContent| ==> d.minContent[i] >= 0.0)
      && (forall i :: 0 <= i < |d.maxContent| ==> d.maxContent[i] >= 0.0)
    ensures Least(t, index, d, Base(t, index, d))
  {
    BaseLeast(t, index, d, Base(t, index, d));
    forall other | Allows(t, index, d, other)
      ensures Base(t, index, d) <= other
    { BaseLeast(t, index, d, other); }
  }

  function Tracks(explicit: seq<Track>, implicit: seq<Track>, count: nat): seq<Track> {
    seq(count, i requires 0 <= i < count => TrackAt(explicit, implicit, i))
  }

  function Bases(tracks: seq<Track>, d: Demand): seq<real> {
    seq(|tracks|, i requires 0 <= i < |tracks| => Base(tracks[i], i, d))
  }

  function Weights(tracks: seq<Track>): seq<real> {
    seq(|tracks|, i requires 0 <= i < |tracks| => if tracks[i].kind.Fraction? then tracks[i].flex else 0.0)
  }

  function Autos(tracks: seq<Track>): nat {
    if tracks == [] then 0 else Autos(tracks[..|tracks| - 1]) + if tracks[|tracks| - 1].kind.Auto? then 1 else 0
  }

  /** The entries of `v` at the indices `ks`, added up. */
  function SumAt(v: seq<real>, ks: seq<nat>): real
    requires Indices(ks, |v|)
  {
    if ks == [] then 0.0 else v[ks[0]] + SumAt(v, ks[1..])
  }

  // ---------------------------------------------------------------- sums

  lemma {:induction false} SumAtAppend(v: seq<real>, ks: seq<nat>, i: nat)
    requires Indices(ks, |v|) && i < |v|
    ensures SumAt(v, ks + [i]) == SumAt(v, ks) + v[i]
  {
    if ks == [] {
      assert ks + [i] == [i];
    } else {
      assert (ks + [i])[1..] == ks[1..] + [i] && (ks + [i])[0] == ks[0];
      SumAtAppend(v, ks[1..], i);
    }
  }

  /** Entries that are not negative and add up to nothing are all zero. */
  lemma {:induction false} SumAtZero(v: seq<real>, ks: seq<nat>)
    requires Indices(ks, |v|) && forall i :: 0 <= i < |v| ==> v[i] >= 0.0
    ensures SumAt(v, ks) >= 0.0
    ensures SumAt(v, ks) == 0.0 ==> forall j :: 0 <= j < |ks| ==> v[ks[j]] == 0.0
  {
    if ks != [] {
      SumAtZero(v, ks[1..]);
      assert forall j :: 1 <= j < |ks| ==> ks[j] == ks[1..][j - 1];
    }
  }

  // ---------------------------------------------------------------- flexible tracks

  /** A flexible track gets its share or its base, whichever is more; the others keep their base. */
  ghost predicate Poured(base: seq<real>, shares: seq<real>, tracks: seq<Track>, result: seq<real>)
    requires |base| == |shares| == |tracks| == |result|
  {
    forall i :: 0 <= i < |base| ==> result[i] == if tracks[i].kind.Fraction? then Max(base[i], shares[i]) else base[i]
  }

  /** The level to which free space, poured in proportion to the weights, rises over the bases. */
  ghost predicate Level(base: seq<real>, weights: seq<real>, tracks: seq<Track>, result: seq<real>, f: real)
    requires |base| == |weights| == |tracks| == |result|
  {
    0.0 <= f && Poured(base, Scaled(weights, f), tracks, result)
  }

  /** The level determines the sizes: two levels with the same total give the same tracks. */
  lemma LevelUnique(base: seq<real>, weights: seq<real>, tracks: seq<Track>, r: seq<real>, s: seq<real>, f: real,
                    g: real)
    requires |base| == |weights| == |tracks| == |r| == |s| && forall i :: 0 <= i < |weights| ==> weights[i] >= 0.0
    requires Level(base, weights, tracks, r, f) && Level(base, weights, tracks, s, g) && Sum(r) == Sum(s)
    ensures r == s
  {
    if f <= g {
      LevelRises(base, weights, tracks, r, s, f, g);
      SumBelow(r, s);
    } else {
      LevelRises(base, weights, tracks, s, r, g, f);
      SumBelow(s, r);
    }
  }

  lemma LevelRises(base: seq<real>, weights: seq<real>, tracks: seq<Track>, r: seq<real>, s: seq<real>, f: real,
                   g: real)
    requires |base| == |weights| == |tracks| == |r| == |s| && forall i :: 0 <= i < |weights| ==> weights[i] >= 0.0
    requires Level(base, weights, tracks, r, f) && Level(base, weights, tracks, s, g) && f <= g
    ensures forall i :: 0 <= i < |r| ==> r[i] <= s[i]
  {
    ScaledBelow(weights, f, g);
  }

  lemma Scale(w: real, f: real, g: real)
    requires 0.0 <= w && f <= g
    ensures f * w <= g * w
  {
  }

  function Scaled(weights: seq<real>, f: real): seq<real> {
    seq(|weights|, i requires 0 <= i < |weights| => f * weights[i])
  }

  lemma {:induction false} ScaledSum(weights: seq<real>, f: real, ks: seq<nat>)
    requires Indices(ks, |weights|)
    ensures SumAt(Scaled(weights, f), ks) == f * SumAt(weights, ks)
  {
    if ks != [] {
      var head, tail := weights[ks[0]], SumAt(weights, ks[1..]);
      ScaledSum(weights, f, ks[1..]);
      assert f * (head + tail) == f * head + f * tail;
    }
  }

  lemma ScaledTotal(weights: seq<real>, f: real, ks: seq<nat>, total: real)
    requires Indices(ks, |weights|) && total == SumAt(weights, ks)
    ensures SumAt(Scaled(weights, f), ks) == f * total
  {
    ScaledSum(weights, f, ks);
  }

  ghost predicate Inputs(base: seq<real>, weights: seq<real>, tracks: seq<Track>) {
    && |base| == |weights| == |tracks|
    && (forall i :: 0 <= i < |base| ==> base[i] >= 0.0 && weights[i] >= 0.0)
  }

  /** Where the freeze loop stands: the flexible tracks that still share come in two lists, one
      already looked at in this pass and one not; every other flexible track exceeds its share. */
  ghost predicate Sharing(base: seq<real>, weights: seq<real>, shares: seq<real>, tracks: seq<Track>, free: real,
                          seen: seq<nat>, rest: seq<nat>, remaining: real, flexTotal: real) {
    && |base| == |weights| == |tracks| == |shares|
    && Indices(seen, |tracks|) && Indices(rest, |tracks|) && Distinct(seen + rest)
    && (forall j :: 0 <= j < |seen| ==> tracks[seen[j]].kind.Fraction?)
    && (forall j :: 0 <= j < |rest| ==> tracks[rest[j]].kind.Fraction?)
    && (forall i :: 0 <= i < |tracks| && tracks[i].kind.Fraction? && base[i] < shares[i] ==> i in seen || i in rest)
    && remaining == Max(free - Sum(base) + SumAt(base, seen) + SumAt(base, rest), 0.0)
    && flexTotal == SumAt(weights, seen) + SumAt(weights, rest)
    && remaining <= SumAt(shares, seen) + SumAt(shares, rest)
  }

  lemma PassFreeze(base: seq<real>, weights: seq<real>, shares: seq<real>, tracks: seq<Track>, free: real,
                   seen: seq<nat>, rest: seq<nat>, remaining: real, flexTotal: real)
    requires Sharing(base, weights, shares, tracks, free, seen, rest, remaining, flexTotal) && rest != []
    requires forall i :: 0 <= i < |base| ==> base[i] >= 0.0 && shares[i] >= 0.0
    requires base[rest[0]] > shares[rest[0]]
    ensures Sharing(base, weights, shares, tracks, free, seen, rest[1..], Max(remaining - base[rest[0]], 0.0),
                    flexTotal - weights[rest[0]])
  {
    var i, tail := rest[0], rest[1..];
    assert rest == [i] + tail;
    SumAtZero(shares, seen);
    SumAtZero(shares, tail);
    DistinctWithout(seen, rest);
  }

  lemma DistinctWithout(seen: seq<nat>, rest: seq<nat>)
    requires rest != [] && Distinct(seen + rest)
    ensures Distinct(seen + rest[1..])
  {
    var long, short := seen + rest, seen + rest[1..];
    forall i, j | 0 <= i < j < |short|
      ensures short[i] != short[j]
    {
      var a, b := if i < |seen| then i else i + 1, if j < |seen| then j else j + 1;
      assert long[a] == short[i] && long[b] == short[j];
    }
  }

  lemma PassKeep(base: seq<real>, weights: seq<real>, shares: seq<real>, tracks: seq<Track>, free: real,
                 seen: seq<nat>, rest: seq<nat>, remaining: real, flexTotal: real)
    requires Sharing(base, weights, shares, tracks, free, seen, rest, remaining, flexTotal) && rest != []
    ensures Sharing(base, weights, shares, tracks, free, seen + [rest[0]], rest[1..], remaining, flexTotal)
  {
    var i, tail := rest[0], rest[1..];
    assert rest == [i] + tail;
    Shift(seen, rest);
    SumAtAppend(base, seen, i);
    SumAtAppend(weights, seen, i);
    SumAtAppend(shares, seen, i);
    assert i in seen + [i];
  }

  /** None of these tracks exceeds its share. */
  ghost predicate Content(base: seq<real>, shares: seq<real>, ks: seq<nat>) {
    |base| == |shares| && Indices(ks, |base|) && forall j :: 0 <= j < |ks| ==> base[ks[j]] <= shares[ks[j]]
  }

  lemma ContentAppend(base: seq<real>, shares: seq<real>, ks: seq<nat>, i: nat)
    requires Content(base, shares, ks) && i < |base| && base[i] <= shares[i]
    ensures Content(base, shares, ks + [i])
  {
  }

  /** One pass: every track whose base exceeds its share at the present fraction is frozen. */
  method FreezePass(base: seq<real>, weights: seq<real>, shares: seq<real>, ghost tracks: seq<Track>, ghost free: real,
                    unfrozen: seq<nat>, before: real, total: real)
    returns (next: seq<nat>, remaining: real, flexTotal: real, frozen: bool)
    requires Sharing(base, weights, shares, tracks, free, [], unfrozen, before, total)
    requires forall i :: 0 <= i < |base| ==> base[i] >= 0.0 && shares[i] >= 0.0
    ensures Sharing(base, weights, shares, tracks, free, [], next, remaining, flexTotal)
    ensures Content(base, shares, next)
    ensures !frozen ==> next == unfrozen && remaining == before && flexTotal == total
    ensures frozen ==> |next| < |unfrozen|
  {
    next, frozen, remaining, flexTotal := [], false, before, total;
    var rest := unfrozen;
    while rest != []
      invariant Sharing(base, weights, shares, tracks, free, next, rest, remaining, flexTotal)
      invariant Content(base, shares, next)
      invariant |next| + |rest| <= |unfrozen| && (frozen ==> |next| + |rest| < |unfrozen|)
      invariant !frozen ==> next + rest == unfrozen && remaining == before && flexTotal == total
      decreases |rest|
    {
      var keep;
      Shift(next, rest);
      next, remaining, flexTotal, keep :=
        FreezeOne(base, weights, shares, tracks, free, next, rest, remaining, flexTotal);
      frozen := frozen || !keep;
      rest := rest[1..];
    }
    NextPass(base, weights, shares, tracks, free, next, remaining, flexTotal);
  }

  lemma Shift(seen: seq<nat>, rest: seq<nat>)
    requires rest != []
    ensures seen + [rest[0]] + rest[1..] == seen + rest
  {
  }

  /** What a pass has kept is what the next one looks at. */
  lemma NextPass(base: seq<real>, weights: seq<real>, shares: seq<real>, tracks: seq<Track>, free: real,
                 next: seq<nat>, remaining: real, flexTotal: real)
    requires Sharing(base, weights, shares, tracks, free, next, [], remaining, flexTotal)
    ensures Sharing(base, weights, shares, tracks, free, [], next, remaining, flexTotal)
  {
    assert next + [] == next && [] + next == next;
  }

  /** Looks at the first of the tracks still to be looked at in a pass. */
  method FreezeOne(base: seq<real>, weights: seq<real>, shares: seq<real>, ghost tracks: seq<Track>, ghost free: real,
                   seen: seq<nat>, rest: seq<nat>, before: real, total: real)
    returns (next: seq<nat>, remaining: real, flexTotal: real, keep: bool)
    requires Sharing(base, weights, shares, tracks, free, seen, rest, before, total) && rest != []
    requires forall i :: 0 <= i < |base| ==> base[i] >= 0.0 && shares[i] >= 0.0
    requires Content(base, shares, seen)
    ensures Sharing(base, weights, shares, tracks, free, next, rest[1..], remaining, flexTotal)
    ensures Content(base, shares, next)
    ensures next == if keep then seen + [rest[0]] else seen
    ensures keep ==> remaining == before && flexTotal == total
  {
    var index := rest[0];
    keep := base[index] <= shares[index];
    if keep {
      PassKeep(base, weights, shares, tracks, free, seen, rest, before, total);
      ContentAppend(base, shares, seen, index);
      next, remaining, flexTotal := seen + [index], before, total;
    } else {
      PassFreeze(base, weights, shares, tracks, free, seen, rest, before, total);
      next, remaining, flexTotal := seen, Max(before - base[index], 0.0), total - weights[index];
    }
  }

  /** The fraction of a pass is at most the level before it, and spends what remains. */
  lemma FractionLevel(weights: seq<real>, unfrozen: seq<nat>, before: real, total: real, level: real, fraction: real)
    requires Indices(unfrozen, |weights|) && total == SumAt(weights, unfrozen) && total > 0.0 && 0.0 <= level
    requires 0.0 <= before <= SumAt(Scaled(weights, level), unfrozen) && fraction == before / total
    ensures 0.0 <= fraction <= level && SumAt(Scaled(weights, fraction), unfrozen) == before
  {
    ScaledTotal(weights, level, unfrozen, total);
    ScaledTotal(weights, fraction, unfrozen, total);
    FractionBelow(before, total, level);
  }

  lemma LowerShares(base: seq<real>, weights: seq<real>, high: seq<real>, low: seq<real>, tracks: seq<Track>,
                    free: real,
                    unfrozen: seq<nat>, before: real, total: real)
    requires Sharing(base, weights, high, tracks, free, [], unfrozen, before, total) && |low| == |high|
    requires (forall i :: 0 <= i < |high| ==> low[i] <= high[i]) && SumAt(low, unfrozen) == before
    ensures Sharing(base, weights, low, tracks, free, [], unfrozen, before, total)
  {
  }

  lemma LowerLevel(base: seq<real>, weights: seq<real>, tracks: seq<Track>, free: real, unfrozen: seq<nat>,
                   before: real, total: real, level: real, fraction: real)
    requires Inputs(base, weights, tracks) && 0.0 <= level && total > 0.0 && fraction == before / total
    requires Sharing(base, weights, Scaled(weights, level), tracks, free, [], unfrozen, before, total)
    ensures 0.0 <= fraction <= level && SumAt(Scaled(weights, fraction), unfrozen) == before
    ensures Sharing(base, weights, Scaled(weights, fraction), tracks, free, [], unfrozen, before, total)
    ensures forall i :: 0 <= i < |weights| ==> Scaled(weights, fraction)[i] >= 0.0
  {
    FractionLevel(weights, unfrozen, before, total, level, fraction);
    ScaledBelow(weights, fraction, level);
    LowerShares(base, weights, Scaled(weights, level), Scaled(weights, fraction), tracks, free, unfrozen, before,
                total);
  }

  lemma ScaledBelow(weights: seq<real>, f: real, g: real)
    requires 0.0 <= f <= g && forall i :: 0 <= i < |weights| ==> weights[i] >= 0.0
    ensures forall i :: 0 <= i < |weights| ==> 0.0 <= Scaled(weights, f)[i] <= Scaled(weights, g)[i]
  {
    forall i | 0 <= i < |weights|
      ensures 0.0 <= Scaled(weights, f)[i] <= Scaled(weights, g)[i]
    {
      Scale(weights[i], f, g);
      Scale(weights[i], 0.0, f);
    }
  }

  lemma FractionBelow(before: real, total: real, level: real)
    requires 0.0 < total && 0.0 <= before <= level * total
    ensures 0.0 <= before / total <= level && before / total * total == before
  {
    assert before / total <= level * total / total;
  }

  lemma {:induction false} SumAtBelow(v: seq<real>, w: seq<real>, ks: seq<nat>)
    requires Content(v, w, ks)
    ensures SumAt(v, ks) <= SumAt(w, ks)
  {
    if ks != [] {
      assert Content(v, w, ks[1..]) by { assert forall j :: 0 <= j < |ks| - 1 ==> ks[1..][j] == ks[j + 1]; }
      SumAtBelow(v, w, ks[1..]);
    }
  }

  /** Gives the tracks that still share what is due to them. */
  method Fill(base: seq<real>, shares: seq<real>, unfrozen: seq<nat>) returns (result: seq<real>)
    requires |base| == |shares| && Indices(unfrozen, |base|) && Distinct(unfrozen)
    ensures |result| == |base|
    ensures forall i :: 0 <= i < |base| ==> result[i] == if i in unfrozen then shares[i] else base[i]
    ensures Sum(result) == Sum(base) - SumAt(base, unfrozen) + SumAt(shares, unfrozen)
  {
    result := base;
    for k := 0 to |unfrozen|
      invariant |result| == |base| && Indices(unfrozen[..k], |base|)
      invariant forall i :: 0 <= i < |base| ==> result[i] == if i in unfrozen[..k] then shares[i] else base[i]
      invariant Sum(result) == Sum(base) - SumAt(base, unfrozen[..k]) + SumAt(shares, unfrozen[..k])
    {
      var index := unfrozen[k];
      assert unfrozen[..k + 1] == unfrozen[..k] + [index];
      SumAtAppend(base, unfrozen[..k], index);
      SumAtAppend(shares, unfrozen[..k], index);
      SumPut(result, index, shares[index]);
      result := result[index := shares[index]];
    }
    assert unfrozen[..|unfrozen|] == unfrozen;
  }

  /** The freeze loop has ended with a pass that froze nothing. */
  lemma Filled(base: seq<real>, weights: seq<real>, shares: seq<real>, tracks: seq<Track>, free: real,
               unfrozen: seq<nat>, remaining: real, flexTotal: real, result: seq<real>)
    requires Inputs(base, weights, tracks)
      && Sharing(base, weights, shares, tracks, free, [], unfrozen, remaining, flexTotal)
    requires SumAt(shares, unfrozen) == remaining && Content(base, shares, unfrozen) && |result| == |base|
    requires forall i :: 0 <= i < |base| ==> result[i] == if i in unfrozen then shares[i] else base[i]
    requires Sum(result) == Sum(base) - SumAt(base, unfrozen) + SumAt(shares, unfrozen)
    ensures Poured(base, shares, tracks, result) && Sum(result) == Max(free, Sum(base))
  {
    SumAtBelow(base, shares, unfrozen);
    SumAtZero(base, unfrozen);
    forall i | 0 <= i < |base|
      ensures result[i] == if tracks[i].kind.Fraction? then Max(base[i], shares[i]) else base[i]
    {
      if i in unfrozen {
        var j :| 0 <= j < |unfrozen| && unfrozen[j] == i;
        assert base[unfrozen[j]] <= shares[unfrozen[j]];
      }
    }
  }

  /** The freeze loop has ended because nothing with a weight is left to share. */
  lemma Exhausted(base: seq<real>, weights: seq<real>, shares: seq<real>, tracks: seq<Track>, free: real,
                  unfrozen: seq<nat>, remaining: real)
    requires Inputs(base, weights, tracks) && Sharing(base, weights, shares, tracks, free, [], unfrozen, remaining, 0.0)
    requires SumAt(shares, unfrozen) == 0.0 && Content(base, shares, unfrozen)
    ensures Level(base, weights, tracks, base, 0.0) && Sum(base) == Max(free, Sum(base))
  {
    SumAtBelow(base, shares, unfrozen);
    SumAtZero(base, unfrozen);
    assert forall i :: 0 <= i < |weights| ==> Scaled(weights, 0.0)[i] == 0.0;
  }

  /** Shares the free space among the flexible tracks. */
  method ShareOut(base: seq<real>, weights: seq<real>, ghost tracks: seq<Track>, ghost free: real,
                  flexible: seq<nat>, space: real, total: real, ghost start: real)
    returns (result: seq<real>, ghost f: real)
    requires Inputs(base, weights, tracks) && total > 0.0 && 0.0 <= start
    requires Sharing(base, weights, Scaled(weights, start), tracks, free, [], flexible, space, total)
    ensures |result| == |base| && Level(base, weights, tracks, result, f) && Sum(result) == Max(free, Sum(base))
  {
    var unfrozen, remaining, flexTotal := flexible, space, total;
    ghost var level := start;
    while |unfrozen| > 0 && flexTotal > 0.0
      invariant Sharing(base, weights, Scaled(weights, level), tracks, free, [], unfrozen, remaining, flexTotal)
      invariant 0.0 <= level && (flexTotal > 0.0 || Content(base, Scaled(weights, level), unfrozen))
      decreases |unfrozen|
    {
      var fraction := remaining / flexTotal;
      LowerLevel(base, weights, tracks, free, unfrozen, remaining, flexTotal, level, fraction);
      var shares := Scaled(weights, fraction);
      var next, left, weight, frozen := FreezePass(base, weights, shares, tracks, free, unfrozen, remaining, flexTotal);
      if !frozen {
        assert [] + unfrozen == unfrozen;
        result := Fill(base, shares, unfrozen);
        Filled(base, weights, shares, tracks, free, unfrozen, remaining, flexTotal, result);
        f := fraction;
        return;
      }
      unfrozen, remaining, flexTotal, level := next, left, weight, fraction;
    }
    SumAtZero(weights, unfrozen);
    Spent(base, weights, level, unfrozen, flexTotal);
    Exhausted(base, weights, Scaled(weights, level), tracks, free, unfrozen, remaining);
    result, f := base, 0.0;
  }

  lemma Spent(base: seq<real>, weights: seq<real>, level: real, unfrozen: seq<nat>, flexTotal: real)
    requires |base| == |weights| && Indices(unfrozen, |base|) && flexTotal == SumAt(weights, unfrozen)
    requires 0.0 <= flexTotal && (unfrozen == [] || flexTotal <= 0.0)
    requires flexTotal > 0.0 || Content(base, Scaled(weights, level), unfrozen)
    ensures flexTotal == 0.0 && SumAt(Scaled(weights, level), unfrozen) == 0.0
    ensures Content(base, Scaled(weights, level), unfrozen)
  {
    ScaledSum(weights, level, unfrozen);
  }

  // ---------------------------------------------------------------- the whole axis

  ghost predicate Demands(tracks: seq<Track>, d: Demand) {
    && (forall i :: 0 <= i < |d.minContent| ==> d.minContent[i] >= 0.0)
    && (forall i :: 0 <= i < |d.maxContent| ==> d.maxContent[i] >= 0.0)
    && (forall i :: 0 <= i < |tracks| ==> tracks[i].flex >= 0.0)
  }

  lemma BaseSign(track: Track, index: nat, d: Demand)
    requires (forall i :: 0 <= i < |d.minContent| ==> d.minContent[i] >= 0.0)
      && (forall i :: 0 <= i < |d.maxContent| ==> d.maxContent[i] >= 0.0)
    ensures Base(track, index, d) >= 0.0
  {
  }

  /** Free space given to the automatic tracks in equal parts. */
  ghost predicate Stretched(base: seq<real>, tracks: seq<Track>, result: seq<real>, share: real)
    requires |base| == |tracks| == |result|
  {
    0.0 <= share && forall i :: 0 <= i < |base| ==> result[i] == base[i] + if tracks[i].kind.Auto? then share else 0.0
  }

  method Stretch(base: seq<real>, tracks: seq<Track>, share: real) returns (result: seq<real>)
    requires |base| == |tracks| && 0.0 <= share
    ensures |result| == |base| && Stretched(base, tracks, result, share)
    ensures Sum(result) == Sum(base) + Parts(Autos(tracks), share)
  {
    result := base;
    for i := 0 to |base|
      invariant |result| == |base|
      invariant forall k :: 0 <= k < |base| ==>
        result[k] == base[k] + if k < i && tracks[k].kind.Auto? then share else 0.0
      invariant Sum(result) == Sum(base) + Parts(Autos(tracks[..i]), share)
    {
      assert tracks[..i + 1][..i] == tracks[..i];
      if tracks[i].kind.Auto? {
        SumPut(result, i, result[i] + share);
        result := result[i := result[i] + share];
      }
    }
    assert tracks[..|tracks|] == tracks;
  }

  function Parts(n: nat, share: real): real {
    if n == 0 then 0.0 else Parts(n - 1, share) + share
  }

  lemma {:induction false} PartsProduct(n: nat, share: real)
    ensures Parts(n, share) == n as real * share
  {
    if n > 0 {
      PartsProduct(n - 1, share);
      assert n as real == (n - 1) as real + 1.0;
      Distribute((n - 1) as real, share);
    }
  }

  lemma Distribute(a: real, b: real)
    ensures (a + 1.0) * b == a * b + b
  {
  }

  function Gaps(gap: real, count: nat): real {
    gap * (if count > 0 then count - 1 else 0) as real
  }

  /** `flexible` lists the flexible tracks before number `i`. */
  ghost predicate Listed(base: seq<real>, weights: seq<real>, tracks: seq<Track>, i: nat, flexible: seq<nat>)
  {
    && |base| == |weights| == |tracks| && i <= |tracks| && Indices(flexible, i) && Indices(flexible, |tracks|)
    && Distinct(flexible) && Flexible(tracks, flexible) && Covers(tracks, i, flexible)
    && SumAt(weights, flexible) == Sum(weights[..i])
  }

  ghost predicate Flexible(tracks: seq<Track>, ks: seq<nat>)
    requires Indices(ks, |tracks|)
  {
    forall j :: 0 <= j < |ks| ==> tracks[ks[j]].kind.Fraction?
  }

  ghost predicate Covers(tracks: seq<Track>, i: nat, ks: seq<nat>)
    requires i <= |tracks|
  {
    forall k :: 0 <= k < i && tracks[k].kind.Fraction? ==> k in ks
  }

  lemma ListedNext(base: seq<real>, weights: seq<real>, tracks: seq<Track>, i: nat, flexible: seq<nat>)
    requires Listed(base, weights, tracks, i, flexible) && i < |tracks|
    requires !tracks[i].kind.Fraction? ==> weights[i] == 0.0
    ensures Listed(base, weights, tracks, i + 1, if tracks[i].kind.Fraction? then flexible + [i] else flexible)
  {
    assert weights[..i + 1][..i] == weights[..i];
    if tracks[i].kind.Fraction? {
      SumAtAppend(weights, flexible, i);
      AppendIndex(flexible, i);
      assert Indices(flexible + [i], |tracks|);
      FlexibleAppend(tracks, flexible, i);
    } else {
      assert Indices(flexible, i + 1);
    }
  }

  lemma FlexibleAppend(tracks: seq<Track>, ks: seq<nat>, i: nat)
    requires Indices(ks, |tracks|) && Flexible(tracks, ks) && i < |tracks| && tracks[i].kind.Fraction?
      && Covers(tracks, i, ks)
    ensures Indices(ks + [i], |tracks|) && Flexible(tracks, ks + [i]) && Covers(tracks, i + 1, ks + [i])
  {
    var more := ks + [i];
    forall j | 0 <= j < |more|
      ensures more[j] < |tracks| && tracks[more[j]].kind.Fraction?
    { assert j < |ks| ==> more[j] == ks[j]; }
    assert more[|ks|] == i;
  }

  lemma AppendIndex(ks: seq<nat>, i: nat)
    requires Indices(ks, i) && Distinct(ks)
    ensures Indices(ks + [i], i + 1) && Distinct(ks + [i]) && i in ks + [i]
    ensures forall x | x in ks :: x in ks + [i]
  {
  }

  /** The flexible tracks in order, and what the others leave of the free space. */
  method SplitFlexible(base: seq<real>, weights: seq<real>, tracks: seq<Track>, free: real)
    returns (flexible: seq<nat>, remaining: real)
    requires |base| == |weights| == |tracks|
    requires forall i :: 0 <= i < |tracks| ==> !tracks[i].kind.Fraction? ==> weights[i] == 0.0
    ensures Listed(base, weights, tracks, |tracks|, flexible)
    ensures remaining == free - Sum(base) + SumAt(base, flexible) && SumAt(weights, flexible) == Sum(weights)
  {
    flexible, remaining := [], free;
    for i := 0 to |tracks|
      invariant Splitting(base, weights, tracks, free, i, flexible, remaining)
    {
      SplittingNext(base, weights, tracks, free, i, flexible, remaining);
      if tracks[i].kind.Fraction? {
        flexible := flexible + [i];
      } else {
        remaining := remaining - base[i];
      }
    }
    assert base[..|tracks|] == base && weights[..|tracks|] == weights;
  }

  ghost predicate Splitting(base: seq<real>, weights: seq<real>, tracks: seq<Track>, free: real, i: nat,
                            flexible: seq<nat>, remaining: real) {
    Listed(base, weights, tracks, i, flexible) && remaining == free - Sum(base[..i]) + SumAt(base, flexible)
  }

  lemma SplittingNext(base: seq<real>, weights: seq<real>, tracks: seq<Track>, free: real, i: nat,
                      flexible: seq<nat>, remaining: real)
    requires Splitting(base, weights, tracks, free, i, flexible, remaining) && i < |tracks|
    requires !tracks[i].kind.Fraction? ==> weights[i] == 0.0
    ensures tracks[i].kind.Fraction? ==> Splitting(base, weights, tracks, free, i + 1, flexible + [i], remaining)
    ensures !tracks[i].kind.Fraction? ==> Splitting(base, weights, tracks, free, i + 1, flexible, remaining - base[i])
  {
    hide Sum, SumAt, Distinct, Flexible, Covers;
    ListedNext(base, weights, tracks, i, flexible);
    SumNext(base, i);
    if tracks[i].kind.Fraction? { SumAtAppend(base, flexible, i); }
  }

  /** The first half: base sizes, their sum, and who may grow. */
  method BaseSizes(explicit: seq<Track>, implicit: seq<Track>, count: nat, d: Demand)
    returns (tracks: seq<Track>, base: seq<real>, weights: seq<real>, autoCount: nat, flexTotal: real, used: real)
    ensures tracks == Tracks(explicit, implicit, count) && base == Bases(tracks, d) && weights == Weights(tracks)
    ensures autoCount == Autos(tracks) && flexTotal == Sum(weights) && used == Sum(base)
  {
    tracks, base, weights, autoCount, flexTotal, used := [], [], [], 0, 0.0, 0.0;
    for i := 0 to count
      invariant |tracks| == |base| == |weights| == i
      invariant forall k :: 0 <= k < i ==>
        tracks[k] == TrackAt(explicit, implicit, k) && base[k] == Base(tracks[k], k, d)
      invariant forall k :: 0 <= k < i ==> weights[k] == if tracks[k].kind.Fraction? then tracks[k].flex else 0.0
      invariant autoCount == Autos(tracks) && flexTotal == Sum(weights) && used == Sum(base)
    {
      var track := TrackAt(explicit, implicit, i);
      var size := Base(track, i, d);
      var weight := if track.kind.Fraction? then track.flex else 0.0;
      assert (tracks + [track])[..i] == tracks && (base + [size])[..i] == base && (weights + [weight])[..i] == weights;
      tracks, base, weights := tracks + [track], base + [size], weights + [weight];
      autoCount := autoCount + if track.kind.Auto? then 1 else 0;
      flexTotal, used := flexTotal + weight, used + size;
    }
  }

  /** The final sizes: never below the bases; with free space to give and someone to take it, the
      tracks and gaps fill the basis exactly, or exactly as much as the bases need. */
  ghost predicate Sized(tracks: seq<Track>, base: seq<real>, weights: seq<real>, d: Demand, gaps: real,
                        result: seq<real>, f: real)
    requires |tracks| == |base| == |weights| == |result|
  {
    && (forall i :: 0 <= i < |base| ==> result[i] >= base[i])
    && (d.definite && (Sum(weights) > 0.0 || Autos(tracks) > 0) ==>
         Sum(result) + gaps == Max(d.basis, Sum(base) + gaps))
    && (d.definite && Sum(weights) > 0.0 ==> Level(base, weights, tracks, result, f))
    && (d.definite && Sum(weights) <= 0.0 ==> Stretched(base, tracks, result, f))
    && (!d.definite || (Sum(weights) <= 0.0 && Autos(tracks) == 0) ==> result == base)
  }

  ghost predicate Flexes(tracks: seq<Track>) {
    exists i :: 0 <= i < |tracks| && tracks[i].kind.Fraction? && tracks[i].flex > 0.0
  }

  ghost predicate Stretches(tracks: seq<Track>) {
    exists i :: 0 <= i < |tracks| && tracks[i].kind.Auto?
  }

  /** Where the free space goes: with a definite basis flexible tracks take `f` for each unit of their
      factor, unless their base is more; without weighted ones each automatic track takes `f`; and
      either way, with the gaps, the tracks then fill the basis, or what their bases need. */
  ghost predicate Shared(tracks: seq<Track>, d: Demand, gap: real, result: seq<real>, f: real)
    requires |tracks| == |result|
  {
    && (forall i :: 0 <= i < |tracks| ==>
          result[i] == if d.definite && Flexes(tracks) && tracks[i].kind.Fraction?
                       then Max(Base(tracks[i], i, d), f * tracks[i].flex)
                       else if d.definite && !Flexes(tracks) && tracks[i].kind.Auto? then Base(tracks[i], i, d) + f
                       else Base(tracks[i], i, d))
    && (d.definite && (Flexes(tracks) || Stretches(tracks)) ==>
          var gaps := gap * (|tracks| - 1) as real;
          0.0 <= f && Sum(result) + gaps == Max(d.basis, Sum(Bases(tracks, d)) + gaps))
  }

  lemma {:induction false} SumSign(v: seq<real>)
    requires forall i :: 0 <= i < |v| ==> v[i] >= 0.0
    ensures 0.0 <= Sum(v) && (0.0 < Sum(v) <==> exists i :: 0 <= i < |v| && v[i] > 0.0)
  {
    if v != [] {
      var rest := v[..|v| - 1];
      SumSign(rest);
      assert forall i :: 0 <= i < |rest| ==> rest[i] == v[i];
      if i :| 0 <= i < |rest| && rest[i] > 0.0 {
        assert v[i] > 0.0;
      }
    }
  }

  lemma {:induction false} AutosSign(tracks: seq<Track>)
    ensures 0 < Autos(tracks) <==> Stretches(tracks)
  {
    if tracks != [] {
      var rest := tracks[..|tracks| - 1];
      AutosSign(rest);
      if i :| 0 <= i < |rest| && rest[i].kind.Auto? {
        assert tracks[i].kind.Auto?;
      }
    }
  }

  lemma WeightsSign(tracks: seq<Track>)
    requires forall i :: 0 <= i < |tracks| ==> tracks[i].flex >= 0.0
    ensures 0.0 < Sum(Weights(tracks)) <==> Flexes(tracks)
  {
    var weights := Weights(tracks);
    SumSign(weights);
    if i :| 0 <= i < |tracks| && tracks[i].kind.Fraction? && tracks[i].flex > 0.0 {
      assert weights[i] > 0.0;
    }
  }

  lemma SharedOut(tracks: seq<Track>, d: Demand, gap: real, result: seq<real>, f: real)
    requires |tracks| == |result| && Demands(tracks, d)
    requires Sized(tracks, Bases(tracks, d), Weights(tracks), d, Gaps(gap, |tracks|), result, f)
    ensures Shared(tracks, d, gap, result, f)
  {
    hide Base, Sum, Autos;
    WeightsSign(tracks);
    AutosSign(tracks);
    if d.definite && Flexes(tracks) {
      assert forall i :: 0 <= i < |tracks| ==> Scaled(Weights(tracks), f)[i] == f * Weights(tracks)[i];
    }
  }

  method ResolveGridTracks(explicit: seq<Track>, implicit: seq<Track>, count: nat, d: Demand, gap: real)
    returns (result: seq<real>, ghost f: real)
    requires Demands(Tracks(explicit, implicit, count), d)
    ensures |result| == count
    ensures var tracks := Tracks(explicit, implicit, count);
            Sized(tracks, Bases(tracks, d), Weights(tracks), d, Gaps(gap, count), result, f)
    ensures Shared(Tracks(explicit, implicit, count), d, gap, result, f)
    ensures forall i :: 0 <= i < count ==> Honoured(TrackAt(explicit, implicit, i), i, d, result[i])
  {
    hide Honoured, Shared, Base, Sized, Level, Sum, Autos;
    var tracks, base, weights, autoCount, flexTotal, used := BaseSizes(explicit, implicit, count, d);
    var gaps := Gaps(gap, count);
    forall i | 0 <= i < count
      ensures base[i] >= 0.0 && weights[i] >= 0.0
    { BaseSign(tracks[i], i, d); }
    result, f := base, 0.0;
    if flexTotal > 0.0 && d.definite {
      result, f := Flex(base, weights, tracks, d.basis - gaps, flexTotal);
      used := Sum(result);
    }
    if autoCount > 0 && d.definite && d.basis > gaps + used {
      var share := Part(d.basis - gaps - used, autoCount);
      result := Stretch(base, tracks, share);
      f := share;
    }
    SizedCases(tracks, base, weights, d, gaps, result, f);
    SharedOut(tracks, d, gap, result, f);
    forall i | 0 <= i < count
      ensures Honoured(TrackAt(explicit, implicit, i), i, d, result[i])
    { SizedAllows(tracks, base, weights, d, gaps, result, f, i); }
  }

  lemma SizedAllows(tracks: seq<Track>, base: seq<real>, weights: seq<real>, d: Demand, gaps: real, result: seq<real>,
                    f: real, i: nat)
    requires |tracks| == |base| == |weights| == |result| && i < |tracks| && Demands(tracks, d)
    requires base[i] == Base(tracks[i], i, d) && Sized(tracks, base, weights, d, gaps, result, f)
    ensures Honoured(tracks[i], i, d, result[i])
  {
    hide Allows, Least, Sum, Autos, Scaled;
    BaseLeast(tracks[i], i, d, result[i]);
    BaseIsLeast(tracks[i], i, d);
  }

  lemma SizedCases(tracks: seq<Track>, base: seq<real>, weights: seq<real>, d: Demand, gaps: real, result: seq<real>,
                   f: real)
    requires |tracks| == |base| == |weights| == |result|
    requires !d.definite || (Sum(weights) <= 0.0 && Autos(tracks) == 0) ==> result == base && f == 0.0
    requires d.definite && Sum(weights) > 0.0 ==>
      Level(base, weights, tracks, result, f) && Sum(result) == Max(d.basis - gaps, Sum(base))
    requires d.definite && Sum(weights) <= 0.0 && Autos(tracks) > 0 ==>
      Stretched(base, tracks, result, f) && Sum(result) == Max(d.basis - gaps, Sum(base))
    ensures Sized(tracks, base, weights, d, gaps, result, f)
  {
  }

  method Flex(base: seq<real>, weights: seq<real>, tracks: seq<Track>, free: real, flexTotal: real)
    returns (result: seq<real>, ghost f: real)
    requires Inputs(base, weights, tracks) && flexTotal == Sum(weights) && flexTotal > 0.0
    requires forall i :: 0 <= i < |tracks| ==> !tracks[i].kind.Fraction? ==> weights[i] == 0.0
    ensures |result| == |base| && Level(base, weights, tracks, result, f) && Sum(result) == Max(free, Sum(base))
    ensures forall i :: 0 <= i < |base| ==> result[i] >= base[i]
  {
    var flexible, remaining := SplitFlexible(base, weights, tracks, free);
    remaining := Max(remaining, 0.0);
    ghost var start := remaining / flexTotal;
    FirstLevel(weights, flexible, remaining, flexTotal, start);
    assert [] + flexible == flexible;
    result, f := ShareOut(base, weights, tracks, free, flexible, remaining, flexTotal, start);
  }

  lemma FirstLevel(weights: seq<real>, flexible: seq<nat>, remaining: real, total: real, start: real)
    requires Indices(flexible, |weights|) && total == SumAt(weights, flexible) && total > 0.0 && 0.0 <= remaining
    requires start == remaining / total
    ensures 0.0 <= start && SumAt(Scaled(weights, start), flexible) == remaining
  {
    ScaledTotal(weights, start, flexible, total);
    DivideBack(remaining, total);
  }

  lemma DivideBack(a: real, b: real)
    requires b > 0.0
    ensures a / b * b == a && (a >= 0.0 ==> a / b >= 0.0)
  {
  }

  /** One of `n` equal parts. */
  method Part(space: real, n: nat) returns (share: real)
    requires n > 0 && space > 0.0
    ensures 0.0 <= share && Parts(n, share) == space
  {
    share := space / n as real;
    PartsProduct(n, share);
    DivideBack(space, n as real);
  }

  // ---------------------------------------------------------------- items that span tracks

  /** Where the track number `end` begins. */
  function TrackOffset(tracks: seq<real>, end: nat, gap: real): real {
    gap * end as real + Sum(tracks[..if end < |tracks| then end else |tracks|])
  }

  function TrackSpanSize(tracks: seq<real>, start: nat, end: nat, gap: real): real {
    if end <= start then 0.0 else TrackOffset(tracks, end, gap) - TrackOffset(tracks, start, gap) - gap
  }

  /** A span is as long as its tracks and the gaps between them. */
  lemma SpanSize(tracks: seq<real>, start: nat, end: nat, gap: real)
    requires start < end <= |tracks|
    ensures TrackSpanSize(tracks, start, end, gap) == Sum(tracks[start..end]) + gap * (end - start - 1) as real
  {
    SumBetween(tracks, start, end);
    GapsBetween(start, end, gap);
  }

  lemma {:induction false} SumBetween(v: seq<real>, start: nat, end: nat)
    requires start <= end <= |v|
    ensures Sum(v[start..end]) == Sum(v[..end]) - Sum(v[..start])
    decreases end - start
  {
    if start < end {
      SumBetween(v, start, end - 1);
      SumNext(v, end - 1);
      assert v[start..end][..end - start - 1] == v[start..end - 1];
    } else {
      assert v[start..end] == [];
    }
  }

  lemma GapsBetween(start: nat, end: nat, gap: real)
    requires start < end
    ensures gap * end as real - gap * start as real - gap == gap * (end - start - 1) as real
  {
  }

  method Offset(tracks: array<real>, end: nat, gap: real) returns (offset: real)
    ensures offset == TrackOffset(tracks[..], end, gap)
  {
    offset := gap * end as real;
    var i := 0;
    while i < end && i < tracks.Length
      invariant i <= end && i <= tracks.Length
      invariant offset == gap * end as real + Sum(tracks[..][..i])
    {
      assert tracks[..][..i + 1][..i] == tracks[..][..i];
      offset := offset + tracks[i];
      i := i + 1;
    }
    assert i == if end < tracks.Length then end else tracks.Length;
  }

  datatype Span = Span(start: int, end: int, minimum: real, maximum: real)

  predicate MayGrow(explicit: seq<Track>, implicit: seq<Track>, i: nat) {
    !TrackAt(explicit, implicit, i).kind.Length?
  }

  /** A flexible track whose minimum is a fixed length lets its content wrap. */
  predicate Wraps(explicit: seq<Track>, implicit: seq<Track>, i: nat) {
    var t := TrackAt(explicit, implicit, i);
    t.kind.Fraction? && t.minSet && t.minKind.Length?
  }

  predicate AllWrap(explicit: seq<Track>, implicit: seq<Track>, start: nat, end: nat) {
    forall i :: start <= i < end ==> Wraps(explicit, implicit, i)
  }

  /** All tracks of a span do so exactly when none of them is of another kind or has another minimum. */
  lemma WrapsUnless(explicit: seq<Track>, implicit: seq<Track>, start: nat, end: nat)
    ensures !AllWrap(explicit, implicit, start, end) <==>
      exists i :: start <= i < end
        && var t := TrackAt(explicit, implicit, i); !t.kind.Fraction? || !t.minSet || !t.minKind.Length?
  {
    if !AllWrap(explicit, implicit, start, end) {
      var i :| start <= i < end && !Wraps(explicit, implicit, i);
      var t := TrackAt(explicit, implicit, i);
      assert !t.kind.Fraction? || !t.minSet || !t.minKind.Length?;
    } else {
      forall i | start <= i < end
        ensures var t := TrackAt(explicit, implicit, i); t.kind.Fraction? && t.minSet && t.minKind.Length?
      { assert Wraps(explicit, implicit, i); }
    }
  }

  /** Tracks of the span that may grow have grown by `share`, the others not at all. */
  ghost predicate Grown(was: seq<real>, now: seq<real>, growable: seq<nat>, share: real) {
    |was| == |now| && forall i :: 0 <= i < |was| ==> now[i] == was[i] + if i in growable then share else 0.0
  }

  method Growable(explicit: seq<Track>, implicit: seq<Track>, start: nat, end: nat)
    returns (growable: seq<nat>, wrap: bool)
    requires start <= end
    ensures Distinct(growable) && forall i: nat :: i in growable <==> start <= i < end && MayGrow(explicit, implicit, i)
    ensures wrap <==> AllWrap(explicit, implicit, start, end)
  {
    growable, wrap := [], true;
    for i := start to end
      invariant Distinct(growable) && Indices(growable, i)
      invariant forall k: nat :: k in growable <==> start <= k < i && MayGrow(explicit, implicit, k)
      invariant wrap <==> AllWrap(explicit, implicit, start, i)
    {
      var track := TrackAt(explicit, implicit, i);
      assert AllWrap(explicit, implicit, start, i + 1)
        <==> AllWrap(explicit, implicit, start, i) && Wraps(explicit, implicit, i);
      AppendIndex(growable, i);
      assert forall k: nat :: k in growable + [i] <==> k in growable || k == i;
      if !track.kind.Length? {
        growable := growable + [i];
      }
      if !track.kind.Fraction? || !track.minSet || !track.minKind.Length? {
        wrap := false;
      }
    }
  }

  /** Adds `share` to each of the given tracks, all of them within the span. */
  method GrowEach(tracks: array<real>, growable: seq<nat>, share: real, ghost start: nat, ghost end: nat)
    requires Distinct(growable) && start < end <= tracks.Length
    requires forall j :: 0 <= j < |growable| ==> start <= growable[j] < end
    modifies tracks
    ensures Grown(old(tracks[..]), tracks[..], growable, share)
    ensures Sum(tracks[..end]) == Sum(old(tracks[..end])) + Parts(|growable|, share)
    ensures tracks[..start] == old(tracks[..start])
  {
    ghost var was := tracks[..];
    assert was[..end] == tracks[..end] && was[..start] == tracks[..start];
    for k := 0 to |growable|
      invariant GrownTo(was, tracks[..], growable, k, share, start, end)
    {
      var index := growable[k];
      GrownNext(was, tracks[..], growable, k, share, start, end);
      ghost var now := tracks[..];
      tracks[index] := tracks[index] + share;
      assert tracks[..] == now[index := now[index] + share];
    }
    assert growable[..|growable|] == growable;
    assert tracks[..][..end] == tracks[..end] && tracks[..][..start] == tracks[..start];
  }

  /** The first `k` tracks have grown. */
  ghost predicate GrownTo(was: seq<real>, now: seq<real>, growable: seq<nat>, k: nat, share: real, start: nat,
                          end: nat) {
    && k <= |growable| && start < end <= |was| && Grown(was, now, growable[..k], share)
    && Sum(now[..end]) == Sum(was[..end]) + Parts(k, share) && now[..start] == was[..start]
  }

  lemma GrownNext(was: seq<real>, now: seq<real>, growable: seq<nat>, k: nat, share: real, start: nat, end: nat)
    requires GrownTo(was, now, growable, k, share, start, end) && k < |growable| && Distinct(growable)
    requires forall j :: 0 <= j < |growable| ==> start <= growable[j] < end
    ensures var index := growable[k];
      GrownTo(was, now[index := now[index] + share], growable, k + 1, share, start, end)
  {
    var index := growable[k];
    assert growable[..k + 1] == growable[..k] + [index] && index !in growable[..k];
    SumPut(now[..end], index, now[index] + share);
    assert now[index := now[index] + share][..end] == now[..end][index := now[index] + share];
  }

  /** Grows the tracks under a spanning item until they hold what it requires; fixed tracks and
      tracks outside the span keep their size, and so does everything when nothing is missing or
      nothing may grow. */
  method GrowGridSpan(tracks: array<real>, span: Span, gap: real, explicit: seq<Track>, implicit: seq<Track>)
    returns (ghost growable: seq<nat>, ghost share: real)
    modifies tracks
    ensures Distinct(growable) && Grown(old(tracks[..]), tracks[..], growable, share)
    ensures var start, end :=
              if span.start > 0 then span.start else 0, if span.end < tracks.Length then span.end else tracks.Length;
            if end <= start then growable == [] else
              var required := if AllWrap(explicit, implicit, start, end) then span.minimum else span.maximum;
              var size := TrackSpanSize(old(tracks[..]), start, end, gap);
              && (growable == [] <==>
                    size >= required || forall i :: start <= i < end ==> TrackAt(explicit, implicit, i).kind.Length?)
              && (growable != [] ==>
                    && 0.0 < share && TrackSpanSize(tracks[..], start, end, gap) == required
                    && forall i: nat ::
                         i in growable <==> start <= i < end && !TrackAt(explicit, implicit, i).kind.Length?)
  {
    growable, share := [], 0.0;
    var start, end :=
      if span.start > 0 then span.start else 0, if span.end < tracks.Length then span.end else tracks.Length;
    if end <= start {
      return;
    }
    var ks, wrap := Growable(explicit, implicit, start, end);
    var required := if wrap then span.minimum else span.maximum;
    var upto := Offset(tracks, end, gap);
    var from := Offset(tracks, start, gap);
    var shortfall := required - (upto - from - gap);
    if shortfall <= 0.0 || |ks| == 0 {
      if |ks| == 0 {
        forall i | start <= i < end
          ensures TrackAt(explicit, implicit, i).kind.Length?
        { assert i !in ks && !MayGrow(explicit, implicit, i); }
      }
      return;
    }
    var part := Part(shortfall, |ks|);
    PartPositive(|ks|, part, shortfall);
    assert ks[0] in ks;
    forall j | 0 <= j < |ks|
      ensures start <= ks[j] < end
    { assert ks[j] in ks; }
    GrowEach(tracks, ks, part, start, end);
    growable, share := ks, part;
    assert tracks[..][..end] == tracks[..end] && tracks[..][..start] == tracks[..start];
    assert old(tracks[..])[..end] == old(tracks[..end]) && old(tracks[..])[..start] == old(tracks[..start]);
  }

  lemma PartPositive(n: nat, share: real, space: real)
    requires n > 0 && space > 0.0 && 0.0 <= share && Parts(n, share) == space
    ensures 0.0 < share
  {
    PartsProduct(n, share);
  }
}
