/** Breaking the items of a flex container into lines, greedily and in order. */
module FlexLines {
  /** One item with its sizes along the main axis; a negative maximum means there is none. */
  class FlexItem {
    const base: real
    const hypothetical: real
    const minimum: real
    const maximum: real
    const grow: real
    const shrink: real
    const marginStart: real
    const marginEnd: real
    var target: real
    var frozen: bool

    constructor (base: real, minimum: real, maximum: real, grow: real, shrink: real, marginStart: real, marginEnd: real)
      ensures this.base == base && this.minimum == minimum && this.maximum == maximum
      ensures this.grow == grow && this.shrink == shrink && this.marginStart == marginStart
        && this.marginEnd == marginEnd
      ensures hypothetical == Clamp(minimum, maximum, base)
    {
      this.base, this.minimum, this.maximum, this.grow, this.shrink := base, minimum, maximum, grow, shrink;
      this.marginStart, this.marginEnd := marginStart, marginEnd;
      hypothetical := Clamp(minimum, maximum, base);
      target, frozen := base, false;
    }
  }

  function Clamp(minimum: real, maximum: real, x: real): real {
    var raised := if x < minimum then minimum else x;
    if maximum >= 0.0 && maximum < raised then maximum else raised
  }

  /** A size stays as it is within the limits and goes to the nearer one otherwise; where they
      contradict each other the maximum wins. */
  lemma ClampNearest(minimum: real, maximum: real, x: real)
    ensures var c := Clamp(minimum, maximum, x);
      && (c == x || c == minimum || c == maximum)
      && (minimum <= x && (maximum < 0.0 || x <= maximum) ==> c == x)
      && (maximum >= 0.0 && (maximum < x || maximum < minimum) ==> c == maximum)
      && (x < minimum && (maximum < 0.0 || minimum <= maximum) ==> c == minimum)
  {
  }

  /** The room an item takes on a line. */
  function Outer(i: FlexItem): real {
    i.hypothetical + i.marginStart + i.marginEnd
  }

  /** The length of a line with its gaps. */
  function Length(line: seq<FlexItem>, gap: real): real {
    if line == [] then 0.0
    else if |line| == 1 then Outer(line[0])
    else Length(line[..|line| - 1], gap) + gap + Outer(line[|line| - 1])
  }

  function Concat(lines: seq<seq<FlexItem>>): seq<FlexItem> {
    if lines == [] then [] else Concat(lines[..|lines| - 1]) + lines[|lines| - 1]
  }

  /** A way to break the items: every line has an item, and fits unless that is its only one. */
  ghost predicate Breaks(lines: seq<seq<FlexItem>>, items: seq<FlexItem>, available: real, gap: real) {
    && Concat(lines) == items
    && forall k :: 0 <= k < |lines| ==> lines[k] != [] && (|lines[k]| > 1 ==> Length(lines[k], gap) <= available)
  }

  /** No line has room for the first item of the next one. */
  ghost predicate Tight(lines: seq<seq<FlexItem>>, available: real, gap: real)
    requires forall k :: 0 <= k < |lines| ==> lines[k] != []
  {
    forall k :: 0 <= k < |lines| - 1 ==> Length(lines[k] + [lines[k + 1][0]], gap) > available
  }

  lemma ConcatAppend(lines: seq<seq<FlexItem>>, line: seq<FlexItem>)
    ensures Concat(lines + [line]) == Concat(lines) + line
  {
    assert (lines + [line])[..|lines|] == lines;
  }

  lemma LengthAppend(line: seq<FlexItem>, gap: real, i: FlexItem)
    ensures Length(line + [i], gap) == if line == [] then Outer(i) else Length(line, gap) + gap + Outer(i)
  {
    assert (line + [i])[..|line|] == line;
  }

  /** Forms the lines; `wrap` is off for a single-line container. */
  method FormFlexLines(items: seq<FlexItem>, available: real, gap: real, wrap: bool) returns (lines: seq<seq<FlexItem>>)
    ensures Concat(lines) == items
    ensures items != [] && (!wrap || available < 0.0) ==> lines == [items]
    ensures wrap && available >= 0.0 ==> Breaks(lines, items, available, gap) && Tight(lines, available, gap)
  {
    if |items| == 0 {
      return [];
    }
    if !wrap || available < 0.0 {
      OneLine(items);
      return [items];
    }
    hide Forming, Outer, Breaks, Tight, Length, Concat;
    var line, used: real := [], 0.0;
    lines := [];
    FormingNone(items, available, gap);
    for k := 0 to |items|
      invariant Forming(items, k, lines, line, used, available, gap)
    {
      var item := items[k];
      FormingNext(items, k, lines, line, used, available, gap);
      var required := Outer(item) + if line != [] then gap else 0.0;
      if line != [] && used + required > available {
        lines, line := lines + [line], [];
        used, required := 0.0, Outer(item);
      }
      line := line + [item];
      used := used + required;
    }
    FormingAll(items, lines, line, used, available, gap);
    lines := lines + [line];
  }

  lemma OneLine(items: seq<FlexItem>)
    ensures Concat([items]) == items
  {
    assert [items][..0] == [];
  }

  lemma FormingNone(items: seq<FlexItem>, available: real, gap: real)
    ensures Forming(items, 0, [], [], 0.0, available, gap)
  {
  }

  lemma FormingAll(items: seq<FlexItem>, lines: seq<seq<FlexItem>>, line: seq<FlexItem>, used: real,
                   available: real, gap: real)
    requires items != [] && Forming(items, |items|, lines, line, used, available, gap)
    ensures Concat(lines + [line]) == items
    ensures Breaks(lines + [line], items, available, gap) && Tight(lines + [line], available, gap)
  {
    assert items[..|items|] == items;
    ConcatAppend(lines, line);
  }

  /** The first `k` items stand on complete lines and on the last one. */
  ghost predicate Forming(items: seq<FlexItem>, k: nat, lines: seq<seq<FlexItem>>, line: seq<FlexItem>, used: real,
                          available: real, gap: real) {
    && k <= |items| && Concat(lines) + line == items[..k] && used == Length(line, gap)
    && (line == [] ==> k == 0 && lines == [])
    && Breaks(lines, Concat(lines), available, gap) && (|line| > 1 ==> Length(line, gap) <= available)
    && (line != [] ==> Tight(lines + [line], available, gap))
  }

  /** The next item begins a line or joins the last one. */
  lemma FormingNext(items: seq<FlexItem>, k: nat, lines: seq<seq<FlexItem>>, line: seq<FlexItem>, used: real,
                    available: real, gap: real)
    requires k < |items| && Forming(items, k, lines, line, used, available, gap)
    ensures var required := Outer(items[k]) + if line != [] then gap else 0.0;
      if line != [] && used + required > available
      then Forming(items, k + 1, lines + [line], [] + [items[k]], 0.0 + Outer(items[k]), available, gap)
      else Forming(items, k + 1, lines, line + [items[k]], used + required, available, gap)
  {
    var item := items[k];
    assert items[..k + 1] == items[..k] + [item];
    LengthAppend(line, gap, item);
    if line != [] && used + Outer(item) + gap > available {
      ConcatAppend(lines, line);
      TightAppend(lines, line, item, available, gap);
      assert [] + [item] == [item];
    } else {
      TightGrows(lines, line, item, available, gap);
    }
  }

  lemma TightAppend(lines: seq<seq<FlexItem>>, line: seq<FlexItem>, item: FlexItem, available: real, gap: real)
    requires forall k :: 0 <= k < |lines| ==> lines[k] != []
    requires line != [] && Tight(lines + [line], available, gap) && Length(line + [item], gap) > available
    ensures Tight(lines + [line] + [[item]], available, gap)
  {
    var now := lines + [line] + [[item]];
    forall k | 0 <= k < |now| - 1
      ensures Length(now[k] + [now[k + 1][0]], gap) > available
    {
      if k < |lines| {
        assert now[k] == (lines + [line])[k] && now[k + 1] == (lines + [line])[k + 1];
      }
    }
  }

  lemma TightGrows(lines: seq<seq<FlexItem>>, line: seq<FlexItem>, item: FlexItem, available: real, gap: real)
    requires forall k :: 0 <= k < |lines| ==> lines[k] != []
    requires if line == [] then lines == [] else Tight(lines + [line], available, gap)
    ensures Tight(lines + [line + [item]], available, gap)
  {
    var was, now := lines + [line], lines + [line + [item]];
    forall k | 0 <= k < |now| - 1
      ensures Length(now[k] + [now[k + 1][0]], gap) > available
    { assert now[k] == was[k] && now[k + 1][0] == was[k + 1][0]; }
  }

  // ---------------------------------------------------------------- fewest lines

  ghost predicate Sizes(items: seq<FlexItem>, gap: real) {
    0.0 <= gap && forall k :: 0 <= k < |items| ==> Outer(items[k]) >= 0.0
  }

  lemma {:induction false} LengthPrefix(line: seq<FlexItem>, gap: real, n: nat)
    requires Sizes(line, gap) && n <= |line|
    ensures 0.0 <= Length(line[..n], gap) <= Length(line, gap)
    decreases |line|
  {
    if n < |line| {
      LengthPrefix(line[..|line| - 1], gap, n);
      assert line[..|line| - 1][..n] == line[..n];
    } else {
      assert line[..n] == line;
      if |line| > 0 {
        LengthPrefix(line[..|line| - 1], gap, |line| - 1);
        assert line[..|line| - 1][..|line| - 1] == line[..|line| - 1];
      }
    }
  }

  lemma {:induction false} LengthSuffix(line: seq<FlexItem>, gap: real, n: nat)
    requires Sizes(line, gap) && n <= |line|
    ensures 0.0 <= Length(line[n..], gap) <= Length(line, gap)
    decreases |line|
  {
    if n == |line| {
      LengthPrefix(line, gap, 0);
      assert line[n..] == line[..0];
    } else if |line| > 1 && n < |line| - 1 {
      LengthSuffix(line[..|line| - 1], gap, n);
      assert line[n..][..|line| - n - 1] == line[..|line| - 1][n..];
    } else {
      LengthPrefix(line, gap, |line| - 1);
      assert line[n..] == [line[n]];
    }
  }

  /** A stretch of a line is no longer than the line. */
  lemma LengthSlice(line: seq<FlexItem>, gap: real, i: nat, j: nat)
    requires Sizes(line, gap) && i <= j <= |line|
    ensures Length(line[i..j], gap) <= Length(line, gap)
  {
    LengthPrefix(line, gap, j);
    LengthSuffix(line[..j], gap, i);
    assert line[..j][i..] == line[i..j];
  }

  /** Where line number `k` begins. */
  function Starts(lines: seq<seq<FlexItem>>, k: nat): nat
    requires k <= |lines|
  {
    |Concat(lines[..k])|
  }

  lemma {:induction false} LineAt(lines: seq<seq<FlexItem>>, k: nat)
    requires k < |lines|
    ensures Starts(lines, k + 1) == Starts(lines, k) + |lines[k]| <= |Concat(lines)|
    ensures Concat(lines)[Starts(lines, k)..Starts(lines, k + 1)] == lines[k]
    decreases |lines|
  {
    assert lines[..k + 1][..k] == lines[..k];
    var n := |lines| - 1;
    if k < n {
      LineAt(lines[..n], k);
      assert lines[..n][..k] == lines[..k] && lines[..n][..k + 1] == lines[..k + 1];
    } else {
      assert lines[..k + 1] == lines;
    }
  }

  /** The greedy lines are always ahead of any other way to break the items. */
  lemma {:induction false} Ahead(greedy: seq<seq<FlexItem>>, other: seq<seq<FlexItem>>, items: seq<FlexItem>,
                                 available: real, gap: real, k: nat)
    requires Breaks(greedy, items, available, gap) && Tight(greedy, available, gap) && Sizes(items, gap)
    requires Breaks(other, items, available, gap) && k <= |greedy| && k <= |other|
    ensures Starts(other, k) <= Starts(greedy, k)
    decreases k
  {
    if k > 0 {
      Ahead(greedy, other, items, available, gap, k - 1);
      LineAt(greedy, k - 1);
      LineAt(other, k - 1);
      if k == |greedy| {
        assert greedy[..k] == greedy;
      } else if Starts(other, k) > Starts(greedy, k) {
        TooLong(greedy, other, items, available, gap, k);
      }
    }
  }

  /** A line that started no later cannot reach further than a tight one. */
  lemma TooLong(greedy: seq<seq<FlexItem>>, other: seq<seq<FlexItem>>, items: seq<FlexItem>,
                available: real, gap: real, k: nat)
    requires Breaks(greedy, items, available, gap) && Tight(greedy, available, gap) && Sizes(items, gap)
    requires Breaks(other, items, available, gap) && 0 < k < |greedy| && k <= |other|
    requires Starts(other, k - 1) <= Starts(greedy, k - 1)
    ensures Starts(other, k) <= Starts(greedy, k)
  {
    LineAt(greedy, k - 1);
    LineAt(greedy, k);
    LineAt(other, k - 1);
    var a, b, s, e := Starts(greedy, k - 1), Starts(greedy, k), Starts(other, k - 1), Starts(other, k);
    NextFirst(items, a, b, Starts(greedy, k + 1), greedy[k - 1], greedy[k]);
    if e > b {
      Window(items, gap, s, e, a, b + 1);
    }
  }

  /** A line and the first item of the next one, as a stretch of the items. */
  lemma NextFirst(items: seq<FlexItem>, a: nat, b: nat, c: nat, line: seq<FlexItem>, next: seq<FlexItem>)
    requires a <= b <= c <= |items| && items[a..b] == line && items[b..c] == next && next != []
    ensures b < |items| && items[a..b + 1] == line + [next[0]]
  {
    assert items[b] == items[b..c][0];
  }

  lemma Window(items: seq<FlexItem>, gap: real, s: nat, e: nat, a: nat, c: nat)
    requires Sizes(items, gap) && s <= a <= c <= e <= |items|
    ensures Length(items[a..c], gap) <= Length(items[s..e], gap)
  {
    var line := items[s..e];
    assert forall x :: 0 <= x < |line| ==> line[x] == items[s + x];
    LengthSlice(line, gap, a - s, c - s);
    assert line[a - s..c - s] == items[a..c];
  }

  /** Greedy breaking uses the fewest lines. */
  lemma FewestLines(greedy: seq<seq<FlexItem>>, other: seq<seq<FlexItem>>, items: seq<FlexItem>, available: real,
                    gap: real)
    requires Breaks(greedy, items, available, gap) && Tight(greedy, available, gap) && Sizes(items, gap)
    requires Breaks(other, items, available, gap)
    ensures |greedy| <= |other|
  {
    assert other[..|other|] == other;
    if |other| < |greedy| {
      LineAt(greedy, |other|);
      Ahead(greedy, other, items, available, gap, |other|);
    }
  }
}
