/** Placing the floats of one formatting context, over the real numbers. */
module Floats {
  import opened RealSums

  const MAX_FLOAT_BOXES: nat := 4096

  datatype Side = Left | Right | Top | Bottom

  datatype Rect = Rect(x: real, y: real, width: real, height: real)

  datatype Region = Region(box: Rect, side: Side)

  function BottomOf(r: Region): real {
    r.box.y + r.box.height
  }

  /** The region shares a horizontal strip with the band from `y` down to `y + height`. */
  predicate Meets(r: Region, y: real, height: real) {
    y + height > r.box.y && y < BottomOf(r)
  }

  /** `left` and `right` are the innermost edges that floats meeting the band leave of the given
      width. */
  ghost predicate Edges(floats: seq<Region>, x: real, width: real, y: real, height: real, left: real, right: real) {
    && x <= left && right <= x + width
    && (forall k :: 0 <= k < |floats| && Meets(floats[k], y, height) ==>
          (floats[k].side.Left? ==> floats[k].box.x + floats[k].box.width <= left)
          && (floats[k].side.Right? ==> right <= floats[k].box.x))
    && (left == x || exists k :: 0 <= k < |floats| && Meets(floats[k], y, height) && floats[k].side.Left?
                                 && left == floats[k].box.x + floats[k].box.width)
    && (right == x + width || exists k :: 0 <= k < |floats| && Meets(floats[k], y, height) && floats[k].side.Right?
                                          && right == floats[k].box.x)
  }

  /** At `y` there is room for a box of this size. */
  ghost predicate Room(floats: seq<Region>, x: real, width: real, y: real, outerWidth: real, outerHeight: real) {
    exists left, right :: Edges(floats, x, width, y, outerHeight, left, right) && right - left >= outerWidth
  }

  lemma EdgesUnique(floats: seq<Region>, x: real, width: real, y: real, height: real, l1: real, r1: real, l2: real,
                    r2: real)
    requires Edges(floats, x, width, y, height, l1, r1) && Edges(floats, x, width, y, height, l2, r2)
    ensures l1 == l2 && r1 == r2
  {
  }

  /** How many floats end below `y`. */
  function EndBelow(floats: seq<Region>, y: real): nat {
    if floats == [] then 0 else
      EndBelow(floats[..|floats| - 1], y) + if BottomOf(floats[|floats| - 1]) > y then 1 else 0
  }

  lemma {:induction false} EndBelowFalls(floats: seq<Region>, y: real, z: real)
    requires y <= z
    ensures EndBelow(floats, z) <= EndBelow(floats, y)
    ensures (exists k :: 0 <= k < |floats| && y < BottomOf(floats[k]) <= z) ==>
      EndBelow(floats, z) < EndBelow(floats, y)
  {
    if floats != [] { EndBelowFalls(floats[..|floats| - 1], y, z); }
  }

  /** The next bottom edge below `y`, or zero when there is none. */
  ghost predicate NextBottom(floats: seq<Region>, y: real, next: real) {
    if exists k :: 0 <= k < |floats| && BottomOf(floats[k]) > y then
      && (exists k :: 0 <= k < |floats| && BottomOf(floats[k]) == next > y)
      && (forall k :: 0 <= k < |floats| && BottomOf(floats[k]) > y ==> next <= BottomOf(floats[k]))
    else next == 0.0
  }

  /** Where the scan for the next bottom edge stands after looking at all of `floats`: zero serves
      as "none so far". */
  function Scan(floats: seq<Region>, y: real): real {
    if floats == [] then 0.0 else
      var next, bottom := Scan(floats[..|floats| - 1], y), BottomOf(floats[|floats| - 1]);
      if bottom > y && (next == 0.0 || bottom < next) then bottom else next
  }

  /** A positive bottom edge that no edge at zero follows. */
  ghost predicate Final(floats: seq<Region>, m: nat) {
    m < |floats| && BottomOf(floats[m]) > 0.0 && forall j :: m < j < |floats| ==> BottomOf(floats[j]) != 0.0
  }

  /** Above zero, an edge at zero that is the next one is taken for "none" and replaced by a
      positive one that comes later. */
  ghost predicate Skips(floats: seq<Region>, y: real) {
    && y < 0.0 && (forall k :: 0 <= k < |floats| && BottomOf(floats[k]) > y ==> BottomOf(floats[k]) >= 0.0)
    && (exists k :: 0 <= k < |floats| && BottomOf(floats[k]) == 0.0)
    && (exists m :: Final(floats, m))
  }

  /** The floats with which a scan from above zero can pass over an edge at zero. */
  ghost predicate CanSkip(floats: seq<Region>) {
    (exists k :: 0 <= k < |floats| && BottomOf(floats[k]) == 0.0) && exists m :: Final(floats, m)
  }

  /** What a scan from just above zero finds: the last positive edges after an edge at zero count. */
  function ZeroScan(floats: seq<Region>): real {
    if floats == [] then 0.0 else
      var next, bottom := ZeroScan(floats[..|floats| - 1]), BottomOf(floats[|floats| - 1]);
      if bottom >= 0.0 && (next == 0.0 || bottom < next) then bottom else next
  }

  lemma {:induction false} ScanFromAbove(floats: seq<Region>, y: real)
    requires y < 0.0 && forall k :: 0 <= k < |floats| && BottomOf(floats[k]) > y ==> BottomOf(floats[k]) >= 0.0
    ensures Scan(floats, y) == ZeroScan(floats)
  {
    if floats != [] { ScanFromAbove(floats[..|floats| - 1], y); }
  }

  lemma FinalNext(floats: seq<Region>, m: nat)
    requires floats != []
    ensures var n := |floats| - 1; var last := BottomOf(floats[n]);
            Final(floats, m) <==> if m == n then last > 0.0 else Final(floats[..n], m) && last != 0.0
  {
  }

  /** What a scan finds when no edge lies strictly between `y` and zero. */
  lemma {:induction false} ScanUnder(floats: seq<Region>, y: real)
    requires y < 0.0 && forall k :: 0 <= k < |floats| && BottomOf(floats[k]) > y ==> BottomOf(floats[k]) >= 0.0
    ensures Scan(floats, y) >= 0.0 && (Scan(floats, y) == 0.0 <==> !(exists m :: Final(floats, m)))
    ensures (forall k :: 0 <= k < |floats| ==> BottomOf(floats[k]) != 0.0) ==>
      forall k :: 0 <= k < |floats| && BottomOf(floats[k]) > y ==>
        Scan(floats, y) != 0.0 && Scan(floats, y) <= BottomOf(floats[k])
  {
    if floats != [] {
      var n := |floats| - 1;
      ScanUnder(floats[..n], y);
      forall m: nat
        ensures Final(floats, m) <==>
          if m == n then BottomOf(floats[n]) > 0.0 else Final(floats[..n], m) && BottomOf(floats[n]) != 0.0
      { FinalNext(floats, m); }
      assert !Final(floats[..n], n);
      assert Final(floats, n) <==> BottomOf(floats[n]) > 0.0;
    }
  }

  /** What it finds when some edge does, or when `y` is not negative. */
  lemma {:induction false} ScanOver(floats: seq<Region>, y: real)
    ensures Scan(floats, y) != 0.0 ==> exists k :: 0 <= k < |floats| && BottomOf(floats[k]) == Scan(floats, y) > y
    ensures 0.0 <= y || Scan(floats, y) < 0.0 ==> forall k :: 0 <= k < |floats| && BottomOf(floats[k]) > y ==>
      Scan(floats, y) != 0.0 && Scan(floats, y) <= BottomOf(floats[k])
    ensures (exists k :: 0 <= k < |floats| && y < BottomOf(floats[k]) < 0.0) ==> Scan(floats, y) < 0.0
  {
    if floats != [] { ScanOver(floats[..|floats| - 1], y); }
  }

  /** While some float ends below `y`, the scan moves on, past the end of one of them. */
  lemma ScanAdvances(floats: seq<Region>, y: real)
    requires EndBelow(floats, y) > 0
    ensures Scan(floats, y) > y && exists k :: 0 <= k < |floats| && y < BottomOf(floats[k]) <= Scan(floats, y)
  {
    SomeBelow(floats, y);
    ScanOver(floats, y);
    if Scan(floats, y) == 0.0 {
      ScanUnder(floats, y);
      var k :| 0 <= k < |floats| && BottomOf(floats[k]) > y;
      if BottomOf(floats[k]) > 0.0 { assert !Final(floats, k); }
    }
  }

  /** The scan finds the next bottom edge unless it skips one at zero. */
  lemma ScanExactly(floats: seq<Region>, y: real)
    ensures NextBottom(floats, y, Scan(floats, y)) <==> !Skips(floats, y)
  {
    ScanOver(floats, y);
    if y < 0.0 && forall k :: 0 <= k < |floats| && BottomOf(floats[k]) > y ==> BottomOf(floats[k]) >= 0.0 {
      ScanUnder(floats, y);
    }
  }

  /** Two floats, ending at zero and at three, between which the scan from above passes over the first. */
  lemma ScanCanSkip()
    ensures var floats := [Region(Rect(0.0, -1.0, 1.0, 1.0), Left), Region(Rect(1.0, 0.0, 1.0, 3.0), Left)];
            Scan(floats, -1.0) == 3.0 && Skips(floats, -1.0)
  {
    var floats := [Region(Rect(0.0, -1.0, 1.0, 1.0), Left), Region(Rect(1.0, 0.0, 1.0, 3.0), Left)];
    assert floats[..1] == [floats[0]] && floats[..1][..0] == [];
    assert Final(floats, 1) && BottomOf(floats[0]) == 0.0;
  }

  /** Two boxes have no interior point in common. */
  predicate Apart(a: Rect, b: Rect) {
    a.x + a.width <= b.x || b.x + b.width <= a.x || a.y + a.height <= b.y || b.y + b.height <= a.y
  }

  predicate Sideways(r: Region) {
    r.side.Left? || r.side.Right?
  }

  /** No two left or right floats overlap. */
  ghost predicate Disjoint(floats: seq<Region>) {
    forall i, j :: 0 <= i < j < |floats| && Sideways(floats[i]) && Sideways(floats[j]) ==>
      Apart(floats[i].box, floats[j].box)
  }

  datatype Clearance = ClearNone | ClearLeft | ClearRight | ClearBoth | ClearTop | ClearBottom

  predicate Clears(clear: Clearance, side: Side) {
    || clear.ClearBoth? || (clear.ClearLeft? && side.Left?) || (clear.ClearRight? && side.Right?)
    || (clear.ClearTop? && side.Top?) || (clear.ClearBottom? && side.Bottom?)
  }

  /** A clearance names one side, or left and right and all the others at once, or none. */
  lemma ClearsByName(clear: Clearance, side: Side)
    ensures Clears(clear, side) <==>
      clear == ClearBoth || clear == match side
                                     case Left => ClearLeft
                                     case Right => ClearRight
                                     case Top => ClearTop
                                     case Bottom => ClearBottom
  {
  }

  ghost predicate LineAt(floats: seq<Region>, x: real, width: real, y: real, height: real, left: real, span: real) {
    exists right :: Edges(floats, x, width, y, height, left, right) && span == Max(right - left, 1.0)
  }

  /** The box overlaps no left or right float. */
  ghost predicate Clear(floats: seq<Region>, box: Rect) {
    forall k :: 0 <= k < |floats| && Sideways(floats[k]) ==> Apart(floats[k].box, box)
  }

  /** `edge` is the inner left or right edge that the floats leave at the height of the box. */
  ghost predicate EdgeAt(floats: seq<Region>, x: real, width: real, y: real, height: real, edge: real, isLeft: bool) {
    exists left, right :: Edges(floats, x, width, y, height, left, right) && edge == if isLeft then left else right
  }

  /** Between `from` and `to`, excluded, there is no room for a box of this size. */
  ghost predicate Crowded(floats: seq<Region>, x: real, width: real, from: real, to: real, outerWidth: real,
                          outerHeight: real) {
    forall at :: from <= at < to ==> !Room(floats, x, width, at, outerWidth, outerHeight)
  }

  /** No higher place has room for the box. */
  ghost predicate Highest(floats: seq<Region>, x: real, width: real, from: real, box: Rect) {
    Crowded(floats, x, width, from, box.y, box.width, box.height)
  }

  /** The search from `y` finds the highest place: it starts at zero or below, or there is room
      above zero, or there is none between zero and what a scan from above zero finds. */
  ghost predicate FindsHighest(floats: seq<Region>, x: real, width: real, y: real, outerWidth: real,
                               outerHeight: real) {
    || 0.0 <= y
    || (exists z :: y <= z < 0.0 && Room(floats, x, width, z, outerWidth, outerHeight))
    || Crowded(floats, x, width, 0.0, ZeroScan(floats), outerWidth, outerHeight)
  }

  /** A search that began above zero and has passed it has passed all that a scan from there skips. */
  ghost predicate Passed(floats: seq<Region>, x: real, width: real, from: real, at: real,
                         outerWidth: real, outerHeight: real) {
    from < 0.0 <= at ==>
      && ZeroScan(floats) <= at
      && (Crowded(floats, x, width, 0.0, ZeroScan(floats), outerWidth, outerHeight) ==>
            Crowded(floats, x, width, from, at, outerWidth, outerHeight))
  }

  class Engine {
    var floats: seq<Region>
    var y: real

    constructor ()
      ensures floats == [] && y == 0.0
    {
      floats, y := [], 0.0;
    }

    method FloatEdges(x: real, width: real, at: real, height: real) returns (left: real, right: real)
      ensures Edges(floats, x, width, at, height, left, right)
    {
      left, right := x, x + width;
      for k := 0 to |floats|
        invariant Edges(floats[..k], x, width, at, height, left, right)
      {
        var region := floats[k];
        ghost var before, after, l, r := floats[..k], floats[..k + 1], left, right;
        assert after == before + [region];
        if !(at + height <= region.box.y || at >= BottomOf(region)) {
          if region.side == Left {
            left := Max(left, region.box.x + region.box.width);
          } else if region.side == Right {
            right := Min(right, region.box.x);
          }
        }
        EdgesNext(before, region, x, width, at, height, l, r);
      }
      assert floats[..|floats|] == floats;
    }

    method NextFloatBottom(at: real) returns (next: real)
      ensures next == Scan(floats, at) && (NextBottom(floats, at, next) <==> !Skips(floats, at))
      ensures EndBelow(floats, at) > 0 ==> next > at && EndBelow(floats, next) < EndBelow(floats, at)
    {
      next := 0.0;
      for k := 0 to |floats|
        invariant next == Scan(floats[..k], at)
      {
        assert floats[..k + 1][..k] == floats[..k];
        var bottom := BottomOf(floats[k]);
        if bottom > at && (next == 0.0 || bottom < next) {
          next := bottom;
        }
      }
      assert floats[..|floats|] == floats;
      ScanExactly(floats, at);
      if EndBelow(floats, at) > 0 {
        ScanAdvances(floats, at);
        EndBelowFalls(floats, at, next);
      }
    }

    /** Places a float: it never overlaps a left or right float, stays within its containing width
        and is as high as there is room for it, except that a search from above zero may miss room
        between zero and the place found. */
    method AddFloat(side: Side, x: real, width: real, containingHeight: real, heightDefinite: bool, wide: real,
                    high: real)
      returns (ok: bool, box: Rect)
      modifies `floats
      ensures ok <==> |old(floats)| < MAX_FLOAT_BOXES
      ensures if ok then floats == old(floats) + [Region(box, side)] else floats == old(floats)
      ensures old(Disjoint(floats)) ==> Disjoint(floats)
      ensures ok ==> box.width == Min(Max(wide, 1.0), width) && box.height == Max(high, 1.0) && y <= box.y
      ensures ok && (side.Left? || side.Right?) ==>
        && x <= box.x && box.x + box.width <= x + width && Clear(old(floats), box)
        && (side.Left? ==> EdgeAt(old(floats), x, width, box.y, box.height, box.x, true))
        && (side.Right? ==> EdgeAt(old(floats), x, width, box.y, box.height, box.x + box.width, false))
        && (0.0 <= y || !CanSkip(old(floats)) ==> Highest(old(floats), x, width, y, box))
        && Crowded(old(floats), x, width, y, Min(box.y, 0.0), box.width, box.height)
        && (Highest(old(floats), x, width, y, box)
            <==> FindsHighest(old(floats), x, width, y, Min(Max(wide, 1.0), width), Max(high, 1.0)))
      ensures ok && side.Top? ==> box.x == x && box.y == y
      ensures ok && side.Bottom? ==>
        box.x == x && box.y == if heightDefinite then Max(y, containingHeight - box.height) else y
    {
      ok, box := |floats| < MAX_FLOAT_BOXES, Rect(0.0, 0.0, 0.0, 0.0);
      if !ok {
        return;
      }
      var outerWidth, outerHeight := Min(Max(wide, 1.0), width), Max(high, 1.0);
      if side.Top? || side.Bottom? {
        var at := if side.Bottom? && heightDefinite then Max(y, containingHeight - outerHeight) else y;
        box := Rect(x, at, outerWidth, outerHeight);
      } else {
        box := Search(side, x, width, outerWidth, outerHeight);
      }
      floats := floats + [Region(box, side)];
    }

    /** Moves the flow position below every float that is to be cleared, and no further. */
    method ClearFloats(clear: Clearance)
      modifies `y
      ensures old(y) <= y
      ensures forall k :: 0 <= k < |floats| && Clears(clear, floats[k].side) ==> BottomOf(floats[k]) <= y
      ensures y == old(y) || exists k :: 0 <= k < |floats| && Clears(clear, floats[k].side) && y == BottomOf(floats[k])
    {
      for i := 0 to |floats|
        invariant old(y) <= y
        invariant forall k :: 0 <= k < i && Clears(clear, floats[k].side) ==> BottomOf(floats[k]) <= y
        invariant y == old(y) || exists k :: 0 <= k < i && Clears(clear, floats[k].side) && y == BottomOf(floats[k])
      {
        if Clears(clear, floats[i].side) {
          y := Max(y, BottomOf(floats[i]));
        }
      }
    }

    /** The room for a line at `at`: when less than one pixel is left there, the line moves down
        once, to the next bottom edge. */
    method FloatLineArea(x: real, width: real, at: real, lineHeight: real)
      returns (left: real, span: real, ghost used: real)
      modifies `y
      ensures 1.0 <= span && LineAt(floats, x, width, used, if lineHeight <= 0.0 then 1.0 else lineHeight, left, span)
      ensures var height := if lineHeight <= 0.0 then 1.0 else lineHeight;
        used == if !Room(floats, x, width, at, 1.0, height) && Scan(floats, at) > at then Scan(floats, at) else at
      ensures used == at ==> y == old(y)
      ensures used != at ==>
        y == used > at && !Room(floats, x, width, at, 1.0, if lineHeight <= 0.0 then 1.0 else lineHeight)
    {
      var height := if lineHeight <= 0.0 then 1.0 else lineHeight;
      var right;
      left, right := FloatEdges(x, width, at, height);
      used := at;
      if right - left < 1.0 {
        var nextY := NextFloatBottom(at);
        if nextY > at {
          y, used := nextY, nextY;
          left, right := FloatEdges(x, width, nextY, height);
        }
      }
      span := Max(right - left, 1.0);
    }

    /** The downward search. */
    method Search(side: Side, x: real, width: real, outerWidth: real, outerHeight: real) returns (box: Rect)
      requires outerWidth <= width && (side.Left? || side.Right?) && 0.0 < outerHeight
      ensures box.width == outerWidth && box.height == outerHeight && y <= box.y
      ensures x <= box.x && box.x + box.width <= x + width && Clear(floats, box)
      ensures side.Left? ==> EdgeAt(floats, x, width, box.y, box.height, box.x, true)
      ensures side.Right? ==> EdgeAt(floats, x, width, box.y, box.height, box.x + box.width, false)
      ensures 0.0 <= y || !CanSkip(floats) ==> Highest(floats, x, width, y, box)
      ensures Crowded(floats, x, width, y, Min(box.y, 0.0), outerWidth, outerHeight)
      ensures Highest(floats, x, width, y, box) <==> FindsHighest(floats, x, width, y, outerWidth, outerHeight)
    {
      var at := y;
      while true
        invariant y <= at && Crowded(floats, x, width, y, Min(at, 0.0), outerWidth, outerHeight)
        invariant 0.0 <= y || !CanSkip(floats) ==> Crowded(floats, x, width, y, at, outerWidth, outerHeight)
        invariant Passed(floats, x, width, y, at, outerWidth, outerHeight)
        decreases EndBelow(floats, at)
      {
        var left, right := FloatEdges(x, width, at, outerHeight);
        if right - left >= outerWidth {
          box := Rect(if side == Right then right - outerWidth else left, at, outerWidth, outerHeight);
          EdgesClear(floats, x, width, left, right, box);
          assert Room(floats, x, width, at, outerWidth, outerHeight);
          return;
        }
        NoneMeets(floats, x, width, at, outerHeight, left, right);
        var nextY := NextFloatBottom(at);
        if nextY <= at {
          assert false;
          return Rect(x, at, outerWidth, outerHeight);
        }
        CrowdedStep(floats, x, width, y, at, nextY, outerWidth, outerHeight, left, right);
        PassedStep(floats, x, width, y, at, nextY, outerWidth, outerHeight, left, right);
        at := nextY;
      }
    }
  }

  lemma EdgesNext(before: seq<Region>, region: Region, x: real, width: real, y: real, height: real, left: real,
                  right: real)
    requires Edges(before, x, width, y, height, left, right)
    ensures Edges(before + [region], x, width, y, height,
                  if Meets(region, y, height) && region.side.Left?
                  then Max(left, region.box.x + region.box.width) else left,
                  if Meets(region, y, height) && region.side.Right? then Min(right, region.box.x) else right)
  {
    var after := before + [region];
    assert after[|before|] == region;
    assert forall k :: 0 <= k < |before| ==> after[k] == before[k];
  }

  lemma {:induction false} SomeBelow(floats: seq<Region>, y: real)
    ensures EndBelow(floats, y) > 0 <==> exists k :: 0 <= k < |floats| && BottomOf(floats[k]) > y
  {
    if floats != [] {
      SomeBelow(floats[..|floats| - 1], y);
      var n := |floats| - 1;
      if k :| 0 <= k < n && BottomOf(floats[..n][k]) > y { assert BottomOf(floats[k]) > y; }
    }
  }

  /** The edges are no further in than floats push them that overlap the band. */
  lemma EdgesTight(floats: seq<Region>, x: real, width: real, y: real, height: real, left: real, right: real)
    requires Edges(floats, x, width, y, height, left, right)
    ensures left != x ==>
      exists k :: 0 <= k < |floats| && floats[k].side == Left && left == floats[k].box.x + floats[k].box.width
                  && floats[k].box.y < y + height && y < floats[k].box.y + floats[k].box.height
    ensures right != x + width ==>
      exists k :: 0 <= k < |floats| && floats[k].side == Right && right == floats[k].box.x
                  && floats[k].box.y < y + height && y < floats[k].box.y + floats[k].box.height
  {
  }

  lemma EdgesClear(floats: seq<Region>, x: real, width: real, left: real, right: real, box: Rect)
    requires Edges(floats, x, width, box.y, box.height, left, right)
    requires left <= box.x && box.x + box.width <= right
    ensures Clear(floats, box)
  {
  }

  /** A band in which the floats take some of the width meets one of them. */
  lemma NoneMeets(floats: seq<Region>, x: real, width: real, y: real, height: real, left: real, right: real)
    requires Edges(floats, x, width, y, height, left, right) && right - left < width
    ensures EndBelow(floats, y) > 0
  {
    SomeBelow(floats, y);
  }

  /** Further down, up to the next bottom edge, there is no more room than here. */
  lemma CrowdedOn(floats: seq<Region>, x: real, width: real, from: real, at: real, next: real,
                  outerWidth: real, outerHeight: real, left: real, right: real)
    requires Crowded(floats, x, width, from, at, outerWidth, outerHeight)
    requires Edges(floats, x, width, at, outerHeight, left, right) && right - left < outerWidth
    requires at < next && forall k :: 0 <= k < |floats| && BottomOf(floats[k]) > at ==> next <= BottomOf(floats[k])
    ensures Crowded(floats, x, width, from, next, outerWidth, outerHeight)
  {
    forall z | from <= z < next
      ensures !Room(floats, x, width, z, outerWidth, outerHeight)
    {
      if at <= z {
        forall l, r | Edges(floats, x, width, z, outerHeight, l, r)
          ensures r - l < outerWidth
        { Narrower(floats, x, width, at, z, outerHeight, left, right, l, r); }
      }
    }
  }

  /** One step of the search, which may pass over an edge at zero. */
  lemma CrowdedStep(floats: seq<Region>, x: real, width: real, from: real, at: real, next: real,
                    outerWidth: real, outerHeight: real, left: real, right: real)
    requires from <= at < next && Edges(floats, x, width, at, outerHeight, left, right) && right - left < outerWidth
    requires 0.0 < outerHeight && (NextBottom(floats, at, next) <==> !Skips(floats, at))
    requires Crowded(floats, x, width, from, Min(at, 0.0), outerWidth, outerHeight)
    requires 0.0 <= from || !CanSkip(floats) ==> Crowded(floats, x, width, from, at, outerWidth, outerHeight)
    ensures Crowded(floats, x, width, from, Min(next, 0.0), outerWidth, outerHeight)
    ensures 0.0 <= from || !CanSkip(floats) ==> Crowded(floats, x, width, from, next, outerWidth, outerHeight)
  {
    if Skips(floats, at) {
      assert NextBottom(floats, at, 0.0);
      CrowdedOn(floats, x, width, from, at, 0.0, outerWidth, outerHeight, left, right);
    } else if at < 0.0 || 0.0 <= from || !CanSkip(floats) {
      CrowdedOn(floats, x, width, from, at, next, outerWidth, outerHeight, left, right);
    }
  }

  lemma PassedStep(floats: seq<Region>, x: real, width: real, from: real, at: real, next: real,
                   outerWidth: real, outerHeight: real, left: real, right: real)
    requires from <= at < next && Edges(floats, x, width, at, outerHeight, left, right) && right - left < outerWidth
    requires 0.0 < outerHeight && next == Scan(floats, at)
      && Passed(floats, x, width, from, at, outerWidth, outerHeight)
    requires Crowded(floats, x, width, from, Min(at, 0.0), outerWidth, outerHeight)
    ensures Passed(floats, x, width, from, next, outerWidth, outerHeight)
  {
    ScanExactly(floats, at);
    if at < 0.0 <= next {
      ScanOver(floats, at);
      ScanFromAbove(floats, at);
      CrowdedOn(floats, x, width, from, at, 0.0, outerWidth, outerHeight, left, right);
    } else if from < 0.0 <= at && Crowded(floats, x, width, 0.0, ZeroScan(floats), outerWidth, outerHeight) {
      CrowdedOn(floats, x, width, from, at, next, outerWidth, outerHeight, left, right);
    }
  }

  lemma Narrower(floats: seq<Region>, x: real, width: real, y: real, z: real, height: real,
                 left: real, right: real, l: real, r: real)
    requires y <= z && forall k :: 0 <= k < |floats| && BottomOf(floats[k]) > y ==> z < BottomOf(floats[k])
    requires Edges(floats, x, width, y, height, left, right) && Edges(floats, x, width, z, height, l, r)
    ensures left <= l && r <= right
  {
    assert forall k :: 0 <= k < |floats| && Meets(floats[k], y, height) ==> Meets(floats[k], z, height);
  }

  // ---------------------------------------------------------------- room that is missed

  const HIGH: Region := Region(Rect(0.0, -1.0, 5.0, 1.0), Left)
  const LOW: Region := Region(Rect(7.0, -1.0, 3.0, 4.0), Right)

  /** The two floats leave a strip of two above zero and one of seven right below it. */
  lemma Strips(z: real)
    ensures -1.0 <= z < 0.0 ==> Edges([HIGH, LOW], 0.0, 10.0, z, 1.0, 5.0, 7.0)
    ensures Edges([HIGH, LOW], 0.0, 10.0, 0.0, 1.0, 0.0, 7.0)
    ensures Edges([HIGH], 0.0, 10.0, -1.0, 4.0, 5.0, 10.0) && Edges([], 0.0, 10.0, -1.0, 1.0, 0.0, 10.0)
  {
    var fs := [HIGH, LOW];
    assert fs[0] == HIGH && fs[1] == LOW;
    assert -1.0 <= z < 0.0 ==> Meets(fs[0], z, 1.0) && Meets(fs[1], z, 1.0);
    assert !Meets(fs[0], 0.0, 1.0) && Meets(fs[1], 0.0, 1.0);
    assert Meets([HIGH][0], -1.0, 4.0);
  }

  lemma CrowdedAbove(z: real)
    requires -1.0 <= z < 0.0
    ensures !Room([HIGH, LOW], 0.0, 10.0, z, 4.0, 1.0)
  {
    Strips(z);
    forall l, r | Edges([HIGH, LOW], 0.0, 10.0, z, 1.0, l, r)
      ensures r - l < 4.0
    { EdgesUnique([HIGH, LOW], 0.0, 10.0, z, 1.0, 5.0, 7.0, l, r); }
  }

  lemma ScansThree()
    ensures ZeroScan([HIGH, LOW]) == 3.0
  {
    assert [HIGH, LOW][..1] == [HIGH] && [HIGH][..0] == [];
    assert ZeroScan([HIGH]) == 0.0;
  }

  lemma NotTheHighest()
    ensures Room([HIGH, LOW], 0.0, 10.0, 0.0, 4.0, 1.0)
    ensures !FindsHighest([HIGH, LOW], 0.0, 10.0, -1.0, 4.0, 1.0)
  {
    Strips(0.0);
    assert Room([HIGH, LOW], 0.0, 10.0, 0.0, 4.0, 1.0);
    forall z | -1.0 <= z < 0.0
      ensures !Room([HIGH, LOW], 0.0, 10.0, z, 4.0, 1.0)
    { CrowdedAbove(z); }
    ScansThree();
  }

  /** Where there is room at once, the float goes there. */
  lemma PlacedAtOnce(floats: seq<Region>, x: real, width: real, y: real, box: Rect, left: real, right: real)
    requires Highest(floats, x, width, y, box) && y <= box.y
    requires Edges(floats, x, width, y, box.height, left, right) && right - left >= box.width
    ensures box.y == y
    ensures forall edge :: EdgeAt(floats, x, width, y, box.height, edge, true) ==> edge == left
    ensures forall edge :: EdgeAt(floats, x, width, y, box.height, edge, false) ==> edge == right
  {
    assert Room(floats, x, width, y, box.width, box.height);
    forall l, r | Edges(floats, x, width, y, box.height, l, r)
      ensures l == left && r == right
    { EdgesUnique(floats, x, width, y, box.height, left, right, l, r); }
  }

  lemma FirstPlace(box: Rect)
    requires box.width == 5.0 && box.height == 1.0 && -1.0 <= box.y && Highest([], 0.0, 10.0, -1.0, box)
    requires EdgeAt([], 0.0, 10.0, box.y, box.height, box.x, true)
    ensures box == HIGH.box
  {
    Strips(0.0);
    PlacedAtOnce([], 0.0, 10.0, -1.0, box, 0.0, 10.0);
  }

  lemma SecondPlace(box: Rect)
    requires box.width == 3.0 && box.height == 4.0 && -1.0 <= box.y && Highest([HIGH], 0.0, 10.0, -1.0, box)
    requires EdgeAt([HIGH], 0.0, 10.0, box.y, box.height, box.x + box.width, false)
    ensures box == LOW.box
  {
    Strips(0.0);
    PlacedAtOnce([HIGH], 0.0, 10.0, -1.0, box, 5.0, 10.0);
  }

  lemma NoSkips()
    ensures !CanSkip([]) && !CanSkip([HIGH])
  {
  }

  /** The first of the floats, as it is placed. */
  method OneFloat() returns (e: Engine)
    ensures fresh(e) && e.floats == [HIGH] && e.y == -1.0
  {
    e := new Engine();
    e.y := -1.0;
    NoSkips();
    var ok, box := e.AddFloat(Left, 0.0, 10.0, 0.0, false, 5.0, 1.0);
    FirstPlace(box);
  }

  method TwoFloats() returns (e: Engine)
    ensures fresh(e) && e.floats == [HIGH, LOW] && e.y == -1.0
  {
    e := OneFloat();
    NoSkips();
    var ok, box := e.AddFloat(Right, 0.0, 10.0, 0.0, false, 3.0, 4.0);
    SecondPlace(box);
  }

  /** A third float placed from above zero comes to lie below zero, although there is room at zero. */
  method MissedRoom() returns (e: Engine, box: Rect)
    ensures e.floats == [HIGH, LOW, Region(box, Left)] && e.y == -1.0
    ensures 0.0 < box.y && Room([HIGH, LOW], 0.0, 10.0, 0.0, box.width, box.height)
  {
    e := TwoFloats();
    NotTheHighest();
    var ok;
    ok, box := e.AddFloat(Left, 0.0, 10.0, 0.0, false, 4.0, 1.0);
  }
}
