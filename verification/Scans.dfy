/** Walks over a forest in tree order, and the `id` index that such a walk fills. */
module Scans {
  import opened Forests

  ghost function MaxOf(s: set<nat>): (m: nat)
    ensures forall x | x in s :: x <= m
  {
    if s == {} then 0 else
      var x :| x in s;
      var rest := MaxOf(s - {x});
      assert forall y | y in s :: y == x || y in s - {x};
      if x < rest then rest else x
  }

  ghost function Deepest<N>(f: Forest<N>): (m: nat)
    ensures forall n | n in f.depth :: f.depth[n] <= m
  {
    assert forall n | n in f.depth :: f.depth[n] in f.depth.Values;
    MaxOf(f.depth.Values)
  }

  lemma Listed<N>(f: Forest<N>, n: N, i: nat)
    requires WellFormed(f) && n in f.children && i < |f.children[n]|
    ensures var c := f.children[n][i];
            && c in f.parent && f.parent[c] == n && c in f.children && f.depth[c] == f.depth[n] + 1
  {
    Kids(f, n);
    assert f.children[n][i] in f.children[n];
  }

  /** The nodes at and below `n` in tree order, leaving out every subtree rooted in `skip`. */
  ghost function Scan<N>(f: Forest<N>, skip: set<N>, n: N): (s: seq<N>)
    requires WellFormed(f) && n in f.children
    ensures forall x | x in s :: x in f.children
    decreases Deepest(f) - f.depth[n], |f.children[n]| + 1
  {
    if n in skip then [] else [n] + ScanFrom(f, skip, n, 0)
  }

  /** The part of the walk that visits the children of `n` from number `i` on. */
  ghost function ScanFrom<N>(f: Forest<N>, skip: set<N>, n: N, i: nat): (s: seq<N>)
    requires WellFormed(f) && n in f.children && i <= |f.children[n]|
    ensures forall x | x in s :: x in f.children
    decreases Deepest(f) - f.depth[n], |f.children[n]| - i
  {
    if i == |f.children[n]| then [] else
      var c := f.children[n][i];
      Listed(f, n, i);
      Scan(f, skip, c) + ScanFrom(f, skip, n, i + 1)
  }

  /** `n` can be reached from `top` without entering a skipped subtree. */
  ghost predicate Reaches<N>(f: Forest<N>, skip: set<N>, top: N, n: N)
    requires WellFormed(f) && n in f.children
    decreases f.depth[n]
  {
    n !in skip && (n == top || (n in f.parent && Reaches(f, skip, top, f.parent[n])))
  }

  lemma {:induction false} ReachesAbove<N>(f: Forest<N>, skip: set<N>, top: N, n: N)
    requires WellFormed(f) && n in f.children && Reaches(f, skip, top, n)
    ensures top in f.children && Above(f, top, n)
    decreases f.depth[n]
  {
    if n != top { ReachesAbove(f, skip, top, f.parent[n]); }
  }

  /** A node is reached from `top` exactly when no node from `top` down to it is skipped. */
  lemma {:induction false} ReachesBetween<N>(f: Forest<N>, skip: set<N>, top: N, n: N)
    requires WellFormed(f) && n in f.children && top in f.children
    ensures Reaches(f, skip, top, n) <==>
              && Above(f, top, n)
              && forall a | a in f.children && Above(f, top, a) && Above(f, a, n) :: a !in skip
    decreases f.depth[n]
  {
    assert Above(f, top, top) && Above(f, n, n);
    forall a | a in f.children && Above(f, a, n) && a != n
      ensures n in f.parent && Above(f, a, f.parent[n])
    { }
    if n == top {
      forall a | a in f.children && Above(f, top, a) && Above(f, a, n)
        ensures a == n
      {
        AboveDepth(f, top, a);
        AboveDepth(f, a, n);
      }
    } else if n in f.parent {
      assert LinkAgrees(f, n);
      ReachesBetween(f, skip, top, f.parent[n]);
    }
  }

  /** A node strictly below `top` is reached through exactly one child of `top`. */
  lemma {:induction false} ReachesThrough<N>(f: Forest<N>, skip: set<N>, top: N, n: N)
    requires WellFormed(f) && n in f.children && top in f.children && n != top
    ensures Reaches(f, skip, top, n) <==>
              top !in skip && exists c | c in f.children[top] :: Reaches(f, skip, c, n)
    decreases f.depth[n]
  {
    if Reaches(f, skip, top, n) {
      var m := f.parent[n];
      assert LinkAgrees(f, n);
      if m == top {
        assert n in f.children[top] && Reaches(f, skip, n, n);
      } else {
        ReachesThrough(f, skip, top, m);
        var c :| c in f.children[top] && Reaches(f, skip, c, m);
        assert Reaches(f, skip, c, n);
      }
    }
    if top !in skip && exists c | c in f.children[top] :: Reaches(f, skip, c, n) {
      var c :| c in f.children[top] && Reaches(f, skip, c, n);
      Kids(f, top);
      if c == n {
        assert Reaches(f, skip, top, top);
      } else {
        var m := f.parent[n];
        assert Reaches(f, skip, c, m);
        ReachesAbove(f, skip, c, m);
        AboveDepth(f, c, m);
        ReachesThrough(f, skip, top, m);
      }
    }
  }

  /** A walk visits exactly the nodes that can be reached. */
  lemma {:induction false} ScanMembers<N>(f: Forest<N>, skip: set<N>, top: N, n: N)
    requires WellFormed(f) && top in f.children && n in f.children
    ensures n in Scan(f, skip, top) <==> Reaches(f, skip, top, n)
    decreases Deepest(f) - f.depth[top], |f.children[top]| + 1
  {
    if top !in skip {
      ScanFromMembers(f, skip, top, 0, n);
      if n != top {
        ReachesThrough(f, skip, top, n);
      } else {
        assert [n] + ScanFrom(f, skip, top, 0) == Scan(f, skip, top);
        assert n in [n];
      }
    } else if n != top {
      ReachesThrough(f, skip, top, n);
    }
  }

  lemma {:induction false} ScanFromMembers<N>(f: Forest<N>, skip: set<N>, top: N, i: nat, n: N)
    requires WellFormed(f) && top in f.children && n in f.children && i <= |f.children[top]|
    ensures n in ScanFrom(f, skip, top, i)
      <==> exists k :: i <= k < |f.children[top]| && Reaches(f, skip, f.children[top][k], n)
    decreases Deepest(f) - f.depth[top], |f.children[top]| - i
  {
    if i < |f.children[top]| {
      var c := f.children[top][i];
      Listed(f, top, i);
      ScanMembers(f, skip, c, n);
      ScanFromMembers(f, skip, top, i + 1, n);
    }
  }

  /** No node is visited twice. */
  lemma {:induction false} ScanNoDup<N>(f: Forest<N>, skip: set<N>, top: N)
    requires WellFormed(f) && top in f.children
    ensures NoDup(Scan(f, skip, top))
    decreases Deepest(f) - f.depth[top], |f.children[top]| + 1
  {
    if top !in skip {
      ScanFromNoDup(f, skip, top, 0);
      var rest := ScanFrom(f, skip, top, 0);
      if top in rest {
        ScanFromMembers(f, skip, top, 0, top);
        var k :| 0 <= k < |f.children[top]| && Reaches(f, skip, f.children[top][k], top);
        Listed(f, top, k);
        ReachesAbove(f, skip, f.children[top][k], top);
        AboveDepth(f, f.children[top][k], top);
      }
    }
  }

  lemma {:induction false} ScanFromNoDup<N>(f: Forest<N>, skip: set<N>, top: N, i: nat)
    requires WellFormed(f) && top in f.children && i <= |f.children[top]|
    ensures NoDup(ScanFrom(f, skip, top, i))
    decreases Deepest(f) - f.depth[top], |f.children[top]| - i
  {
    if i < |f.children[top]| {
      var c := f.children[top][i];
      Listed(f, top, i);
      ScanNoDup(f, skip, c);
      ScanFromNoDup(f, skip, top, i + 1);
      var a, b := Scan(f, skip, c), ScanFrom(f, skip, top, i + 1);
      forall x | x in a
        ensures x !in b
      { ScansApart(f, skip, top, i, x); }
      assert forall k :: 0 <= k < |a| ==> a[k] in a;
      assert forall k :: 0 <= k < |b| ==> b[k] in b;
    }
  }

  lemma ScansApart<N>(f: Forest<N>, skip: set<N>, top: N, i: nat, x: N)
    requires WellFormed(f) && top in f.children && i < |f.children[top]|
    requires f.children[top][i] in f.children && x in Scan(f, skip, f.children[top][i])
    ensures x !in ScanFrom(f, skip, top, i + 1)
  {
    var c := f.children[top][i];
    Listed(f, top, i);
    ScanMembers(f, skip, c, x);
    ReachesAbove(f, skip, c, x);
    ScanFromMembers(f, skip, top, i + 1, x);
    forall k | i + 1 <= k < |f.children[top]| && Reaches(f, skip, f.children[top][k], x)
      ensures false
    {
      Listed(f, top, k);
      ReachesAbove(f, skip, f.children[top][k], x);
      assert x in Subtree(f, c) && x in Subtree(f, f.children[top][k]);
      Kids(f, top);
      SiblingsDisjoint(f, c, f.children[top][k]);
    }
  }

  /** The subtree of `top` looks the same in both forests. */
  ghost predicate SameBelow<N>(f: Forest<N>, g: Forest<N>, skip: set<N>, skip2: set<N>, top: N)
    requires WellFormed(f) && WellFormed(g)
  {
    && top in f.children && top in g.children
    && forall n | n in f.children && Above(f, top, n) ::
         n in g.children && g.children[n] == f.children[n] && (n in skip <==> n in skip2)
  }

  lemma SameBelowChild<N>(f: Forest<N>, g: Forest<N>, skip: set<N>, skip2: set<N>, top: N, i: nat)
    requires WellFormed(f) && WellFormed(g) && SameBelow(f, g, skip, skip2, top) && i < |f.children[top]|
    ensures SameBelow(f, g, skip, skip2, f.children[top][i])
  {
    var c := f.children[top][i];
    Listed(f, top, i);
    assert Above(f, top, top) && Above(f, top, c);
    forall n | n in f.children && Above(f, c, n)
      ensures Above(f, top, n)
    { AboveTransitive(f, top, c, n); }
    assert Above(f, c, c);
  }

  /** A walk depends only on the subtree it visits. */
  lemma {:induction false} ScanFrame<N>(f: Forest<N>, g: Forest<N>, skip: set<N>, skip2: set<N>, top: N)
    requires WellFormed(f) && WellFormed(g) && SameBelow(f, g, skip, skip2, top)
    ensures Scan(f, skip, top) == Scan(g, skip2, top)
    decreases Deepest(f) - f.depth[top], |f.children[top]| + 1
  {
    assert Above(f, top, top);
    if top !in skip { ScanFromFrame(f, g, skip, skip2, top, 0); }
  }

  lemma {:induction false} ScanFromFrame<N>(f: Forest<N>, g: Forest<N>, skip: set<N>, skip2: set<N>, top: N, i: nat)
    requires WellFormed(f) && WellFormed(g) && SameBelow(f, g, skip, skip2, top) && i <= |f.children[top]|
    ensures i <= |g.children[top]|
    ensures ScanFrom(f, skip, top, i) == ScanFrom(g, skip2, top, i)
    decreases Deepest(f) - f.depth[top], |f.children[top]| - i
  {
    assert Above(f, top, top);
    if i < |f.children[top]| {
      Listed(f, top, i);
      SameBelowChild(f, g, skip, skip2, top, i);
      ScanFrame(f, g, skip, skip2, f.children[top][i]);
      ScanFromFrame(f, g, skip, skip2, top, i + 1);
    }
  }

  // ---------------------------------------------------------------- the id index

  /** Adds the nodes of `order` to `index` under their id; the first one to claim an id keeps it. */
  ghost function Indexed<N>(index: map<string, N>, order: seq<N>, idOf: map<N, string>): map<string, N>
    requires forall n | n in order :: n in idOf
    decreases |order|
  {
    if order == [] then index else Indexed(Claim(index, order[0], idOf[order[0]]), order[1..], idOf)
  }

  function Claim<N>(index: map<string, N>, n: N, id: string): map<string, N> {
    if id == "" || id in index then index else index[id := n]
  }

  lemma {:induction false} IndexedSplit<N>(index: map<string, N>, a: seq<N>, b: seq<N>, idOf: map<N, string>)
    requires (forall n | n in a :: n in idOf) && (forall n | n in b :: n in idOf)
    ensures Indexed(index, a + b, idOf) == Indexed(Indexed(index, a, idOf), b, idOf)
    decreases |a|
  {
    if a == [] {
      assert a + b == b;
    } else {
      assert (a + b)[1..] == a[1..] + b && (a + b)[0] == a[0];
      IndexedSplit(Claim(index, a[0], idOf[a[0]]), a[1..], b, idOf);
    }
  }

  /** One step of the walk over the children of `top`. */
  lemma IndexedChild<N>(index: map<string, N>, f: Forest<N>, skip: set<N>, top: N, i: nat, idOf: map<N, string>)
    requires WellFormed(f) && top in f.children && i < |f.children[top]| && idOf.Keys == f.children.Keys
    ensures f.children[top][i] in f.children && f.depth[f.children[top][i]] == f.depth[top] + 1 <= Deepest(f)
    ensures Indexed(index, ScanFrom(f, skip, top, i), idOf)
         == Indexed(Indexed(index, Scan(f, skip, f.children[top][i]), idOf), ScanFrom(f, skip, top, i + 1), idOf)
  {
    Listed(f, top, i);
    IndexedSplit(index, Scan(f, skip, f.children[top][i]), ScanFrom(f, skip, top, i + 1), idOf);
  }

  lemma IndexedNode<N>(index: map<string, N>, f: Forest<N>, skip: set<N>, top: N, idOf: map<N, string>)
    requires WellFormed(f) && top in f.children && top !in skip && idOf.Keys == f.children.Keys
    ensures Indexed(index, Scan(f, skip, top), idOf)
         == Indexed(Claim(index, top, idOf[top]), ScanFrom(f, skip, top, 0), idOf)
  {
    assert Scan(f, skip, top)[1..] == ScanFrom(f, skip, top, 0);
  }

  ghost predicate FirstAt<N>(order: seq<N>, idOf: map<N, string>, id: string, i: nat)
    requires forall n | n in order :: n in idOf
  {
    && i < |order| && idOf[order[i]] == id
    && forall j :: 0 <= j < i ==> idOf[order[j]] != id
  }

  /** The index maps an id exactly to the first visited node that carries it. */
  lemma {:induction false} IndexIsFirst<N>(index: map<string, N>, order: seq<N>, idOf: map<N, string>, id: string)
    requires forall n | n in order :: n in idOf
    ensures var r := Indexed(index, order, idOf);
            && (id in index ==> id in r && r[id] == index[id])
            && (id !in index ==> (id in r <==> id != "" && exists n | n in order :: idOf[n] == id))
            && (id !in index && id in r ==> exists i: nat :: FirstAt(order, idOf, id, i) && r[id] == order[i])
    decreases |order|
  {
    if order != [] {
      var head, tail := order[0], order[1..];
      var next := Claim(index, head, idOf[head]);
      IndexIsFirst(next, tail, idOf, id);
      var r := Indexed(index, order, idOf);
      if id !in index && id in r {
        if idOf[head] == id {
          assert FirstAt(order, idOf, id, 0);
        } else {
          var i: nat :| FirstAt(tail, idOf, id, i) && r[id] == tail[i];
          assert FirstAt(order, idOf, id, i + 1) && order[i + 1] == tail[i];
        }
      }
    }
  }

  lemma {:induction false} IndexedAgree<N>(index: map<string, N>, order: seq<N>, a: map<N, string>, b: map<N, string>)
    requires forall n | n in order :: n in a && n in b && a[n] == b[n]
    ensures Indexed(index, order, a) == Indexed(index, order, b)
    decreases |order|
  {
    if order != [] { IndexedAgree(Claim(index, order[0], a[order[0]]), order[1..], a, b); }
  }

  /** A new lone node is on no walk. */
  lemma ScanPlant<N>(f: Forest<N>, skip: set<N>, skip2: set<N>, top: N, n: N)
    requires WellFormed(f) && top in f.children && n !in f.children
    requires forall m | m in f.children :: m in skip <==> m in skip2
    ensures WellFormed(Plant(f, n)) && Scan(Plant(f, n), skip2, top) == Scan(f, skip, top)
  {
    PlantKeeps(f, n);
    ScanFrame(f, Plant(f, n), skip, skip2, top);
  }

  lemma ScanLone<N>(n: N)
    ensures WellFormed(Plant(Forest(map[], map[], map[]), n))
    ensures Scan(Plant(Forest(map[], map[], map[]), n), {}, n) == [n]
  {
    PlantKeeps(Forest(map[], map[], map[]), n);
  }
}
