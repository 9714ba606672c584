/** Ordered forests as values: the parent links, the ordered child lists and the depth of
    every node.  The edits of the DOM document are specified by the operations below, and
    every structural law of the document is proved here, away from the heap. */
module Forests {

  datatype Forest<N> = Forest(parent: map<N, N>, children: map<N, seq<N>>, depth: map<N, nat>)

  ghost predicate NoDup<N>(s: seq<N>) {
    forall i, j :: 0 <= i < j < |s| ==> s[i] != s[j]
  }

  /** The child list of `n` has no duplicates, every listed child points back, and a node
      without a parent has depth zero. */
  ghost predicate NodeAgrees<N>(f: Forest<N>, n: N)
    requires f.depth.Keys == f.children.Keys && n in f.children
  {
    && NoDup(f.children[n])
    && (forall c | c in f.children[n] :: c in f.parent && f.parent[c] == n)
    && (n !in f.parent ==> f.depth[n] == 0)
  }

  /** The link above `c` is answered by the parent's list and descends one level. */
  ghost predicate LinkAgrees<N>(f: Forest<N>, c: N)
    requires f.depth.Keys == f.children.Keys && c in f.parent
  {
    && c in f.children
    && f.parent[c] in f.children
    && c in f.children[f.parent[c]]
    && f.depth[c] == f.depth[f.parent[c]] + 1
  }

  /** Parent links and child lists are mutually inverse; a depth function with this property
      exists only when there is no cycle. */
  ghost predicate WellFormed<N>(f: Forest<N>) {
    && f.depth.Keys == f.children.Keys
    && (forall n {:trigger NodeAgrees(f, n)} | n in f.children :: NodeAgrees(f, n))
    && (forall c {:trigger LinkAgrees(f, c)} {:trigger f.parent[c]} | c in f.parent :: LinkAgrees(f, c))
  }

  /** No node lies deeper than `limit`, counting from the root of its own tree. */
  ghost predicate Within<N>(f: Forest<N>, limit: nat)
    requires WellFormed(f)
  {
    forall n | n in f.children :: f.depth[n] <= limit
  }

  /** `a` is `n` or one of its ancestors. */
  ghost predicate Above<N>(f: Forest<N>, a: N, n: N)
    requires WellFormed(f) && n in f.children
    decreases f.depth[n]
  {
    a == n || (n in f.parent && Above(f, a, f.parent[n]))
  }

  ghost function Subtree<N>(f: Forest<N>, a: N): (s: set<N>)
    requires WellFormed(f)
  {
    set n | n in f.children && Above(f, a, n)
  }

  /** `s` without the elements of `gone`, in the same order. */
  function Drop<N(==)>(s: seq<N>, gone: set<N>): (r: seq<N>)
    ensures forall x | x in s :: x in gone || x in r
    ensures forall x | x in r :: x in s && x !in gone
  {
    if s == [] then [] else (if s[0] in gone then [] else [s[0]]) + Drop(s[1..], gone)
  }

  /** Takes the nodes in `gone` out of every child list. */
  function DropEverywhere<N>(children: map<N, seq<N>>, gone: set<N>): map<N, seq<N>> {
    map n | n in children :: Drop(children[n], gone)
  }

  /** Cuts the link above `c`. */
  ghost function Detach<N>(f: Forest<N>, c: N): Forest<N>
    requires WellFormed(f) && c in f.children
  {
    if c !in f.parent then f else
      Forest(f.parent - {c},
             f.children[f.parent[c] := Drop(f.children[f.parent[c]], {c})],
             map n | n in f.children :: if Above(f, c, n) then Less(f.depth[n], f.depth[c]) else f.depth[n])
  }

  function Less(a: nat, b: nat): nat {
    if a < b then 0 else a - b
  }

  /** Hangs the root `c` beneath `p` as its child number `i`. */
  ghost function Attach<N>(f: Forest<N>, p: N, c: N, i: nat): Forest<N>
    requires WellFormed(f) && c in f.children && p in f.children && i <= |f.children[p]|
  {
    Forest(f.parent[c := p],
           f.children[p := f.children[p][..i] + [c] + f.children[p][i..]],
           map n | n in f.children :: if Above(f, c, n) then f.depth[p] + 1 + f.depth[n] else f.depth[n])
  }

  /** Forgets a set of nodes that is closed under taking children. */
  ghost function Prune<N>(f: Forest<N>, gone: set<N>): Forest<N>
    requires WellFormed(f)
  {
    Forest(f.parent - gone, map n | n in f.children && n !in gone :: Drop(f.children[n], gone), f.depth - gone)
  }

  ghost predicate ClosedDown<N>(f: Forest<N>, s: set<N>)
    requires WellFormed(f)
  {
    && s <= f.children.Keys
    && forall c | c in f.parent && f.parent[c] in s :: c in s
  }

  /** A new node on its own. */
  function Plant<N>(f: Forest<N>, n: N): Forest<N> {
    Forest(f.parent, f.children[n := []], f.depth[n := 0])
  }

  // ---------------------------------------------------------------- sequences

  function Members<N(==)>(s: seq<N>): set<N> {
    set x | x in s
  }

  lemma MembersNext<N>(s: seq<N>, i: nat)
    requires i < |s|
    ensures Members(s[..i + 1]) == Members(s[..i]) + {s[i]}
  {
    assert s[..i + 1] == s[..i] + [s[i]];
  }

  lemma DropNoDup<N>(s: seq<N>, gone: set<N>)
    requires NoDup(s)
    ensures NoDup(Drop(s, gone))
  {
    if s != [] {
      assert forall i, j :: 0 <= i < j < |s[1..]| ==> s[1..][i] == s[i + 1] && s[1..][j] == s[j + 1];
      DropNoDup(s[1..], gone);
      var t := Drop(s[1..], gone);
      assert forall j :: 0 <= j < |t| ==> t[j] in t && t[j] in s[1..];
      if s[0] !in gone {
        assert s[0] !in s[1..];
        assert Drop(s, gone) == [s[0]] + t;
      } else {
        assert Drop(s, gone) == t;
      }
    }
  }

  lemma {:induction false} DropAbsent<N>(s: seq<N>, gone: set<N>)
    requires forall x | x in s :: x !in gone
    ensures Drop(s, gone) == s
  {
    if s != [] {
      DropAbsent(s[1..], gone);
      assert s == [s[0]] + s[1..];
    }
  }

  lemma {:induction false} DropSplit<N>(s: seq<N>, t: seq<N>, gone: set<N>)
    ensures Drop(s + t, gone) == Drop(s, gone) + Drop(t, gone)
  {
    if s == [] {
      assert s + t == t;
    } else {
      var head := if s[0] in gone then [] else [s[0]];
      assert (s + t)[1..] == s[1..] + t && (s + t)[0] == s[0];
      calc {
        Drop(s + t, gone);
        head + Drop(s[1..] + t, gone);
        { DropSplit(s[1..], t, gone); }
        head + (Drop(s[1..], gone) + Drop(t, gone));
        (head + Drop(s[1..], gone)) + Drop(t, gone);
        Drop(s, gone) + Drop(t, gone);
      }
    }
  }

  lemma DropPrefix<N>(s: seq<N>, i: nat, gone: set<N>)
    requires i <= |s|
    ensures Drop(s, gone) == Drop(s[..i], gone) + Drop(s[i..], gone)
  {
    assert s == s[..i] + s[i..];
    DropSplit(s[..i], s[i..], gone);
  }

  /** Splicing out the single occurrence of an element is dropping that element. */
  lemma {:induction false} SpliceIsDrop<N>(s: seq<N>, i: nat)
    requires i < |s| && NoDup(s)
    ensures s[..i] + s[i + 1..] == Drop(s, {s[i]})
  {
    if i == 0 {
      DropAbsent(s[1..], {s[0]});
    } else {
      SpliceIsDrop(s[1..], i - 1);
      assert s[..i] + s[i + 1..] == [s[0]] + (s[1..][..i - 1] + s[1..][i..]);
    }
  }

  lemma MinusMinus<K, V>(m: map<K, V>, a: set<K>, b: set<K>)
    ensures m - a - b == m - (a + b)
  {
  }

  lemma MinusThenPut<K, V>(m: map<K, V>, k: K, v: V)
    ensures (m - {k})[k := v] == m[k := v]
  {
  }

  lemma MinusAbsent<K, V>(m: map<K, V>, k: K)
    requires k !in m
    ensures m - {k} == m
  {
  }

  // ---------------------------------------------------------------- ancestry

  lemma Kids<N>(f: Forest<N>, n: N)
    requires WellFormed(f) && n in f.children
    ensures NoDup(f.children[n])
    ensures forall c | c in f.children[n] ::
      c in f.parent && f.parent[c] == n && c in f.children && f.depth[c] == f.depth[n] + 1
  {
    assert NodeAgrees(f, n);
    forall c | c in f.children[n]
      ensures c in f.parent && f.parent[c] == n && c in f.children && f.depth[c] == f.depth[n] + 1
    { assert LinkAgrees(f, c); }
  }

  lemma AtParent<N>(f: Forest<N>, c: N)
    requires WellFormed(f) && c in f.parent
    ensures c in f.children && f.parent[c] in f.children
    ensures c in f.children[f.parent[c]] && NoDup(f.children[f.parent[c]])
  {
    assert LinkAgrees(f, c) && NodeAgrees(f, f.parent[c]);
  }

  lemma {:induction false} AboveDepth<N>(f: Forest<N>, a: N, n: N)
    requires WellFormed(f) && n in f.children && Above(f, a, n)
    ensures a in f.children && f.depth[a] <= f.depth[n] && (f.depth[a] == f.depth[n] ==> a == n)
    decreases f.depth[n]
  {
    if a != n {
      AboveDepth(f, a, f.parent[n]);
    }
  }

  lemma {:induction false} AboveTransitive<N>(f: Forest<N>, a: N, b: N, n: N)
    requires WellFormed(f) && n in f.children && Above(f, b, n) && b in f.children && Above(f, a, b)
    ensures Above(f, a, n)
    decreases f.depth[n]
  {
    if b != n {
      AboveTransitive(f, a, b, f.parent[n]);
    }
  }

  /** Two ancestors of one node are comparable. */
  lemma {:induction false} AboveComparable<N>(f: Forest<N>, a: N, b: N, n: N)
    requires WellFormed(f) && n in f.children && Above(f, a, n) && Above(f, b, n)
    ensures a in f.children && b in f.children
    ensures Above(f, a, b) || Above(f, b, a)
    decreases f.depth[n]
  {
    AboveDepth(f, a, n);
    AboveDepth(f, b, n);
    if a != n && b != n {
      AboveComparable(f, a, b, f.parent[n]);
    }
  }

  /** Every strict descendant lies below exactly the child on the way. */
  lemma {:induction false} ChildToward<N>(f: Forest<N>, a: N, n: N) returns (c: N)
    requires WellFormed(f) && n in f.children && Above(f, a, n) && a != n
    ensures a in f.children && c in f.children[a] && c in f.children && Above(f, c, n)
    decreases f.depth[n]
  {
    if f.parent[n] == a {
      c := n;
    } else {
      c := ChildToward(f, a, f.parent[n]);
    }
  }

  lemma SubtreeClosed<N>(f: Forest<N>, a: N)
    requires WellFormed(f)
    ensures ClosedDown(f, Subtree(f, a))
  {
  }

  /** Subtrees of different children of one node are disjoint. */
  lemma SiblingsDisjoint<N>(f: Forest<N>, a: N, b: N)
    requires WellFormed(f) && a in f.parent && b in f.parent && f.parent[a] == f.parent[b] && a != b
    ensures Subtree(f, a) !! Subtree(f, b)
  {
    forall n | n in Subtree(f, a) && n in Subtree(f, b)
      ensures false
    {
      AboveComparable(f, a, b, n);
      if Above(f, a, b) { AboveDepth(f, a, b); } else { AboveDepth(f, b, a); }
    }
  }

  // ---------------------------------------------------------------- the edits keep forests

  lemma {:induction false} DetachAbove<N>(f: Forest<N>, c: N, a: N, n: N)
    requires WellFormed(f) && c in f.parent && n in f.children
    requires WellFormed(Detach(f, c))
    ensures Above(Detach(f, c), a, n) <==> Above(f, a, n) && (Above(f, c, n) ==> a in f.children && Above(f, c, a))
    decreases f.depth[n]
  {
    var g := Detach(f, c);
    if n == c {
      assert n !in g.parent;
      if Above(f, a, c) && a in f.children && Above(f, c, a) { AboveDepth(f, a, c); AboveDepth(f, c, a); }
    } else if n in f.parent {
      DetachAbove(f, c, a, f.parent[n]);
      if a == n { } else {
        assert Above(g, a, n) == Above(g, a, f.parent[n]);
      }
    }
  }

  lemma DetachDepth<N>(f: Forest<N>, c: N, n: N)
    requires WellFormed(f) && c in f.children && n in f.children
    ensures n in Detach(f, c).depth
    ensures !Above(f, c, n) ==> Detach(f, c).depth[n] == f.depth[n]
    ensures Above(f, c, n) ==> f.depth[n] == Detach(f, c).depth[n] + f.depth[c]
  {
    if Above(f, c, n) { AboveDepth(f, c, n); }
    if c !in f.parent { assert NodeAgrees(f, c); }
  }

  lemma DetachLink<N>(f: Forest<N>, c: N, n: N)
    requires WellFormed(f) && c in f.parent && n in f.parent && n != c
    ensures Detach(f, c).depth.Keys == Detach(f, c).children.Keys
    ensures n in Detach(f, c).parent && LinkAgrees(Detach(f, c), n)
  {
    DetachDepth(f, c, n);
    DetachDepth(f, c, f.parent[n]);
    assert Above(f, c, n) == Above(f, c, f.parent[n]);
  }

  lemma DetachNode<N>(f: Forest<N>, c: N, n: N)
    requires WellFormed(f) && c in f.parent && n in f.children
    ensures Detach(f, c).depth.Keys == Detach(f, c).children.Keys
    ensures NodeAgrees(Detach(f, c), n)
  {
    assert LinkAgrees(f, c) && NodeAgrees(f, n);
    DropNoDup(f.children[n], {c});
    DetachDepth(f, c, n);
  }

  lemma DropAway<N>(f: Forest<N>, c: N, n: N)
    requires WellFormed(f) && n in f.children && !(c in f.parent && f.parent[c] == n)
    ensures Drop(f.children[n], {c}) == f.children[n]
  {
    assert NodeAgrees(f, n);
    DropAbsent(f.children[n], {c});
  }

  /** A node stands in its parent's list only. */
  lemma DropOnce<N>(f: Forest<N>, c: N)
    requires WellFormed(f)
    ensures c in f.parent ==> f.parent[c] in f.children
    ensures c in f.parent ==>
      DropEverywhere(f.children, {c}) == f.children[f.parent[c] := Drop(f.children[f.parent[c]], {c})]
    ensures c !in f.parent ==> DropEverywhere(f.children, {c}) == f.children
  {
    if c in f.parent { assert LinkAgrees(f, c); }
    forall n | n in f.children && !(c in f.parent && f.parent[c] == n)
      ensures Drop(f.children[n], {c}) == f.children[n]
    { DropAway(f, c, n); }
  }

  /** Detaching, as far as the links go. */
  lemma DetachLinksOnly<N>(f: Forest<N>, c: N)
    requires WellFormed(f) && c in f.children
    ensures Detach(f, c).parent == f.parent - {c}
    ensures Detach(f, c).children == DropEverywhere(f.children, {c})
  {
    if c !in f.parent { MinusAbsent(f.parent, c); }
    DropOnce(f, c);
  }

  lemma DetachKeeps<N>(f: Forest<N>, c: N)
    requires WellFormed(f) && c in f.children
    ensures WellFormed(Detach(f, c)) && c !in Detach(f, c).parent
    ensures Detach(f, c).children.Keys == f.children.Keys
  {
    if c in f.parent {
      assert LinkAgrees(f, c);
      var g := Detach(f, c);
      forall n | n in g.parent
        ensures LinkAgrees(g, n)
      { DetachLink(f, c, n); }
      forall n | n in g.children
        ensures NodeAgrees(g, n)
      { DetachNode(f, c, n); }
    }
  }

  lemma {:induction false} AttachAbove<N>(f: Forest<N>, p: N, c: N, i: nat, a: N, n: N)
    requires WellFormed(f) && c in f.children && c !in f.parent && p in f.children && i <= |f.children[p]|
    requires !Above(f, c, p) && n in f.children && WellFormed(Attach(f, p, c, i))
    ensures Above(Attach(f, p, c, i), a, n) <==> Above(f, a, n) || (Above(f, c, n) && Above(f, a, p))
    decreases f.depth[n]
  {
    var g := Attach(f, p, c, i);
    if n == c {
      AttachAbove2(f, p, c, i, a, p);
    } else if n in f.parent {
      AttachAbove(f, p, c, i, a, f.parent[n]);
    }
  }

  /** Ancestry outside the attached subtree does not change. */
  lemma {:induction false} AttachAbove2<N>(f: Forest<N>, p: N, c: N, i: nat, a: N, n: N)
    requires WellFormed(f) && c in f.children && c !in f.parent && p in f.children && i <= |f.children[p]|
    requires n in f.children && !Above(f, c, n) && WellFormed(Attach(f, p, c, i))
    ensures Above(Attach(f, p, c, i), a, n) <==> Above(f, a, n)
    decreases f.depth[n]
  {
    if n in f.parent {
      AttachAbove2(f, p, c, i, a, f.parent[n]);
    }
  }

  lemma AttachNode<N>(f: Forest<N>, p: N, c: N, i: nat, n: N)
    requires WellFormed(f) && c in f.children && c !in f.parent && p in f.children && i <= |f.children[p]|
    requires n in f.children
    ensures Attach(f, p, c, i).depth.Keys == Attach(f, p, c, i).children.Keys
    ensures NodeAgrees(Attach(f, p, c, i), n)
    ensures forall x | x in f.children[n] :: x in Attach(f, p, c, i).children[n]
  {
    var g := Attach(f, p, c, i);
    assert NodeAgrees(f, n);
    if n == p {
      assert f.children[p] == f.children[p][..i] + f.children[p][i..];
      assert c !in f.children[p];
      assert forall x | x in g.children[p] :: x == c || x in f.children[p];
    }
  }

  lemma AttachLink<N>(f: Forest<N>, p: N, c: N, i: nat, n: N)
    requires WellFormed(f) && c in f.children && c !in f.parent && p in f.children && i <= |f.children[p]|
    requires !Above(f, c, p) && (n == c || n in f.parent)
    ensures Attach(f, p, c, i).depth.Keys == Attach(f, p, c, i).children.Keys
    ensures LinkAgrees(Attach(f, p, c, i), n)
  {
    if n == c {
      assert Above(f, c, c) && NodeAgrees(f, c);
    } else {
      assert LinkAgrees(f, n);
      AttachNode(f, p, c, i, f.parent[n]);
    }
  }

  lemma AttachKeeps<N>(f: Forest<N>, p: N, c: N, i: nat)
    requires WellFormed(f) && c in f.children && c !in f.parent && p in f.children && i <= |f.children[p]|
    requires !Above(f, c, p)
    ensures WellFormed(Attach(f, p, c, i))
    ensures Attach(f, p, c, i).children.Keys == f.children.Keys
  {
    var g := Attach(f, p, c, i);
    forall n | n in g.parent
      ensures LinkAgrees(g, n)
    { AttachLink(f, p, c, i, n); }
    forall n | n in g.children
      ensures NodeAgrees(g, n)
    { AttachNode(f, p, c, i, n); }
  }

  lemma PruneKeeps<N>(f: Forest<N>, gone: set<N>)
    requires WellFormed(f) && ClosedDown(f, gone)
    ensures WellFormed(Prune(f, gone))
    ensures Prune(f, gone).children.Keys == f.children.Keys - gone
  {
    var g := Prune(f, gone);
    forall n | n in g.children
      ensures NodeAgrees(g, n)
    {
      assert NodeAgrees(f, n);
      DropNoDup(f.children[n], gone);
    }
    forall c | c in g.parent
      ensures LinkAgrees(g, c)
    { assert LinkAgrees(f, c); }
  }

  lemma PlantKeeps<N>(f: Forest<N>, n: N)
    requires WellFormed(f) && n !in f.children
    ensures WellFormed(Plant(f, n))
  {
    var g := Plant(f, n);
    forall m | m in g.children
      ensures NodeAgrees(g, m)
    { if m != n { assert NodeAgrees(f, m); } }
    forall c | c in g.parent
      ensures LinkAgrees(g, c)
    { assert LinkAgrees(f, c); }
  }

  // ---------------------------------------------------------------- moving one node

  /** Where a node goes once it has left its old place, which may be in the same list. */
  lemma InsertPosition<N>(f: Forest<N>, p: N, c: N, index: nat)
    requires WellFormed(f) && c in f.children && p in f.children && index <= |f.children[p]|
    ensures WellFormed(Detach(f, c)) && p in Detach(f, c).children
    ensures Detach(f, c).children[p] == Drop(f.children[p][..index], {c}) + Drop(f.children[p][index..], {c})
  {
    DetachKeeps(f, c);
    DetachLinksOnly(f, c);
    DropPrefix(f.children[p], index, {c});
  }

  /** How many of the first `i` elements stay when the element at `k` goes. */
  lemma DropLength<N>(s: seq<N>, i: nat, k: nat)
    requires NoDup(s) && i <= |s| && k < |s|
    ensures |Drop(s[..i], {s[k]})| == if k < i then i - 1 else i
  {
    if k < i {
      assert s[..i][k] == s[k];
      SpliceIsDrop(s[..i], k);
    } else {
      DropAbsent(s[..i], {s[k]});
    }
  }

  /** Moves `c` beneath `p` so that it stands before the node that was child `index`. */
  ghost function Insert<N>(f: Forest<N>, p: N, c: N, index: nat): Forest<N>
    requires WellFormed(f) && c in f.children && p in f.children && index <= |f.children[p]|
  {
    InsertPosition(f, p, c, index);
    Attach(Detach(f, c), p, c, |Drop(f.children[p][..index], {c})|)
  }

  /** Hanging `c` beneath `p` puts no descendant of `c` below `limit`. */
  ghost predicate Fits<N>(f: Forest<N>, p: N, c: N, limit: nat)
    requires WellFormed(f) && p in f.children && c in f.children
  {
    forall n | n in f.children && Above(f, c, n) :: f.depth[p] + 1 + f.depth[n] <= limit + f.depth[c]
  }

  /** `h` bounds, and is attained as, the height of the subtree of `n`. */
  ghost predicate HeightBound<N>(f: Forest<N>, n: N, h: int)
    requires WellFormed(f) && n in f.children
  {
    forall m | m in f.children && Above(f, n, m) :: f.depth[m] <= f.depth[n] + h
  }

  ghost predicate HeightReached<N>(f: Forest<N>, n: N, h: int)
    requires WellFormed(f) && n in f.children
  {
    exists m | m in f.children && Above(f, n, m) :: f.depth[m] == f.depth[n] + h
  }

  lemma HeightReachedChild<N>(f: Forest<N>, n: N, c: N, h: int)
    requires WellFormed(f) && c in f.parent && f.parent[c] == n && c in f.children && HeightReached(f, c, h)
    ensures n in f.children && HeightReached(f, n, h + 1)
  {
    assert LinkAgrees(f, c);
    var m :| m in f.children && Above(f, c, m) && f.depth[m] == f.depth[c] + h;
    assert Above(f, n, c);
    AboveTransitive(f, n, c, m);
  }

  lemma HeightBoundNode<N>(f: Forest<N>, n: N, h: int)
    requires WellFormed(f) && n in f.children && 0 <= h && KidsBound(f, n, |f.children[n]|, h)
    ensures HeightBound(f, n, h)
  {
    Kids(f, n);
    forall m | m in f.children && Above(f, n, m)
      ensures f.depth[m] <= f.depth[n] + h
    {
      if m != n {
        var c := ChildToward(f, n, m);
      }
    }
  }

  ghost predicate KidsBound<N>(f: Forest<N>, n: N, i: nat, h: int)
    requires WellFormed(f) && n in f.children && i <= |f.children[n]|
  {
    forall k :: 0 <= k < i ==> f.children[n][k] in f.children && HeightBound(f, f.children[n][k], h - 1)
  }

  lemma KidsBoundStep<N>(f: Forest<N>, n: N, i: nat, h: int, hc: int, h2: int)
    requires WellFormed(f) && n in f.children && i < |f.children[n]| && KidsBound(f, n, i, h)
    requires f.children[n][i] in f.children && HeightBound(f, f.children[n][i], hc - 1)
    requires h <= h2 && hc <= h2
    ensures KidsBound(f, n, i + 1, h2)
  {
  }

  lemma FitsByHeight<N>(f: Forest<N>, p: N, c: N, h: int, limit: nat)
    requires WellFormed(f) && p in f.children && c in f.children
    requires HeightBound(f, c, h) && HeightReached(f, c, h)
    ensures Fits(f, p, c, limit) <==> f.depth[p] + 1 + h <= limit
  {
  }

  lemma InsertKeeps<N>(f: Forest<N>, p: N, c: N, index: nat)
    requires WellFormed(f) && c in f.children && p in f.children && index <= |f.children[p]|
    requires !Above(f, c, p)
    ensures WellFormed(Insert(f, p, c, index))
    ensures Insert(f, p, c, index).children.Keys == f.children.Keys
  {
    DetachKeeps(f, c);
    InsertPosition(f, p, c, index);
    if c in f.parent { DetachAbove(f, c, c, p); }
    AttachKeeps(Detach(f, c), p, c, |Drop(f.children[p][..index], {c})|);
  }

  /** `g` is `f` after moving `c` beneath `p`: the target list is the old one without `c`,
      with `c` standing exactly between the nodes that were before and after the insertion
      point; every other list only loses `c`. */
  ghost predicate Moves<N>(f: Forest<N>, g: Forest<N>, p: N, c: N, index: nat) {
    && p in f.children && c in f.children && index <= |f.children[p]|
    && g.parent == f.parent[c := p]
    && g.children == DropEverywhere(f.children, {c})
         [p := Drop(f.children[p][..index], {c}) + [c] + Drop(f.children[p][index..], {c})]
  }

  lemma InsertMoves<N>(f: Forest<N>, p: N, c: N, index: nat)
    requires WellFormed(f) && c in f.children && p in f.children && index <= |f.children[p]|
    ensures Moves(f, Insert(f, p, c, index), p, c, index)
  {
    InsertPosition(f, p, c, index);
    DetachLinksOnly(f, c);
    MinusThenPut(f.parent, c, p);
  }

  lemma InsertDepth<N>(f: Forest<N>, p: N, c: N, index: nat, n: N)
    requires WellFormed(f) && c in f.children && p in f.children && index <= |f.children[p]|
    requires !Above(f, c, p) && n in f.children
    ensures n in Insert(f, p, c, index).depth
    ensures !Above(f, c, n) ==> Insert(f, p, c, index).depth[n] == f.depth[n]
    ensures Above(f, c, n) ==> Insert(f, p, c, index).depth[n] + f.depth[c] == f.depth[p] + 1 + f.depth[n]
  {
    InsertPosition(f, p, c, index);
    DetachDepth(f, c, n);
    DetachDepth(f, c, p);
    if c in f.parent {
      DetachAbove(f, c, c, n);
    }
  }

  /** The depth check made before a move is exact: given a forest within the limit, the move
      stays within it if and only if the check passes. */
  lemma InsertWithin<N>(f: Forest<N>, p: N, c: N, index: nat, limit: nat)
    requires WellFormed(f) && c in f.children && p in f.children && index <= |f.children[p]|
    requires !Above(f, c, p) && Within(f, limit)
    ensures WellFormed(Insert(f, p, c, index))
    ensures Within(Insert(f, p, c, index), limit) <==> Fits(f, p, c, limit)
  {
    InsertKeeps(f, p, c, index);
    forall n | n in f.children
      ensures !Above(f, c, n) ==> Insert(f, p, c, index).depth[n] == f.depth[n]
      ensures Above(f, c, n) ==> Insert(f, p, c, index).depth[n] + f.depth[c] == f.depth[p] + 1 + f.depth[n]
    { InsertDepth(f, p, c, index, n); }
  }

  /** A move that makes no cycle has a result, it is a forest, and the depth check made
      before the move tells exactly whether the limit survives. */
  lemma MoveExists<N>(f: Forest<N>, p: N, c: N, index: nat, limit: nat) returns (g: Forest<N>)
    requires WellFormed(f) && c in f.children && p in f.children && index <= |f.children[p]|
    requires !Above(f, c, p)
    ensures WellFormed(g) && Moves(f, g, p, c, index)
    ensures Within(f, limit) ==> (Within(g, limit) <==> Fits(f, p, c, limit))
    ensures Fits(f, p, c, limit) && Within(f, limit) ==> Within(g, limit)
  {
    g := Insert(f, p, c, index);
    InsertKeeps(f, p, c, index);
    InsertMoves(f, p, c, index);
    if Within(f, limit) { InsertWithin(f, p, c, index, limit); }
  }

  /** The links of a forest determine it: there is only one depth function. */
  lemma {:induction false} DepthUnique<N>(f: Forest<N>, g: Forest<N>, n: N)
    requires WellFormed(f) && WellFormed(g) && f.parent == g.parent && f.children.Keys == g.children.Keys
    requires n in f.children
    ensures f.depth[n] == g.depth[n]
    decreases f.depth[n]
  {
    if n in f.parent {
      assert LinkAgrees(f, n) && LinkAgrees(g, n);
      DepthUnique(f, g, f.parent[n]);
    } else {
      assert NodeAgrees(f, n) && NodeAgrees(g, n);
    }
  }

  // ---------------------------------------------------------------- replacing a child list

  ghost function DetachAll<N>(f: Forest<N>, cs: seq<N>): (g: Forest<N>)
    requires WellFormed(f) && (forall c | c in cs :: c in f.children)
    ensures WellFormed(g) && g.children.Keys == f.children.Keys
    decreases |cs|
  {
    if cs == [] then f else
      var g := DetachAll(f, cs[..|cs| - 1]);
      DetachKeeps(g, cs[|cs| - 1]);
      Detach(g, cs[|cs| - 1])
  }

  function Under<N>(cs: seq<N>, p: N): map<N, N> {
    map c | c in cs :: p
  }

  lemma UnderNext<N>(up: map<N, N>, cs: seq<N>, p: N, i: nat)
    requires i < |cs|
    ensures (up + Under(cs[..i], p))[cs[i] := p] == up + Under(cs[..i + 1], p)
  {
    assert cs[..i + 1] == cs[..i] + [cs[i]];
  }

  /** The distinct roots `cs` hung beneath the childless `p`, in order. */
  ghost function Adopt<N>(f: Forest<N>, p: N, cs: seq<N>): Forest<N>
    requires WellFormed(f) && p in f.children
  {
    Forest(f.parent + Under(cs, p),
           f.children[p := cs],
           map n | n in f.children ::
             if Below(f, cs, n) then f.depth[p] + 1 + f.depth[n] else f.depth[n])
  }

  ghost predicate Below<N>(f: Forest<N>, cs: seq<N>, n: N)
    requires WellFormed(f) && n in f.children
  {
    exists c | c in cs :: Above(f, c, n)
  }

  ghost predicate Adoptable<N>(f: Forest<N>, p: N, cs: seq<N>)
    requires WellFormed(f)
  {
    && p in f.children && f.children[p] == [] && NoDup(cs)
    && forall c | c in cs :: c in f.children && c !in f.parent && !Above(f, c, p)
  }

  lemma AdoptLink<N>(f: Forest<N>, p: N, cs: seq<N>, n: N)
    requires WellFormed(f) && Adoptable(f, p, cs) && n in Adopt(f, p, cs).parent
    ensures Adopt(f, p, cs).depth.Keys == Adopt(f, p, cs).children.Keys
    ensures LinkAgrees(Adopt(f, p, cs), n)
  {
    assert !Below(f, cs, p);
    if n in cs {
      assert Above(f, n, n) && NodeAgrees(f, n);
    } else {
      var q := f.parent[n];
      assert q != p;
      forall c | c in cs
        ensures Above(f, c, n) == Above(f, c, q)
      { }
      assert Below(f, cs, n) == Below(f, cs, q);
    }
  }

  lemma AdoptNode<N>(f: Forest<N>, p: N, cs: seq<N>, n: N)
    requires WellFormed(f) && Adoptable(f, p, cs) && n in f.children
    ensures Adopt(f, p, cs).depth.Keys == Adopt(f, p, cs).children.Keys
    ensures NodeAgrees(Adopt(f, p, cs), n)
  {
    Kids(f, n);
    if n !in f.parent && n !in cs {
      assert NodeAgrees(f, n) && !Below(f, cs, n);
    }
  }

  lemma AdoptKeeps<N>(f: Forest<N>, p: N, cs: seq<N>)
    requires WellFormed(f) && Adoptable(f, p, cs)
    ensures WellFormed(Adopt(f, p, cs))
  {
    var g := Adopt(f, p, cs);
    forall n | n in g.parent
      ensures LinkAgrees(g, n)
    { AdoptLink(f, p, cs, n); }
    forall n | n in g.children
      ensures NodeAgrees(g, n)
    { AdoptNode(f, p, cs, n); }
  }

  /** The new children `cs` and the old children of `p` all become roots. */
  ghost function LetGo<N>(f: Forest<N>, p: N, cs: seq<N>): (g: Forest<N>)
    requires WellFormed(f) && p in f.children && (forall c | c in cs :: c in f.children)
    ensures WellFormed(g) && g.children.Keys == f.children.Keys
  {
    var g := DetachAll(f, cs);
    Kids(g, p);
    DetachAll(g, g.children[p])
  }

  /** The whole replacement: the new children leave their old places, the old children are
      let go, and the new list is hung beneath `p`. */
  ghost function Replace<N>(f: Forest<N>, p: N, cs: seq<N>): Forest<N>
    requires WellFormed(f) && p in f.children && (forall c | c in cs :: c in f.children)
  {
    Adopt(LetGo(f, p, cs), p, cs)
  }

  /** `g` arises from `f` by cutting links only. */
  ghost predicate Cut<N>(g: Forest<N>, f: Forest<N>)
    requires WellFormed(g) && WellFormed(f)
  {
    && g.children.Keys == f.children.Keys
    && g.parent.Keys <= f.parent.Keys
    && (forall n | n in g.children :: g.depth[n] <= f.depth[n])
    && (forall a, n | a in g.children && n in g.children && Above(g, a, n) ::
          Above(f, a, n) && g.depth[n] + f.depth[a] == f.depth[n] + g.depth[a])
  }

  lemma DetachCuts<N>(f: Forest<N>, c: N)
    requires WellFormed(f) && c in f.children
    ensures WellFormed(Detach(f, c)) && Cut(Detach(f, c), f)
  {
    DetachKeeps(f, c);
    var g := Detach(f, c);
    if c in f.parent {
      forall n | n in g.children
        ensures g.depth[n] <= f.depth[n]
      { DetachDepth(f, c, n); }
      forall a, n | a in g.children && n in g.children && Above(g, a, n)
        ensures Above(f, a, n) && g.depth[n] + f.depth[a] == f.depth[n] + g.depth[a]
      {
        DetachAbove(f, c, a, n);
        if Above(f, c, a) { AboveTransitive(f, c, a, n); }
        DetachDepth(f, c, n);
        DetachDepth(f, c, a);
      }
    }
  }

  lemma CutTransitive<N>(h: Forest<N>, g: Forest<N>, f: Forest<N>)
    requires WellFormed(h) && WellFormed(g) && WellFormed(f) && Cut(h, g) && Cut(g, f)
    ensures Cut(h, f)
  {
  }

  lemma {:induction false} DetachAllCuts<N>(f: Forest<N>, cs: seq<N>)
    requires WellFormed(f) && (forall c | c in cs :: c in f.children)
    ensures Cut(DetachAll(f, cs), f)
    decreases |cs|
  {
    if cs != [] {
      var init, last := cs[..|cs| - 1], cs[|cs| - 1];
      DetachAllCuts(f, init);
      var g := DetachAll(f, init);
      DetachCuts(g, last);
      CutTransitive(Detach(g, last), g, f);
    }
  }

  /** Detaching a list of nodes one after another: exactly their links are gone. */
  lemma {:induction false} DetachAllParent<N>(f: Forest<N>, cs: seq<N>)
    requires WellFormed(f) && (forall c | c in cs :: c in f.children)
    ensures DetachAll(f, cs).parent == f.parent - Members(cs)
    decreases |cs|
  {
    if cs != [] {
      var init, last := cs[..|cs| - 1], cs[|cs| - 1];
      assert cs == init + [last];
      assert Members(cs) == Members(init) + {last};
      DetachAllParent(f, init);
      DetachLinksOnly(DetachAll(f, init), last);
      MinusMinus(f.parent, Members(init), {last});
    } else {
      assert Members(cs) == {};
      assert f.parent - {} == f.parent;
    }
  }

  lemma {:induction false} DetachAllDrops<N>(f: Forest<N>, cs: seq<N>, n: N)
    requires WellFormed(f) && (forall c | c in cs :: c in f.children) && n in f.children
    ensures DetachAll(f, cs).children[n] == Drop(f.children[n], Members(cs))
    decreases |cs|
  {
    if cs == [] {
      DropAbsent(f.children[n], {});
      assert Members(cs) == {};
    } else {
      var init, last := cs[..|cs| - 1], cs[|cs| - 1];
      assert cs == init + [last];
      assert Members(cs) == Members(init) + {last};
      DetachAllDrops(f, init, n);
      DetachLinksOnly(DetachAll(f, init), last);
      DropTwice(f.children[n], Members(init), {last});
    }
  }

  lemma {:induction false} DropTwice<N>(s: seq<N>, a: set<N>, b: set<N>)
    ensures Drop(Drop(s, a), b) == Drop(s, a + b)
  {
    if s != [] {
      DropTwice(s[1..], a, b);
      DropSplit(if s[0] in a then [] else [s[0]], Drop(s[1..], a), b);
    }
  }

  ghost predicate Replaceable<N>(f: Forest<N>, p: N, cs: seq<N>)
    requires WellFormed(f)
  {
    && p in f.children && NoDup(cs)
    && forall c | c in cs :: c in f.children && !Above(f, c, p)
  }

  lemma {:induction false} DropAll<N>(s: seq<N>, gone: set<N>)
    requires forall x | x in s :: x in gone
    ensures Drop(s, gone) == []
  {
    if s != [] { DropAll(s[1..], gone); }
  }

  lemma LetGoLinks<N>(f: Forest<N>, p: N, cs: seq<N>)
    requires WellFormed(f) && p in f.children && (forall c | c in cs :: c in f.children)
    ensures var g := DetachAll(f, cs); var h := LetGo(f, p, cs);
            && g.children[p] == Drop(f.children[p], Members(cs))
            && h.parent == f.parent - Members(cs) - Members(g.children[p])
            && h.children[p] == []
            && forall n | n in f.children && n != p :: h.children[n] == Drop(f.children[n], Members(cs))
  {
    var g := DetachAll(f, cs);
    var kids := g.children[p];
    DetachAllParent(f, cs);
    Kids(g, p);
    DetachAllParent(g, kids);
    DetachAllDrops(f, cs, p);
    DetachAllDrops(g, kids, p);
    DropAll(kids, Members(kids));
    forall n | n in f.children && n != p
      ensures LetGo(f, p, cs).children[n] == Drop(f.children[n], Members(cs))
    {
      DetachAllDrops(f, cs, n);
      DetachAllDrops(g, kids, n);
      Kids(g, n);
      DropAbsent(g.children[n], Members(kids));
    }
  }

  lemma ReplaceAdoptable<N>(f: Forest<N>, p: N, cs: seq<N>)
    requires WellFormed(f) && Replaceable(f, p, cs)
    ensures Cut(LetGo(f, p, cs), f) && Adoptable(LetGo(f, p, cs), p, cs)
  {
    var g := DetachAll(f, cs);
    Kids(g, p);
    DetachAllCuts(f, cs);
    DetachAllCuts(g, g.children[p]);
    CutTransitive(LetGo(f, p, cs), g, f);
    LetGoLinks(f, p, cs);
  }

  lemma ChildrenOf<N>(f: Forest<N>, p: N)
    requires WellFormed(f) && p in f.children
    ensures Members(f.children[p]) == set x | x in f.parent && f.parent[x] == p
  {
    Kids(f, p);
  }

  lemma Reparented<N>(parent: map<N, N>, p: N, cs: seq<N>, kids: seq<N>)
    requires forall x | x in kids :: x in parent && parent[x] == p
    requires forall x | x in parent && parent[x] == p :: x in cs || x in kids
    ensures parent - Members(cs) - Members(kids) + Under(cs, p)
         == (map n | n in parent && parent[n] != p :: parent[n]) + Under(cs, p)
  {
  }

  /** `g` is `f` after `p` got exactly the children `cs`: they left their old places, the
      former children that are not among them are roots, and every other list only loses
      the moved nodes. */
  ghost predicate Replaces<N>(f: Forest<N>, g: Forest<N>, p: N, cs: seq<N>) {
    && p in f.children
    && g.parent == (map n | n in f.parent && f.parent[n] != p :: f.parent[n]) + Under(cs, p)
    && g.children == DropEverywhere(f.children, Members(cs))[p := cs]
  }

  lemma AdoptReplaces<N>(f: Forest<N>, h: Forest<N>, kids: seq<N>, p: N, cs: seq<N>, g: Forest<N>)
    requires WellFormed(f) && p in f.children && kids == Drop(f.children[p], Members(cs))
    requires h.parent == f.parent - Members(cs) - Members(kids)
    requires h.children.Keys == f.children.Keys
    requires forall n | n in f.children && n != p :: h.children[n] == Drop(f.children[n], Members(cs))
    requires g.parent == h.parent + Under(cs, p) && g.children == h.children[p := cs]
    ensures Replaces(f, g, p, cs)
  {
    ChildrenOf(f, p);
    Kids(f, p);
    Reparented(f.parent, p, cs, kids);
    PutTwice(h.children, DropEverywhere(f.children, Members(cs)), p, cs);
  }

  lemma ReplaceOutcome<N>(f: Forest<N>, p: N, cs: seq<N>)
    requires WellFormed(f) && Replaceable(f, p, cs)
    ensures WellFormed(Replace(f, p, cs)) && Replaces(f, Replace(f, p, cs), p, cs)
  {
    ReplaceAdoptable(f, p, cs);
    AdoptKeeps(LetGo(f, p, cs), p, cs);
    LetGoLinks(f, p, cs);
    AdoptReplaces(f, LetGo(f, p, cs), DetachAll(f, cs).children[p], p, cs, Replace(f, p, cs));
  }

  lemma PutTwice<K, V>(a: map<K, V>, b: map<K, V>, k: K, v: V)
    requires a.Keys == b.Keys && k in a && forall x | x in a && x != k :: a[x] == b[x]
    ensures a[k := v] == b[k := v]
  {
  }

  lemma ReplaceWithin<N>(f: Forest<N>, p: N, cs: seq<N>, limit: nat)
    requires WellFormed(f) && Replaceable(f, p, cs) && Within(f, limit)
    requires forall c | c in cs :: Fits(f, p, c, limit)
    ensures WellFormed(Replace(f, p, cs)) && Within(Replace(f, p, cs), limit)
  {
    ReplaceAdoptable(f, p, cs);
    var h := LetGo(f, p, cs);
    AdoptKeeps(h, p, cs);
    forall n | n in h.children && Below(h, cs, n)
      ensures h.depth[p] + 1 + h.depth[n] <= limit
    {
      var c :| c in cs && Above(h, c, n);
      assert NodeAgrees(h, c);
    }
  }

  /** A replacement that passes the checks has a result; it is a forest and keeps the limit. */
  lemma ReplaceExists<N>(f: Forest<N>, p: N, cs: seq<N>, limit: nat) returns (g: Forest<N>)
    requires WellFormed(f) && Replaceable(f, p, cs)
    requires forall c | c in cs :: Fits(f, p, c, limit)
    ensures WellFormed(g) && Replaces(f, g, p, cs) && g.children.Keys == f.children.Keys
    ensures Within(f, limit) ==> Within(g, limit)
  {
    g := Replace(f, p, cs);
    ReplaceOutcome(f, p, cs);
    if Within(f, limit) { ReplaceWithin(f, p, cs, limit); }
  }

  /** `g` is `f` after the nodes in `gone` lost their parents. */
  ghost predicate Detaches<N>(f: Forest<N>, g: Forest<N>, gone: set<N>) {
    g.parent == f.parent - gone && g.children == DropEverywhere(f.children, gone)
  }

  lemma DetachExists<N>(f: Forest<N>, c: N) returns (g: Forest<N>)
    requires WellFormed(f) && c in f.children
    ensures WellFormed(g) && Detaches(f, g, {c})
    ensures forall n | n in f.children :: g.depth[n] <= f.depth[n]
  {
    g := Detach(f, c);
    DetachCuts(f, c);
    DetachLinksOnly(f, c);
  }

  lemma DetachesTwice<N>(f: Forest<N>, g: Forest<N>, h: Forest<N>, a: set<N>, b: set<N>)
    requires Detaches(f, g, a) && Detaches(g, h, b)
    ensures Detaches(f, h, a + b)
  {
    MinusMinus(f.parent, a, b);
    forall n | n in f.children { DropTwice(f.children[n], a, b); }
  }

  lemma DetachesNone<N>(f: Forest<N>)
    ensures Detaches(f, f, {})
  {
    forall n | n in f.children { DropAbsent(f.children[n], {}); }
    assert f.parent - {} == f.parent;
  }

  /** Letting go of the children that remain and hanging up the new ones. */
  lemma ReplacesAfterDetaching<N>(f: Forest<N>, g: Forest<N>, p: N, cs: seq<N>)
    requires WellFormed(f) && WellFormed(g) && p in f.children && Detaches(f, g, Members(cs))
    ensures p in g.children
    ensures g.parent - Members(g.children[p]) + Under(cs, p)
         == (map n | n in f.parent && f.parent[n] != p :: f.parent[n]) + Under(cs, p)
  {
    ChildrenOf(f, p);
    Kids(g, p);
    Reparented(f.parent, p, cs, g.children[p]);
  }

  // ---------------------------------------------------------------- removing subtrees

  /** The nodes at and below the first `i` children of `n`. */
  ghost function BelowChildren<N>(f: Forest<N>, n: N, i: nat): set<N>
    requires WellFormed(f) && n in f.children && i <= |f.children[n]|
  {
    set m | m in f.children && exists k :: 0 <= k < i && Above(f, f.children[n][k], m)
  }

  lemma BelowChildrenNext<N>(f: Forest<N>, n: N, i: nat)
    requires WellFormed(f) && n in f.children && i < |f.children[n]|
    ensures BelowChildren(f, n, i + 1) == BelowChildren(f, n, i) + Subtree(f, f.children[n][i])
    ensures BelowChildren(f, n, i) !! Subtree(f, f.children[n][i])
    ensures n !in Subtree(f, f.children[n][i])
  {
    Kids(f, n);
    var c := f.children[n][i];
    assert c in f.children[n];
    if Above(f, c, n) { AboveDepth(f, c, n); }
    forall k | 0 <= k < i
      ensures Subtree(f, f.children[n][k]) !! Subtree(f, c)
    {
      assert f.children[n][k] in f.children[n];
      SiblingsDisjoint(f, f.children[n][k], c);
    }
    forall m | m in BelowChildren(f, n, i)
      ensures m !in Subtree(f, c)
    {
      var k :| 0 <= k < i && Above(f, f.children[n][k], m);
      assert m in Subtree(f, f.children[n][k]);
    }
  }

  /** A subtree is its top and the subtrees of the children. */
  lemma SubtreeSplits<N>(f: Forest<N>, n: N)
    requires WellFormed(f) && n in f.children
    ensures Subtree(f, n) == {n} + BelowChildren(f, n, |f.children[n]|)
    ensures n !in BelowChildren(f, n, |f.children[n]|)
    ensures ClosedDown(f, BelowChildren(f, n, |f.children[n]|))
  {
    Kids(f, n);
    var below := BelowChildren(f, n, |f.children[n]|);
    forall m | m in Subtree(f, n)
      ensures m == n || m in below
    {
      if m != n {
        var c := ChildToward(f, n, m);
        var k :| 0 <= k < |f.children[n]| && f.children[n][k] == c;
        assert Above(f, f.children[n][k], m);
      }
    }
    forall m | m in below
      ensures m in Subtree(f, n) && m != n
    {
      var k :| 0 <= k < |f.children[n]| && Above(f, f.children[n][k], m);
      var c := f.children[n][k];
      assert c in f.children[n] && Above(f, n, c);
      AboveTransitive(f, n, c, m);
      AboveDepth(f, c, m);
    }
  }

  /** Pruning a whole subtree changes one remaining list, that of its parent. */
  lemma PruneSubtree<N>(f: Forest<N>, c: N)
    requires WellFormed(f) && c in f.parent
    ensures ClosedDown(f, Subtree(f, c))
    ensures f.parent[c] in f.children
    ensures f.parent[c] !in Subtree(f, c)
    ensures forall n | n in f.children && n !in Subtree(f, c) ::
      Drop(f.children[n], Subtree(f, c)) == f.children[f.parent[c] := Drop(f.children[f.parent[c]], {c})][n]
  {
    if Above(f, c, f.parent[c]) { AboveDepth(f, c, f.parent[c]); }
    var gone := Subtree(f, c);
    assert LinkAgrees(f, c);
    forall n | n in f.children && n !in gone
      ensures Drop(f.children[n], gone) == f.children[f.parent[c] := Drop(f.children[f.parent[c]], {c})][n]
    {
      Kids(f, n);
      forall x | x in f.children[n] && x in gone
        ensures x == c
      { }
      if n == f.parent[c] {
        DropSame(f.children[n], gone, {c});
        assert Above(f, c, c);
      } else {
        DropAbsent(f.children[n], gone);
      }
    }
  }

  lemma {:induction false} DropSame<N>(s: seq<N>, a: set<N>, b: set<N>)
    requires forall x | x in s :: x in a <==> x in b
    ensures Drop(s, a) == Drop(s, b)
  {
    if s != [] { DropSame(s[1..], a, b); }
  }

  /** Emptying a node takes nothing out of any other remaining list. */
  lemma PruneBelow<N>(f: Forest<N>, n: N)
    requires WellFormed(f) && n in f.children
    ensures var gone := BelowChildren(f, n, |f.children[n]|);
            && ClosedDown(f, gone) && n !in gone
            && forall m | m in f.children && m !in gone ::
                 Drop(f.children[m], gone) == if m == n then [] else f.children[m]
  {
    var gone := BelowChildren(f, n, |f.children[n]|);
    SubtreeSplits(f, n);
    forall m | m in f.children && m !in gone
      ensures Drop(f.children[m], gone) == if m == n then [] else f.children[m]
    {
      Kids(f, m);
      if m == n {
        forall x | x in f.children[n]
          ensures x in gone
        {
          var k :| 0 <= k < |f.children[n]| && f.children[n][k] == x;
          assert Above(f, f.children[n][k], x);
        }
        DropAll(f.children[n], gone);
      } else {
        assert m !in Subtree(f, n) && !Above(f, n, m);
        forall x | x in f.children[m]
          ensures x !in gone
        { assert x == n || x !in Subtree(f, n); }
        DropAbsent(f.children[m], gone);
      }
    }
  }

  /** `g` is `f` after `n` has lost everything below it and got the single child `leaf`. */
  ghost predicate Retexts<N>(f: Forest<N>, g: Forest<N>, n: N, leaf: N)
    requires WellFormed(f) && n in f.children
  {
    var rest := Prune(f, BelowChildren(f, n, |f.children[n]|));
    g.parent == rest.parent[leaf := n] && g.children == rest.children[leaf := []][n := [leaf]]
  }

  lemma RetextsKeys<N>(f: Forest<N>, g: Forest<N>, n: N, leaf: N)
    requires WellFormed(f) && n in f.children && Retexts(f, g, n, leaf)
    ensures g.children.Keys == f.children.Keys - BelowChildren(f, n, |f.children[n]|) + {leaf}
  {
    SubtreeSplits(f, n);
  }

  /** A new leaf lies one level below its parent and moves no other node. */
  lemma {:induction false} LeafDepth<N>(f: Forest<N>, h: Forest<N>, p: N, t: N, n: N)
    requires WellFormed(f) && WellFormed(h) && h.parent == f.parent[t := p] && t !in f.children && p in f.children
    requires h.children.Keys == f.children.Keys + {t} && n in h.children
    ensures h.depth[n] == if n == t then f.depth[p] + 1 else f.depth[n]
    decreases if n == t then 1 else 0, if n in f.children then f.depth[n] else 0
  {
    if n == t {
      assert LinkAgrees(h, t);
      LeafDepth(f, h, p, t, p);
    } else if n in f.parent {
      assert LinkAgrees(f, n) && LinkAgrees(h, n);
      LeafDepth(f, h, p, t, f.parent[n]);
    } else {
      assert NodeAgrees(f, n) && NodeAgrees(h, n);
    }
  }

  lemma LeafWithin<N>(f: Forest<N>, h: Forest<N>, p: N, t: N, limit: nat)
    requires WellFormed(f) && WellFormed(h) && h.parent == f.parent[t := p] && t !in f.children && p in f.children
    requires h.children.Keys == f.children.Keys + {t} && Within(f, limit)
    ensures Within(h, limit) <==> f.depth[p] < limit
  {
    forall n | n in h.children
      ensures h.depth[n] == if n == t then f.depth[p] + 1 else f.depth[n]
    { LeafDepth(f, h, p, t, n); }
  }

  lemma PlantApart<N>(f: Forest<N>, t: N, n: N)
    requires WellFormed(f) && t !in f.children && n in f.children
    ensures WellFormed(Plant(f, t)) && t !in f.parent && !Above(Plant(f, t), t, n)
  {
    PlantKeeps(f, t);
    forall c | c in f.parent
      ensures c in f.children
    { assert LinkAgrees(f, c); }
    NotAbovePlanted(f, t, n);
  }

  lemma {:induction false} NotAbovePlanted<N>(f: Forest<N>, t: N, n: N)
    requires WellFormed(f) && WellFormed(Plant(f, t)) && t !in f.children && n in f.children
    ensures !Above(Plant(f, t), t, n)
    decreases f.depth[n]
  {
    if n in f.parent {
      assert LinkAgrees(f, n);
      NotAbovePlanted(f, t, f.parent[n]);
    }
  }

  /** Hanging a new leaf beneath a childless node. */
  lemma LeafExists<N>(f: Forest<N>, p: N, t: N, limit: nat) returns (h: Forest<N>)
    requires WellFormed(f) && p in f.children && f.children[p] == [] && t !in f.children
    ensures WellFormed(h) && Moves(Plant(f, t), h, p, t, 0)
    ensures h.parent == f.parent[t := p] && h.children == f.children[t := []][p := [t]]
    ensures Within(f, limit) ==> (Within(h, limit) <==> f.depth[p] < limit)
  {
    PlantApart(f, t, p);
    h := MoveExists(Plant(f, t), p, t, 0, limit);
    DropOnce(Plant(f, t), t);
    assert Drop(f.children[p][..0], {t}) + [t] + Drop(f.children[p][0..], {t}) == [t];
    if Within(f, limit) { LeafWithin(f, h, p, t, limit); }
  }
}
