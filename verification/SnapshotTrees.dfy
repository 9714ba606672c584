/** Snapshots of a document as values: which ones are accepted, and the forest one denotes. */
module SnapshotTrees {
  import opened Forests
  import opened Scans
  import opened Dom

  const MAX_NODES_PER_DOCUMENT: nat := 50_000
  const MAX_SCRIPT_TEXT_BYTES: nat := 0x20_0000
  const MAX_STYLE_TEXT_BYTES: nat := 0x40_0000

  datatype NodeSnapshot = NodeSnapshot(id: NodeID, kind: NodeType, payload: Payload, children: seq<NodeSnapshot>)

  datatype DocumentSnapshot = DocumentSnapshot(root: NodeSnapshot, nextID: NodeID, readyState: string)

  function TextLimitForParent(tag: string): nat {
    if tag == "script" then MAX_SCRIPT_TEXT_BYTES
    else if tag == "style" then MAX_STYLE_TEXT_BYTES
    else MAX_DOM_STRING_BYTES
  }

  predicate ValidPayload(p: Payload, parentTag: string) {
    && |p.tagName| <= MAX_DOM_STRING_BYTES && |p.text| <= TextLimitForParent(parentTag)
    && |p.controlValue| <= MAX_DOM_STRING_BYTES && |p.attributes| <= MAX_ATTRIBUTES_PER_NODE
    && forall name | name in p.attributes :: |name| <= MAX_DOM_STRING_BYTES
         && |p.attributes[name]| <= MAX_DOM_STRING_BYTES
  }

  /** What is too long: names, values and texts over 1 MiB, except a script's text up to 2 MiB and a
      style sheet's up to 4 MiB, or more than 256 attributes. */
  lemma PayloadTooLong(p: Payload, parentTag: string)
    ensures !ValidPayload(p, parentTag) <==>
      || |p.tagName| > 0x10_0000 || |p.controlValue| > 0x10_0000 || |p.attributes| > 256
      || |p.text| > 0x40_0000
      || (|p.text| > 0x20_0000 && parentTag != "style")
      || (|p.text| > 0x10_0000 && parentTag != "style" && parentTag != "script")
      || exists name | name in p.attributes :: |name| > 0x10_0000 || |p.attributes[name]| > 0x10_0000
  {
  }

  /** The snapshot nodes in tree order. */
  function Flat(s: NodeSnapshot): seq<NodeSnapshot>
    decreases s, |s.children| + 1
  {
    [s] + FlatFrom(s, 0)
  }

  function FlatFrom(s: NodeSnapshot, i: nat): seq<NodeSnapshot>
    requires i <= |s.children|
    decreases s, |s.children| - i
  {
    if i == |s.children| then [] else Flat(s.children[i]) + FlatFrom(s, i + 1)
  }

  /** Every node is within the limits that concern it alone, given its depth and parent tag. */
  predicate Sound(s: NodeSnapshot, depth: nat, parentTag: string)
    decreases s, |s.children| + 1
  {
    && depth <= MAX_TREE_DEPTH && s.id != 0 && s.kind <= FRAGMENT && ValidPayload(s.payload, parentTag)
    && SoundFrom(s, depth, 0)
  }

  predicate SoundFrom(s: NodeSnapshot, depth: nat, i: nat)
    requires i <= |s.children|
    decreases s, |s.children| - i
  {
    i == |s.children| || (Sound(s.children[i], depth + 1, s.payload.tagName) && SoundFrom(s, depth, i + 1))
  }

  /** Child numbers on a way down s. */
  predicate Leads(s: NodeSnapshot, path: seq<nat>)
    decreases s
  {
    path == [] || (path[0] < |s.children| && Leads(s.children[path[0]], path[1..]))
  }

  function At(s: NodeSnapshot, path: seq<nat>): NodeSnapshot
    requires Leads(s, path)
    decreases s
  {
    if path == [] then s else At(s.children[path[0]], path[1..])
  }

  function TagAbove(s: NodeSnapshot, parentTag: string, path: seq<nat>): string
    requires Leads(s, path)
    decreases s
  {
    if path == [] then parentTag else TagAbove(s.children[path[0]], s.payload.tagName, path[1..])
  }

  /** The node there is no deeper than 256 levels, has an ID and a known type, and a payload within
      the limits that the tag of its parent sets. */
  predicate Passes(s: NodeSnapshot, depth: nat, parentTag: string, path: seq<nat>)
    requires Leads(s, path)
  {
    && depth + |path| <= MAX_TREE_DEPTH
    && At(s, path).id != 0 && At(s, path).kind in {DOCUMENT, ELEMENT, TEXT, FRAGMENT}
    && ValidPayload(At(s, path).payload, TagAbove(s, parentTag, path))
  }

  lemma LeadsChild(s: NodeSnapshot, depth: nat, parentTag: string, i: nat, path: seq<nat>)
    requires i < |s.children| && Leads(s.children[i], path)
    ensures Leads(s, [i] + path)
    ensures Passes(s, depth, parentTag, [i] + path) <==> Passes(s.children[i], depth + 1, s.payload.tagName, path)
  {
    assert ([i] + path)[1..] == path;
  }

  lemma {:induction false} SoundChild(s: NodeSnapshot, depth: nat, i: nat, k: nat)
    requires i <= k < |s.children| && SoundFrom(s, depth, i)
    ensures Sound(s.children[k], depth + 1, s.payload.tagName)
    decreases k - i
  {
    if i < k { SoundChild(s, depth, i + 1, k); }
  }

  lemma {:induction false} SoundDown(s: NodeSnapshot, depth: nat, parentTag: string, path: seq<nat>)
    requires Sound(s, depth, parentTag) && Leads(s, path)
    ensures Passes(s, depth, parentTag, path)
    decreases |path|
  {
    if path != [] {
      SoundChild(s, depth, 0, path[0]);
      SoundDown(s.children[path[0]], depth + 1, s.payload.tagName, path[1..]);
      LeadsChild(s, depth, parentTag, path[0], path[1..]);
      assert [path[0]] + path[1..] == path;
    }
  }

  lemma {:induction false} SoundUp(s: NodeSnapshot, depth: nat, parentTag: string, i: nat)
    requires i <= |s.children| && forall path | Leads(s, path) :: Passes(s, depth, parentTag, path)
    ensures SoundFrom(s, depth, i)
    decreases s, |s.children| - i
  {
    if i < |s.children| {
      var c := s.children[i];
      forall path | Leads(c, path)
        ensures Passes(c, depth + 1, s.payload.tagName, path)
      { LeadsChild(s, depth, parentTag, i, path); }
      SoundUp(c, depth + 1, s.payload.tagName, 0);
      assert Leads(c, []) && Passes(c, depth + 1, s.payload.tagName, []);
      SoundUp(s, depth, parentTag, i + 1);
    }
  }

  /** A snapshot is within the limits exactly when each of its nodes is. */
  lemma SoundExactly(s: NodeSnapshot, depth: nat, parentTag: string)
    ensures Sound(s, depth, parentTag) <==> forall path | Leads(s, path) :: Passes(s, depth, parentTag, path)
  {
    if Sound(s, depth, parentTag) {
      forall path | Leads(s, path)
        ensures Passes(s, depth, parentTag, path)
      { SoundDown(s, depth, parentTag, path); }
    }
    if forall path | Leads(s, path) :: Passes(s, depth, parentTag, path) {
      assert Leads(s, []) && Passes(s, depth, parentTag, []);
      SoundUp(s, depth, parentTag, 0);
    }
  }

  ghost function IDsOf(ss: seq<NodeSnapshot>): seq<NodeID> {
    seq(|ss|, i requires 0 <= i < |ss| => ss[i].id)
  }

  /** What an accepted snapshot is: a document root, a known ready state, nodes within the
      limits, distinct IDs and not too many of them. */
  ghost predicate Acceptable(s: DocumentSnapshot) {
    && s.root.id != 0 && s.root.kind == DOCUMENT
    && s.readyState in {"", "loading", "interactive", "complete"}
    && Sound(s.root, 0, "") && NoDup(IDsOf(Flat(s.root))) && |Flat(s.root)| <= MAX_NODES_PER_DOCUMENT
  }

  // ---------------------------------------------------------------- filing

  /** Files snapshot nodes under their IDs. */
  function File(flat: map<NodeID, NodeSnapshot>, ss: seq<NodeSnapshot>): map<NodeID, NodeSnapshot>
    decreases |ss|
  {
    if ss == [] then flat else File(flat[ss[0].id := ss[0]], ss[1..])
  }

  /** Filing meets neither an ID in use nor the node limit. */
  predicate Fileable(flat: map<NodeID, NodeSnapshot>, ss: seq<NodeSnapshot>)
    decreases |ss|
  {
    ss == [] || (ss[0].id !in flat && |flat| < MAX_NODES_PER_DOCUMENT && Fileable(flat[ss[0].id := ss[0]], ss[1..]))
  }

  lemma {:induction false} FileSplit(flat: map<NodeID, NodeSnapshot>, a: seq<NodeSnapshot>, b: seq<NodeSnapshot>)
    ensures File(flat, a + b) == File(File(flat, a), b)
    ensures Fileable(flat, a + b) <==> Fileable(flat, a) && Fileable(File(flat, a), b)
    decreases |a|
  {
    if a == [] {
      assert a + b == b;
    } else {
      assert (a + b)[0] == a[0] && (a + b)[1..] == a[1..] + b;
      FileSplit(flat[a[0].id := a[0]], a[1..], b);
    }
  }

  /** Filing succeeds exactly on new, distinct IDs that fit under the limit. */
  lemma {:induction false} FileableExactly(flat: map<NodeID, NodeSnapshot>, ss: seq<NodeSnapshot>)
    requires |flat| <= MAX_NODES_PER_DOCUMENT
    ensures Fileable(flat, ss) <==>
      NoDup(IDsOf(ss)) && (forall s | s in ss :: s.id !in flat) && |flat| + |ss| <= MAX_NODES_PER_DOCUMENT
    decreases |ss|
  {
    if ss != [] {
      var head, tail := ss[0], ss[1..];
      var next := flat[head.id := head];
      assert ss == [head] + tail;
      if head.id !in flat && |flat| < MAX_NODES_PER_DOCUMENT {
        assert next.Keys == flat.Keys + {head.id} && |next| == |next.Keys| && |flat| == |flat.Keys|;
        FileableExactly(next, tail);
        NoDupCons(head, tail);
        assert (forall s | s in tail :: s.id !in next) <==> (forall s | s in tail :: s.id !in flat && s.id != head.id);
      }
    }
  }

  lemma NoDupPut<N>(x: N, s: seq<N>)
    ensures NoDup([x] + s) <==> NoDup(s) && x !in s
  {
    var t := [x] + s;
    assert forall i :: 0 <= i < |s| ==> t[i + 1] == s[i];
    if NoDup(t) {
      forall i, j | 0 <= i < j < |s|
        ensures s[i] != s[j]
      { assert t[i + 1] != t[j + 1]; }
      forall i | 0 <= i < |s|
        ensures s[i] != x
      { assert t[0] != t[i + 1]; }
    }
  }

  lemma NoDupCons(head: NodeSnapshot, tail: seq<NodeSnapshot>)
    ensures NoDup(IDsOf([head] + tail)) <==> NoDup(IDsOf(tail)) && forall s | s in tail :: s.id != head.id
  {
    NoDupPut(head.id, IDsOf(tail));
    assert IDsOf([head] + tail) == [head.id] + IDsOf(tail);
    assert forall i :: 0 <= i < |tail| ==> IDsOf(tail)[i] == tail[i].id;
  }

  lemma {:induction false} FileKeeps(flat: map<NodeID, NodeSnapshot>, ss: seq<NodeSnapshot>, id: NodeID)
    requires Fileable(flat, ss) && id in flat
    ensures id in File(flat, ss) && File(flat, ss)[id] == flat[id]
    decreases |ss|
  {
    if ss != [] { FileKeeps(flat[ss[0].id := ss[0]], ss[1..], id); }
  }

  lemma {:induction false} FileHolds(flat: map<NodeID, NodeSnapshot>, ss: seq<NodeSnapshot>, i: nat)
    requires Fileable(flat, ss) && i < |ss|
    ensures ss[i].id in File(flat, ss) && File(flat, ss)[ss[i].id] == ss[i]
    decreases |ss|
  {
    var next := flat[ss[0].id := ss[0]];
    if i == 0 { FileKeeps(next, ss[1..], ss[0].id); } else { FileHolds(next, ss[1..], i - 1); }
  }

  lemma {:induction false} FileKeys(flat: map<NodeID, NodeSnapshot>, ss: seq<NodeSnapshot>, id: NodeID)
    requires id in File(flat, ss)
    ensures id in flat || exists i :: 0 <= i < |ss| && ss[i].id == id
    decreases |ss|
  {
    if ss != [] {
      FileKeys(flat[ss[0].id := ss[0]], ss[1..], id);
      if i :| 0 <= i < |ss[1..]| && ss[1..][i].id == id { assert ss[i + 1].id == id; }
    }
  }

  /** What has been filed is exactly the snapshot nodes, each under its own ID. */
  lemma FileContents(ss: seq<NodeSnapshot>)
    requires Fileable(map[], ss)
    ensures File(map[], ss).Keys == IDSet(ss)
    ensures forall x | x in ss :: x.id in File(map[], ss) && File(map[], ss)[x.id] == x
    ensures forall id | id in File(map[], ss) :: File(map[], ss)[id] in ss && File(map[], ss)[id].id == id
  {
    forall x | x in ss
      ensures x.id in File(map[], ss) && File(map[], ss)[x.id] == x
    {
      var i :| 0 <= i < |ss| && ss[i] == x;
      FileHolds(map[], ss, i);
    }
    forall id | id in File(map[], ss)
      ensures id in IDSet(ss) && File(map[], ss)[id] in ss && File(map[], ss)[id].id == id
    {
      FileKeys(map[], ss, id);
      var i :| 0 <= i < |ss| && ss[i].id == id;
      FileHolds(map[], ss, i);
      assert ss[i] in ss;
    }
  }

  // ---------------------------------------------------------------- the forest of a snapshot

  /** `f` with the lone node `c` as the new last child of `p`. */
  function AttachLeaf(f: Forest<Node>, p: Node, c: Node): Forest<Node>
    requires p in f.children && p in f.depth
  {
    Forest(f.parent[c := p], f.children[p := f.children[p] + [c]], f.depth[c := f.depth[p] + 1])
  }

  ghost predicate Lone(f: Forest<Node>, n: Node) {
    n in f.children && f.children[n] == [] && n !in f.parent
  }

  lemma AttachLeafKeeps(f: Forest<Node>, p: Node, c: Node)
    requires WellFormed(f) && p in f.children && Lone(f, c) && p != c
    ensures WellFormed(AttachLeaf(f, p, c))
  {
    var g := AttachLeaf(f, p, c);
    forall n | n in g.parent
      ensures LinkAgrees(g, n)
    {
      if n != c {
        assert LinkAgrees(f, n);
        assert f.parent[n] != c by { assert n in f.children[f.parent[n]]; }
      }
    }
    forall n | n in g.children
      ensures NodeAgrees(g, n)
    {
      assert NodeAgrees(f, n);
      assert c !in f.children[n];
    }
  }

  /** The node that stands for a snapshot node. */
  ghost predicate Placed(at: map<NodeID, Node>, ss: seq<NodeSnapshot>) {
    forall x | x in ss :: x.id in at && at[x.id].id == x.id
  }

  /** `f` after the descendants of `s` have been hung beneath its node. */
  ghost function Link(f: Forest<Node>, at: map<NodeID, Node>, s: NodeSnapshot): Forest<Node>
    requires Placed(at, Flat(s))
    decreases s, |s.children| + 1
  {
    assert s in Flat(s);
    LinkFrom(f, at, s, 0)
  }

  ghost function LinkFrom(f: Forest<Node>, at: map<NodeID, Node>, s: NodeSnapshot, i: nat): Forest<Node>
    requires i <= |s.children| && s.id in at && Placed(at, FlatFrom(s, i))
    decreases s, |s.children| - i
  {
    if i == |s.children| then f else
      var c := s.children[i];
      assert c in Flat(c);
      if at[s.id] in f.children && at[s.id] in f.depth
      then LinkFrom(Link(AttachLeaf(f, at[s.id], at[c.id]), at, c), at, s, i + 1)
      else f
  }

  ghost function KidsAt(at: map<NodeID, Node>, s: NodeSnapshot): seq<Node>
    requires forall c | c in s.children :: c.id in at
  {
    seq(|s.children|, i requires 0 <= i < |s.children| => at[s.children[i].id])
  }

  /** The nodes of `ss` are still on their own. */
  ghost predicate Ready(f: Forest<Node>, at: map<NodeID, Node>, ss: seq<NodeSnapshot>)
    requires Placed(at, ss)
  {
    forall x | x in ss :: Lone(f, at[x.id])
  }

  /** Nothing but the links below the nodes of `ss` differs between `f` and `g`. */
  ghost predicate SameOutside(f: Forest<Node>, g: Forest<Node>, ids: set<NodeID>) {
    && g.children.Keys == f.children.Keys == g.depth.Keys == f.depth.Keys
    && forall n | n in f.children && n.id !in ids ::
         && g.children[n] == f.children[n] && g.depth[n] == f.depth[n]
         && (n in g.parent <==> n in f.parent) && (n in f.parent && n in g.parent ==> g.parent[n] == f.parent[n])
  }

  ghost function IDSet(ss: seq<NodeSnapshot>): set<NodeID> {
    set x | x in ss :: x.id
  }

  lemma FlatChild(s: NodeSnapshot, i: nat)
    requires i < |s.children|
    ensures IDSet(FlatFrom(s, i)) == IDSet(Flat(s.children[i])) + IDSet(FlatFrom(s, i + 1))
    ensures NoDup(IDsOf(FlatFrom(s, i))) ==>
      && NoDup(IDsOf(Flat(s.children[i]))) && NoDup(IDsOf(FlatFrom(s, i + 1)))
      && IDSet(Flat(s.children[i])) !! IDSet(FlatFrom(s, i + 1))
  {
    if NoDup(IDsOf(FlatFrom(s, i))) { NoDupSplit(Flat(s.children[i]), FlatFrom(s, i + 1)); }
  }

  lemma FlatTop(s: NodeSnapshot)
    ensures IDSet(Flat(s)) == {s.id} + IDSet(FlatFrom(s, 0))
    ensures NoDup(IDsOf(Flat(s))) ==> NoDup(IDsOf(FlatFrom(s, 0))) && s.id !in IDSet(FlatFrom(s, 0))
  {
    NoDupCons(s, FlatFrom(s, 0));
  }

  lemma NoDupSplit(a: seq<NodeSnapshot>, b: seq<NodeSnapshot>)
    requires NoDup(IDsOf(a + b))
    ensures NoDup(IDsOf(a)) && NoDup(IDsOf(b)) && IDSet(a) !! IDSet(b)
  {
    var ids := IDsOf(a + b);
    forall i | 0 <= i < |a|
      ensures ids[i] == IDsOf(a)[i]
    { }
    forall i | 0 <= i < |b|
      ensures ids[|a| + i] == IDsOf(b)[i]
    { }
    forall x, y | x in a && y in b
      ensures x.id != y.id
    {
      var i :| 0 <= i < |a| && a[i] == x;
      var j :| 0 <= j < |b| && b[j] == y;
      assert ids[i] != ids[|a| + j];
    }
  }

  /** The node of every element of `ss` has its children in `f`, and is not too deep. */
  ghost predicate Shaped(f: Forest<Node>, at: map<NodeID, Node>, ss: seq<NodeSnapshot>)
    requires Placed(at, ss)
  {
    forall x | x in ss :: ShapedAt(f, at, x)
  }

  ghost predicate ShapedAt(f: Forest<Node>, at: map<NodeID, Node>, x: NodeSnapshot)
    requires x.id in at
  {
    && at[x.id] in f.children && at[x.id] in f.depth && f.depth[at[x.id]] <= MAX_TREE_DEPTH
    && (forall c | c in x.children :: c.id in at)
    && f.children[at[x.id]] == KidsAt(at, x)
  }

  /** Linking the descendants of `s`, from its child number `i` on, has been done. */
  ghost predicate LinkedFrom(f: Forest<Node>, g: Forest<Node>, at: map<NodeID, Node>, s: NodeSnapshot, i: nat)
    requires i <= |s.children| && Placed(at, Flat(s))
  {
    assert s in Flat(s);
    var top := at[s.id];
    && WellFormed(g) && SameOutside(f, g, {s.id} + IDSet(FlatFrom(s, i)))
    && ShapedAt(g, at, s) && Placed(at, FlatFrom(s, i)) && Shaped(g, at, FlatFrom(s, i))
    && top in f.depth && g.depth[top] == f.depth[top]
    && (top in g.parent <==> top in f.parent) && (top in f.parent ==> g.parent[top] == f.parent[top])
  }

  lemma PlacedFrom(at: map<NodeID, Node>, s: NodeSnapshot, i: nat)
    requires i <= |s.children| && Placed(at, Flat(s))
    ensures s.id in at && at[s.id].id == s.id && Placed(at, FlatFrom(s, i))
    ensures i < |s.children| ==> Placed(at, Flat(s.children[i])) && s.children[i].id in at
    ensures forall c | c in s.children :: c.id in at
    decreases |s.children| - i
  {
    assert s in Flat(s);
    PlacedAll(at, s, 0, i);
    if i < |s.children| { assert s.children[i] in Flat(s.children[i]); }
    forall c | c in s.children
      ensures c.id in at
    {
      var k :| 0 <= k < |s.children| && s.children[k] == c;
      PlacedAll(at, s, 0, k);
      assert c in Flat(c);
    }
  }

  lemma {:induction false} PlacedAll(at: map<NodeID, Node>, s: NodeSnapshot, i: nat, j: nat)
    requires i <= j <= |s.children| && Placed(at, FlatFrom(s, i))
    ensures Placed(at, FlatFrom(s, j))
    decreases j - i
  {
    if i < j { PlacedAll(at, s, i + 1, j); }
  }

  lemma {:induction false} LinkKeeps(f: Forest<Node>, at: map<NodeID, Node>, s: NodeSnapshot, tag: string)
    requires WellFormed(f) && Placed(at, Flat(s)) && NoDup(IDsOf(Flat(s))) && s.id in at
    requires at[s.id] in f.children && f.children[at[s.id]] == []
    requires Placed(at, FlatFrom(s, 0)) && Ready(f, at, FlatFrom(s, 0)) && Sound(s, f.depth[at[s.id]], tag)
    ensures LinkedFrom(f, Link(f, at, s), at, s, 0)
    decreases s, |s.children| + 1
  {
    PlacedFrom(at, s, 0);
    FlatTop(s);
    LinkFromKeeps(f, at, s, 0);
  }

  /** Hanging up child number `i` leaves its own descendants and the later siblings alone. */
  lemma LeafReady(f: Forest<Node>, at: map<NodeID, Node>, s: NodeSnapshot, i: nat)
    requires WellFormed(f) && i < |s.children| && Placed(at, Flat(s)) && s.id in at && at[s.id] in f.children
    requires NoDup(IDsOf(FlatFrom(s, i))) && s.id !in IDSet(FlatFrom(s, i))
    requires Placed(at, FlatFrom(s, i)) && Ready(f, at, FlatFrom(s, i)) && s.children[i].id in at
    ensures Lone(f, at[s.children[i].id]) && at[s.children[i].id] != at[s.id] && at[s.id] in f.depth
    ensures var f1 := AttachLeaf(f, at[s.id], at[s.children[i].id]);
            && f1.children[at[s.children[i].id]] == []
            && Placed(at, FlatFrom(s.children[i], 0)) && Ready(f1, at, FlatFrom(s.children[i], 0))
            && Placed(at, FlatFrom(s, i + 1)) && Ready(f1, at, FlatFrom(s, i + 1))
  {
    var c := s.children[i];
    PlacedFrom(at, s, i);
    PlacedFrom(at, s, i + 1);
    PlacedFrom(at, c, 0);
    FlatChild(s, i);
    FlatTop(c);
    assert c in Flat(c) && c in FlatFrom(s, i);
    forall x | x in FlatFrom(c, 0)
      ensures x.id != c.id && x.id != s.id && Lone(f, at[x.id])
    { assert x in Flat(c) && x in FlatFrom(s, i); }
    forall x | x in FlatFrom(s, i + 1)
      ensures x.id != c.id && x.id != s.id && Lone(f, at[x.id])
    { assert x in FlatFrom(s, i) && x.id in IDSet(FlatFrom(s, i + 1)); }
  }

  lemma ReadyOutside(f: Forest<Node>, g: Forest<Node>, at: map<NodeID, Node>, ss: seq<NodeSnapshot>, ids: set<NodeID>)
    requires Placed(at, ss) && Ready(f, at, ss) && SameOutside(f, g, ids) && IDSet(ss) !! ids
    ensures Ready(g, at, ss)
  {
    forall x | x in ss
      ensures Lone(g, at[x.id])
    { assert x.id in IDSet(ss) && at[x.id].id == x.id; }
  }

  lemma ShapedOutside(f: Forest<Node>, g: Forest<Node>, at: map<NodeID, Node>, ss: seq<NodeSnapshot>, ids: set<NodeID>)
    requires Placed(at, ss) && Shaped(f, at, ss) && SameOutside(f, g, ids) && IDSet(ss) !! ids
    ensures Shaped(g, at, ss)
  {
    forall x | x in ss
      ensures ShapedAt(g, at, x)
    { assert ShapedAt(f, at, x) && x.id in IDSet(ss) && at[x.id].id == x.id; }
  }

  lemma SameOutsideLeaf(f: Forest<Node>, p: Node, c: Node)
    requires WellFormed(f) && p in f.children && c in f.children
    ensures SameOutside(f, AttachLeaf(f, p, c), {p.id, c.id})
  {
  }

  lemma SameOutsideTwice(f: Forest<Node>, g: Forest<Node>, h: Forest<Node>, a: set<NodeID>, b: set<NodeID>)
    requires SameOutside(f, g, a) && SameOutside(g, h, b)
    ensures SameOutside(f, h, a + b)
  {
  }

  /** What linking child number `i` and then the later siblings amounts to. */
  lemma LinkedTogether(f: Forest<Node>, f2: Forest<Node>, g: Forest<Node>, at: map<NodeID, Node>, s: NodeSnapshot,
                       i: nat)
    requires WellFormed(f) && i < |s.children| && Placed(at, Flat(s)) && s.id in at && at[s.id] in f.children
    requires NoDup(IDsOf(FlatFrom(s, i))) && s.id !in IDSet(FlatFrom(s, i))
    requires SameOutside(f, f2, {s.id} + IDSet(Flat(s.children[i])))
    requires Placed(at, Flat(s.children[i])) && Shaped(f2, at, Flat(s.children[i]))
    requires f2.depth[at[s.id]] == f.depth[at[s.id]] && (at[s.id] in f2.parent <==> at[s.id] in f.parent)
    requires at[s.id] in f.parent ==> f2.parent[at[s.id]] == f.parent[at[s.id]]
    requires LinkedFrom(f2, g, at, s, i + 1)
    ensures LinkedFrom(f, g, at, s, i)
  {
    var c := s.children[i];
    FlatChild(s, i);
    PlacedFrom(at, s, i);
    ShapedOutside(f2, g, at, Flat(c), {s.id} + IDSet(FlatFrom(s, i + 1)));
    SameOutsideTwice(f, f2, g, {s.id} + IDSet(Flat(c)), {s.id} + IDSet(FlatFrom(s, i + 1)));
    assert {s.id} + IDSet(Flat(c)) + ({s.id} + IDSet(FlatFrom(s, i + 1))) == {s.id} + IDSet(FlatFrom(s, i));
    forall x | x in FlatFrom(s, i)
      ensures ShapedAt(g, at, x)
    { assert x in Flat(c) || x in FlatFrom(s, i + 1); }
  }

  lemma NoneLeft(f: Forest<Node>, at: map<NodeID, Node>, s: NodeSnapshot)
    requires WellFormed(f) && Placed(at, Flat(s)) && s.id in at && (forall c | c in s.children :: c.id in at)
    requires at[s.id] in f.children && f.children[at[s.id]] == KidsAt(at, s)[..|s.children|]
    requires f.depth[at[s.id]] <= MAX_TREE_DEPTH
    ensures LinkedFrom(f, f, at, s, |s.children|)
  {
    assert KidsAt(at, s)[..|s.children|] == KidsAt(at, s);
  }

  lemma {:induction false} LinkFromKeeps(f: Forest<Node>, at: map<NodeID, Node>, s: NodeSnapshot, i: nat)
    requires WellFormed(f) && i <= |s.children| && Placed(at, Flat(s)) && s.id in at
    requires NoDup(IDsOf(FlatFrom(s, i))) && s.id !in IDSet(FlatFrom(s, i))
    requires (forall c | c in s.children :: c.id in at) && at[s.id] in f.children
    requires f.children[at[s.id]] == KidsAt(at, s)[..i] && f.depth[at[s.id]] <= MAX_TREE_DEPTH
    requires Placed(at, FlatFrom(s, i)) && Ready(f, at, FlatFrom(s, i)) && SoundFrom(s, f.depth[at[s.id]], i)
    ensures LinkedFrom(f, LinkFrom(f, at, s, i), at, s, i)
    decreases s, |s.children| - i
  {
    hide WellFormed, SameOutside, ShapedAt, LinkedFrom;
    PlacedFrom(at, s, i);
    var top := at[s.id];
    if i == |s.children| {
      NoneLeft(f, at, s);
    } else {
      var c := s.children[i];
      var leaf := at[c.id];
      FlatChild(s, i);
      LeafReady(f, at, s, i);
      var f1 := AttachLeaf(f, top, leaf);
      AttachLeafKeeps(f, top, leaf);
      LinkKeeps(f1, at, c, s.payload.tagName);
      var f2 := Link(f1, at, c);
      ChildLinked(f, f1, f2, at, s, i);
      LinkFromKeeps(f2, at, s, i + 1);
      LinkedTogether(f, f2, LinkFrom(f2, at, s, i + 1), at, s, i);
    }
  }

  lemma KidsAtNext(at: map<NodeID, Node>, s: NodeSnapshot, i: nat)
    requires (forall c | c in s.children :: c.id in at) && i < |s.children|
    ensures KidsAt(at, s)[..i] + [at[s.children[i].id]] == KidsAt(at, s)[..i + 1]
  {
  }

  lemma LinkedWhole(f: Forest<Node>, g: Forest<Node>, at: map<NodeID, Node>, s: NodeSnapshot)
    requires Placed(at, Flat(s)) && LinkedFrom(f, g, at, s, 0)
    ensures WellFormed(g) && Shaped(g, at, Flat(s)) && s.id in at
  {
    hide WellFormed, ShapedAt, SameOutside;
    PlacedFrom(at, s, 0);
    assert Flat(s) == [s] + FlatFrom(s, 0);
    forall x | x in Flat(s)
      ensures x.id in at && ShapedAt(g, at, x)
    { assert x == s || x in FlatFrom(s, 0); }
  }

  /** The state between linking child number `i` and the later siblings. */
  lemma ChildLinked(f: Forest<Node>, f1: Forest<Node>, f2: Forest<Node>, at: map<NodeID, Node>, s: NodeSnapshot, i: nat)
    requires WellFormed(f) && i < |s.children| && Placed(at, Flat(s)) && s.id in at && at[s.id] in f.children
    requires NoDup(IDsOf(FlatFrom(s, i))) && s.id !in IDSet(FlatFrom(s, i))
    requires (forall c | c in s.children :: c.id in at) && f.children[at[s.id]] == KidsAt(at, s)[..i]
    requires Placed(at, FlatFrom(s, i)) && Ready(f, at, FlatFrom(s, i)) && at[s.children[i].id] in f.children
    requires f1 == AttachLeaf(f, at[s.id], at[s.children[i].id]) && Placed(at, Flat(s.children[i]))
    requires LinkedFrom(f1, f2, at, s.children[i], 0)
    ensures WellFormed(f2) && SameOutside(f, f2, {s.id} + IDSet(Flat(s.children[i])))
    ensures Shaped(f2, at, Flat(s.children[i])) && Placed(at, FlatFrom(s, i + 1)) && Ready(f2, at, FlatFrom(s, i + 1))
    ensures at[s.id] in f2.children && f2.children[at[s.id]] == KidsAt(at, s)[..i + 1]
    ensures at[s.id] in f2.depth && f2.depth[at[s.id]] == f.depth[at[s.id]]
    ensures at[s.id] in f2.parent <==> at[s.id] in f.parent
    ensures at[s.id] in f.parent ==> f2.parent[at[s.id]] == f.parent[at[s.id]]
  {
    hide WellFormed, KidsAt;
    var c := s.children[i];
    FlatChild(s, i);
    FlatTop(c);
    PlacedFrom(at, s, i);
    LeafReady(f, at, s, i);
    assert c in Flat(c) && {c.id} + IDSet(FlatFrom(c, 0)) == IDSet(Flat(c));
    SameOutsideLeaf(f, at[s.id], at[c.id]);
    SameOutsideTwice(f, f1, f2, {s.id, c.id}, IDSet(Flat(c)));
    assert {s.id, c.id} + IDSet(Flat(c)) == {s.id} + IDSet(Flat(c));
    ReadyOutside(f1, f2, at, FlatFrom(s, i + 1), IDSet(Flat(c)));
    assert at[s.id].id == s.id && s.id !in IDSet(Flat(c));
    KidsAtNext(at, s, i);
  }

  lemma {:induction false} SoundIDs(s: NodeSnapshot, depth: nat, tag: string, x: NodeSnapshot)
    requires Sound(s, depth, tag) && x in Flat(s)
    ensures x.id != 0
    decreases s, |s.children| + 1
  {
    if x != s { SoundIDsFrom(s, depth, 0, x); }
  }

  lemma {:induction false} SoundIDsFrom(s: NodeSnapshot, depth: nat, i: nat, x: NodeSnapshot)
    requires i <= |s.children| && SoundFrom(s, depth, i) && x in FlatFrom(s, i)
    ensures x.id != 0
    decreases s, |s.children| - i
  {
    if x in Flat(s.children[i]) {
      SoundIDs(s.children[i], depth + 1, s.payload.tagName, x);
    } else {
      SoundIDsFrom(s, depth, i + 1, x);
    }
  }

  // ---------------------------------------------------------------- linking, step by step

  /** The descendants of `s` may be hung beneath its node. */
  ghost predicate Linkable(f: Forest<Node>, at: map<NodeID, Node>, s: NodeSnapshot, tag: string) {
    && WellFormed(f) && Placed(at, Flat(s)) && NoDup(IDsOf(Flat(s))) && s.id in at
    && at[s.id] in f.children && f.children[at[s.id]] == []
    && Placed(at, FlatFrom(s, 0)) && Ready(f, at, FlatFrom(s, 0)) && Sound(s, f.depth[at[s.id]], tag)
  }

  /** The children of `s` before number `i` hang beneath its node already, the others may follow. */
  ghost predicate LinkableFrom(f: Forest<Node>, at: map<NodeID, Node>, s: NodeSnapshot, i: nat)
    requires i <= |s.children|
  {
    && WellFormed(f) && Placed(at, Flat(s)) && s.id in at
    && NoDup(IDsOf(FlatFrom(s, i))) && s.id !in IDSet(FlatFrom(s, i))
    && (forall c | c in s.children :: c.id in at) && at[s.id] in f.children
    && f.children[at[s.id]] == KidsAt(at, s)[..i] && f.depth[at[s.id]] <= MAX_TREE_DEPTH
    && Placed(at, FlatFrom(s, i)) && Ready(f, at, FlatFrom(s, i)) && SoundFrom(s, f.depth[at[s.id]], i)
  }

  lemma LinkBegins(f: Forest<Node>, at: map<NodeID, Node>, s: NodeSnapshot, tag: string)
    requires Linkable(f, at, s, tag)
    ensures LinkableFrom(f, at, s, 0) && Placed(at, FlatFrom(s, 0)) && LinkFrom(f, at, s, 0) == Link(f, at, s)
  {
    PlacedFrom(at, s, 0);
    FlatTop(s);
  }

  /** Child number `i` may be hung up next. */
  lemma LinkChild(f: Forest<Node>, at: map<NodeID, Node>, s: NodeSnapshot, i: nat)
    requires i < |s.children| && LinkableFrom(f, at, s, i)
    ensures s.children[i].id in at && Lone(f, at[s.children[i].id]) && at[s.id] in f.children && at[s.id] in f.depth
    ensures Linkable(AttachLeaf(f, at[s.id], at[s.children[i].id]), at, s.children[i], s.payload.tagName)
  {
    PlacedFrom(at, s, i);
    FlatChild(s, i);
    LeafReady(f, at, s, i);
    AttachLeafKeeps(f, at[s.id], at[s.children[i].id]);
  }

  /** Once it has been linked, its later siblings may follow. */
  lemma LinkRest(f: Forest<Node>, f1: Forest<Node>, at: map<NodeID, Node>, s: NodeSnapshot, i: nat)
    requires i < |s.children| && LinkableFrom(f, at, s, i) && s.children[i].id in at
    requires at[s.children[i].id] in f.children && at[s.id] in f.children && at[s.id] in f.depth
    requires f1 == AttachLeaf(f, at[s.id], at[s.children[i].id])
    requires Linkable(f1, at, s.children[i], s.payload.tagName)
    ensures LinkableFrom(Link(f1, at, s.children[i]), at, s, i + 1) && Placed(at, FlatFrom(s, i + 1))
      && Placed(at, FlatFrom(s, i))
    ensures LinkFrom(Link(f1, at, s.children[i]), at, s, i + 1) == LinkFrom(f, at, s, i)
    ensures Link(f1, at, s.children[i]).children.Keys == f.children.Keys
  {
    var c := s.children[i];
    FlatChild(s, i);
    LinkKeeps(f1, at, c, s.payload.tagName);
    ChildLinked(f, f1, Link(f1, at, c), at, s, i);
  }

  // ---------------------------------------------------------------- reading a tree back

  /** The snapshot of the subtree of `n`. */
  ghost function Capture(f: Forest<Node>, pay: map<Node, Payload>, n: Node): NodeSnapshot
    requires WellFormed(f) && n in f.children && pay.Keys == f.children.Keys
    decreases Deepest(f) - f.depth[n], |f.children[n]| + 1
  {
    NodeSnapshot(n.id, n.kind, pay[n], CaptureFrom(f, pay, n, 0))
  }

  ghost function CaptureFrom(f: Forest<Node>, pay: map<Node, Payload>, n: Node, i: nat): seq<NodeSnapshot>
    requires WellFormed(f) && n in f.children && pay.Keys == f.children.Keys && i <= |f.children[n]|
    decreases Deepest(f) - f.depth[n], |f.children[n]| - i
  {
    if i == |f.children[n]| then [] else
      Listed(f, n, i);
      [Capture(f, pay, f.children[n][i])] + CaptureFrom(f, pay, n, i + 1)
  }

  /** The nodes standing for `ss` carry the recorded kinds and payloads. */
  ghost predicate Filled(pay: map<Node, Payload>, at: map<NodeID, Node>, ss: seq<NodeSnapshot>)
    requires Placed(at, ss)
  {
    forall x | x in ss :: at[x.id] in pay && pay[at[x.id]] == x.payload && at[x.id].kind == x.kind
  }

  /** A tree shaped and filled after a snapshot yields that snapshot. */
  lemma {:induction false} CaptureShaped(f: Forest<Node>, pay: map<Node, Payload>, at: map<NodeID, Node>,
                                         s: NodeSnapshot)
    requires WellFormed(f) && pay.Keys == f.children.Keys && Placed(at, Flat(s))
    requires Shaped(f, at, Flat(s)) && Filled(pay, at, Flat(s))
    ensures s.id in at && at[s.id] in f.children && Capture(f, pay, at[s.id]) == s
    decreases s, |s.children| + 1
  {
    assert s in Flat(s) && ShapedAt(f, at, s);
    CaptureShapedFrom(f, pay, at, s, 0);
  }

  lemma {:induction false} CaptureShapedFrom(f: Forest<Node>, pay: map<Node, Payload>, at: map<NodeID, Node>,
                                             s: NodeSnapshot, i: nat)
    requires WellFormed(f) && pay.Keys == f.children.Keys && i <= |s.children|
    requires s.id in at && ShapedAt(f, at, s) && Placed(at, FlatFrom(s, i))
    requires Shaped(f, at, FlatFrom(s, i)) && Filled(pay, at, FlatFrom(s, i))
    ensures CaptureFrom(f, pay, at[s.id], i) == s.children[i..]
    decreases s, |s.children| - i
  {
    if i < |s.children| {
      var c := s.children[i];
      assert FlatFrom(s, i) == Flat(c) + FlatFrom(s, i + 1);
      CaptureShaped(f, pay, at, c);
      CaptureShapedFrom(f, pay, at, s, i + 1);
      assert f.children[at[s.id]][i] == at[c.id];
      assert s.children[i..] == [c] + s.children[i + 1..];
    }
  }

  lemma IDsOfSplit(a: seq<NodeSnapshot>, b: seq<NodeSnapshot>)
    ensures IDsOf(a + b) == IDsOf(a) + IDsOf(b)
  {
  }

  /** A snapshot lists the nodes of the subtree in tree order. */
  lemma {:induction false} CaptureOrder(f: Forest<Node>, pay: map<Node, Payload>, n: Node)
    requires WellFormed(f) && n in f.children && pay.Keys == f.children.Keys
    ensures IDsOf(Flat(Capture(f, pay, n))) == IDList(Scan(f, {}, n))
    decreases Deepest(f) - f.depth[n], |f.children[n]| + 1
  {
    var s := Capture(f, pay, n);
    CaptureLength(f, pay, n, 0);
    CaptureOrderFrom(f, pay, n, s, 0);
    IDsOfSplit([s], FlatFrom(s, 0));
    IDListSplit([n], ScanFrom(f, {}, n, 0));
  }

  lemma {:induction false} CaptureLength(f: Forest<Node>, pay: map<Node, Payload>, n: Node, i: nat)
    requires WellFormed(f) && n in f.children && pay.Keys == f.children.Keys && i <= |f.children[n]|
    ensures |CaptureFrom(f, pay, n, i)| == |f.children[n]| - i
    decreases |f.children[n]| - i
  {
    if i < |f.children[n]| { CaptureLength(f, pay, n, i + 1); }
  }

  lemma {:induction false} CaptureOrderFrom(f: Forest<Node>, pay: map<Node, Payload>, n: Node, s: NodeSnapshot, i: nat)
    requires WellFormed(f) && n in f.children && pay.Keys == f.children.Keys
    requires i <= |f.children[n]| == |s.children| && s.children[i..] == CaptureFrom(f, pay, n, i)
    ensures IDsOf(FlatFrom(s, i)) == IDList(ScanFrom(f, {}, n, i))
    decreases Deepest(f) - f.depth[n], |f.children[n]| - i
  {
    if i < |f.children[n]| {
      Listed(f, n, i);
      var c := f.children[n][i];
      assert s.children[i] == s.children[i..][0] == Capture(f, pay, c);
      assert s.children[i + 1..] == s.children[i..][1..];
      CaptureOrder(f, pay, c);
      CaptureOrderFrom(f, pay, n, s, i + 1);
      IDsOfSplit(Flat(s.children[i]), FlatFrom(s, i + 1));
      IDListSplit(Scan(f, {}, c), ScanFrom(f, {}, n, i + 1));
    }
  }

  // ---------------------------------------------------------------- the ID counter

  ghost function MaxID(ss: seq<NodeSnapshot>): (m: nat)
    ensures forall x | x in ss :: x.id <= m
    ensures ss != [] ==> exists x | x in ss :: x.id == m
  {
    if ss == [] then 0 else
      var rest := MaxID(ss[1..]);
      if rest < ss[0].id || |ss| == 1 then ss[0].id else rest
  }

  lemma MaxIDUnique(ss: seq<NodeSnapshot>, m: nat)
    requires ss != [] && (forall x | x in ss :: x.id <= m) && exists x | x in ss :: x.id == m
    ensures MaxID(ss) == m
  {
  }

  /** The ID counter of a document to which the snapshot has been applied. */
  ghost function Counter(s: DocumentSnapshot): NodeID {
    var m := MaxID(Flat(s.root));
    if s.nextID <= m then NextID(m) else s.nextID
  }

  function ReadyStateOf(s: DocumentSnapshot): string {
    if s.readyState == "" then "loading" else s.readyState
  }

  /** The counter is above every ID unless the largest 64-bit ID is in use, when it wraps to zero. */
  lemma CounterFresh(s: DocumentSnapshot)
    ensures (Counter(s) != 0 && forall x | x in Flat(s.root) :: x.id < Counter(s))
       <==> MaxID(Flat(s.root)) + 1 < ID_SPACE
  {
    assert s.root in Flat(s.root);
  }

  /** An accepted snapshot after which the counter is zero. */
  lemma CounterWraps() returns (s: DocumentSnapshot)
    ensures Acceptable(s) && Counter(s) == 0
  {
    var top: NodeID := ID_SPACE - 1;
    s := DocumentSnapshot(NodeSnapshot(top, DOCUMENT, BLANK, []), 1, "");
    assert Flat(s.root) == [s.root];
    MaxIDUnique(Flat(s.root), top);
  }
}
