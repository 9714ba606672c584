/** The live DOM document: nodes on the heap with parent pointers and child lists, the map of
    owned nodes and the `id` index.  Every edit is tied to an operation of `Forests`. */
module Dom {
  import opened Forests
  import opened Scans

  const MAX_TREE_DEPTH: nat := 256
  const MAX_ATTRIBUTES_PER_NODE: nat := 256
  const MAX_DOM_STRING_BYTES: nat := 0x10_0000
  const ID_SPACE: nat := 0x1_0000_0000_0000_0000

  type NodeID = x: nat | x < ID_SPACE witness 0
  type NodeType = x: nat | x < 256 witness 0

  /** The ID counter is a 64-bit machine word. */
  function NextID(id: NodeID): NodeID {
    if id + 1 == ID_SPACE then 0 else id + 1
  }

  lemma NextIDWraps(id: NodeID)
    ensures NextID(id) == (id + 1) % ID_SPACE
  {
  }

  const DOCUMENT: NodeType := 0
  const ELEMENT: NodeType := 1
  const TEXT: NodeType := 2
  const FRAGMENT: NodeType := 3

  /** The browser-visible state of one node besides its place in the tree. */
  datatype Payload = Payload(
    tagName: string, text: string, attributes: map<string, string>,
    controlValue: string, controlValueDirty: bool, controlChecked: bool, controlCheckedDirty: bool)

  const BLANK := Payload("", "", map[], "", false, false, false)

  function IdAttribute(p: Payload): string {
    if "id" in p.attributes then p.attributes["id"] else ""
  }

  /** The attributes name this id. */
  predicate Bears(attributes: map<string, string>, id: string) {
    "id" in attributes && attributes["id"] == id
  }

  datatype EditError = NilArgument | ForeignNode | InvalidInsertion | TooDeep | Cycle
  datatype Edit = Done | Refused(error: EditError)

  class Node {
    const id: NodeID
    const kind: NodeType
    const document: Document
    var payload: Payload
    var parent: Node?
    var children: seq<Node>

    constructor (id: NodeID, kind: NodeType, document: Document, payload: Payload)
      ensures this.id == id && this.kind == kind && this.document == document
      ensures this.payload == payload && parent == null && children == []
    {
      this.id, this.kind, this.document := id, kind, document;
      this.payload, parent, children := payload, null, [];
    }
  }

  /** The child lists on the heap are exactly `down`. */
  ghost predicate TiedDown(down: map<Node, seq<Node>>)
    reads down.Keys`children
  {
    forall n {:trigger down[n]} | n in down :: n.children == down[n]
  }

  /** The parent pointers of `all` on the heap are exactly `up`. */
  ghost predicate TiedUp(up: map<Node, Node>, all: set<Node>)
    reads all`parent
  {
    && up.Keys <= all
    && forall n {:trigger n.parent} {:trigger up[n]} | n in all ::
         if n in up then n.parent == up[n] else n.parent == null
  }

  ghost predicate Tied(f: Forest<Node>)
    reads f.children.Keys`parent, f.children.Keys`children
  {
    TiedDown(f.children) && TiedUp(f.parent, f.children.Keys)
  }

  /** `nodes` files every node of `all`, all of them of the document `d`, under its ID. */
  ghost predicate FiledIn(d: Document, nodes: map<NodeID, Node>, all: set<Node>) {
    && (forall id | id in nodes :: id != 0 && nodes[id] in all && nodes[id].id == id)
    && (forall n {:trigger n in all} | n in all :: n.id in nodes && nodes[n.id] == n && n.document == d)
  }

  lemma FiledWithout(d: Document, nodes: map<NodeID, Node>, all: set<Node>, gone: set<Node>)
    requires FiledIn(d, nodes, all) && gone <= all
    ensures FiledIn(d, nodes - IDs(gone), all - gone)
  {
    forall n | n in all - gone
      ensures n.id !in IDs(gone)
    { assert nodes[n.id] == n; }
    forall id | id in nodes && id !in IDs(gone)
      ensures nodes[id] !in gone
    { assert nodes[id].id == id; }
  }

  ghost function IDs(s: set<Node>): set<NodeID> {
    set n | n in s :: n.id
  }

  ghost function IDList(s: seq<Node>): seq<NodeID> {
    seq(|s|, i requires 0 <= i < |s| => s[i].id)
  }

  lemma IDListSplit(a: seq<Node>, b: seq<Node>)
    ensures IDList(a + b) == IDList(a) + IDList(b)
  {
  }

  lemma IDsUnion(a: set<Node>, b: set<Node>)
    ensures IDs(a + b) == IDs(a) + IDs(b)
  {
  }

  lemma BelowNone(f: Forest<Node>, n: Node)
    requires WellFormed(f) && n in f.children
    ensures BelowChildren(f, n, 0) == {} && IDs({}) == {}
  {
  }

  /** What destroying the subtree of child number `i` adds. */
  lemma BelowStep(f: Forest<Node>, n: Node, i: nat)
    requires WellFormed(f) && n in f.children && i < |f.children[n]|
    ensures var c := f.children[n][i];
      && c in f.children && f.depth[n] < f.depth[c] <= Deepest(f) && n !in Subtree(f, c)
      && BelowChildren(f, n, i) !! Subtree(f, c)
      && BelowChildren(f, n, i + 1) <= BelowChildren(f, n, |f.children[n]|)
      && BelowChildren(f, n, i + 1) == BelowChildren(f, n, i) + Subtree(f, c)
      && IDs(BelowChildren(f, n, i + 1)) == IDs(BelowChildren(f, n, i)) + IDs(Subtree(f, c))
  {
    Listed(f, n, i);
    BelowChildrenNext(f, n, i);
    BelowChildrenGrow(f, n, i + 1);
    IDsUnion(BelowChildren(f, n, i), Subtree(f, f.children[n][i]));
  }

  lemma BelowChildrenGrow(f: Forest<Node>, n: Node, i: nat)
    requires WellFormed(f) && n in f.children && i <= |f.children[n]|
    ensures BelowChildren(f, n, i) <= BelowChildren(f, n, |f.children[n]|) == Subtree(f, n) - {n}
  {
    SubtreeSplits(f, n);
    forall m | m in BelowChildren(f, n, i)
      ensures m in BelowChildren(f, n, |f.children[n]|)
    { }
  }

  /** Once the nodes in `gone` are out of the lists of all others, the rest is tied to the
      pruned forest. */
  lemma TiedPrune(f: Forest<Node>, down: map<Node, seq<Node>>, gone: set<Node>)
    requires WellFormed(f) && down.Keys == f.children.Keys && ClosedDown(f, gone)
    requires forall n | n in down && n !in gone :: Drop(f.children[n], gone) == down[n] == n.children
    requires forall n | n in down && n !in gone :: if n in f.parent then n.parent == f.parent[n] else n.parent == null
    ensures Tied(Prune(f, gone))
  {
  }

  /** `ids` holds the id attribute of every node. */
  ghost predicate Named(ids: map<Node, string>)
    reads ids.Keys`payload
  {
    forall n {:trigger ids[n]} | n in ids :: ids[n] == IdAttribute(n.payload)
  }

  /** A lone node joins the records. */
  lemma PlantRecords(d: Document, nodes: map<NodeID, Node>, f: Forest<Node>, ids: map<Node, string>, n: Node)
    requires WellFormed(f) && FiledIn(d, nodes, f.children.Keys) && Tied(f) && Named(ids) && ids.Keys == f.children.Keys
    requires n !in f.children && n.document == d && n.id != 0 && n.id !in nodes && n.parent == null && n.children == []
    ensures WellFormed(Plant(f, n)) && FiledIn(d, nodes[n.id := n], Plant(f, n).children.Keys) && Tied(Plant(f, n))
    ensures Named(ids[n := IdAttribute(n.payload)])
    ensures ids[n := IdAttribute(n.payload)].Keys == Plant(f, n).children.Keys
  {
    PlantKeeps(f, n);
    assert forall c | c in f.parent :: LinkAgrees(f, c);
  }

  /** A node that has lost its descendants stays where it was. */
  lemma EmptiedNode(f: Forest<Node>, n: Node, limit: nat)
    requires WellFormed(f) && n in f.children
    ensures var gone := BelowChildren(f, n, |f.children[n]|);
      && ClosedDown(f, gone)
      && var g := Prune(f, gone);
      && g.children.Keys <= f.children.Keys && WellFormed(g)
      && n in g.children && g.children[n] == [] && g.depth[n] == f.depth[n]
      && (Within(f, limit) ==> Within(g, limit))
  {
    PruneBelow(f, n);
    PruneKeeps(f, BelowChildren(f, n, |f.children[n]|));
  }

  /** The records of a document with no other node than its root. */
  lemma FirstRecords(d: Document, top: Node, f: Forest<Node>, ids: map<Node, string>)
    requires top.document == d && top.id == 1 && top.kind == DOCUMENT && top.payload == BLANK
    requires top.parent == null && top.children == []
    requires f == Plant(Forest(map[], map[], map[]), top) && ids == map[top := ""]
    ensures f.parent == map[] && f.children.Keys == ids.Keys == {top}
    ensures WellFormed(f) && FiledIn(d, map[1 := top], f.children.Keys) && Tied(f) && Named(ids)
    ensures Indexed(map[], Scan(f, FragmentsIn(f), top), ids) == map[]
  {
    PlantRecords(d, map[], Forest(map[], map[], map[]), map[], top);
    ScanLone(top);
    assert FragmentsIn(f) == {};
    assert Indexed(map[], [top], ids) == map[];
  }

  /** Destroyed nodes leave the records. */
  lemma PruneRecords(d: Document, nodes: map<NodeID, Node>, f: Forest<Node>, ids: map<Node, string>, gone: set<Node>)
    requires WellFormed(f) && ClosedDown(f, gone) && FiledIn(d, nodes, f.children.Keys)
    requires Named(ids) && ids.Keys == f.children.Keys
    ensures WellFormed(Prune(f, gone)) && FiledIn(d, nodes - IDs(gone), Prune(f, gone).children.Keys)
    ensures Named(ids - gone) && (ids - gone).Keys == Prune(f, gone).children.Keys
  {
    PruneKeeps(f, gone);
    FiledWithout(d, nodes, f.children.Keys, gone);
  }

  /** A list of handles none of which is absent. */
  function Present(s: seq<Node?>): (r: seq<Node>)
    requires null !in s
    ensures |r| == |s| && forall i :: 0 <= i < |s| ==> r[i] == s[i]
  {
    if s == [] then [] else [s[0]] + Present(s[1..])
  }

  // ---------------------------------------------------------------- verdicts on edits

  /** A handle an edit may be given: absent, of another document, or a node of the forest. */
  ghost predicate HandleIn(d: Document, f: Forest<Node>, n: Node?) {
    n != null && n.document == d ==> n in f.children
  }

  /** The verdict on an insertion, in the order in which the checks are made. */
  ghost function InsertVerdictIn(d: Document, root: Node?, f: Forest<Node>, parent: Node?, child: Node?,
                                 index: int): Edit
    requires WellFormed(f) && HandleIn(d, f, parent) && HandleIn(d, f, child)
  {
    if parent == null || child == null then Refused(NilArgument)
    else if parent.document != d || child.document != d then Refused(ForeignNode)
    else if parent.kind !in {DOCUMENT, ELEMENT, FRAGMENT} || child == root
            || !(0 <= index <= |f.children[parent]|) then Refused(InvalidInsertion)
    else if !Fits(f, parent, child, MAX_TREE_DEPTH) then Refused(TooDeep)
    else if Above(f, child, parent) then Refused(Cycle)
    else Done
  }

  ghost predicate IsChildIn(d: Document, f: Forest<Node>, child: Node?, parent: Node?) {
    && parent != null && child != null && parent.document == d && child.document == d
    && child in f.parent && f.parent[child] == parent
  }

  /** Whether `c` may become a child of `parent` in a replacement. */
  ghost predicate MayAdoptIn(d: Document, root: Node?, f: Forest<Node>, parent: Node, c: Node?)
    requires WellFormed(f) && parent in f.children && HandleIn(d, f, c)
  {
    && c != null && c.document == d && c != root
    && Fits(f, parent, c, MAX_TREE_DEPTH) && !Above(f, c, parent)
  }

  /** Whether `children` may become the child list of `parent`. */
  ghost predicate ReplaceVerdictIn(d: Document, root: Node?, f: Forest<Node>, parent: Node?, children: seq<Node?>)
    requires WellFormed(f) && HandleIn(d, f, parent) && (forall c | c in children :: HandleIn(d, f, c))
  {
    && parent != null && parent.document == d && parent.kind in {ELEMENT, FRAGMENT}
    && NoDup(children)
    && forall c | c in children :: MayAdoptIn(d, root, f, parent, c)
  }

  ghost function FragmentsIn(f: Forest<Node>): set<Node> {
    set n | n in f.children && n.kind == FRAGMENT
  }

  /** The node may be removed: a connected element that is not the root. */
  ghost predicate RemovableIn(root: Node?, f: Forest<Node>, nodes: map<NodeID, Node>, id: NodeID)
    requires WellFormed(f) && (root != null ==> root in f.children)
  {
    && id in nodes && root != null && nodes[id] in Scan(f, FragmentsIn(f), root) && nodes[id] != root
    && nodes[id].kind == ELEMENT && nodes[id] in f.parent
  }

  ghost predicate TextualIn(nodes: map<NodeID, Node>, id: NodeID) {
    id in nodes && nodes[id].kind in {ELEMENT, FRAGMENT}
  }

  /** Whether setting the attribute changes anything and is within the limits. */
  predicate MaySetOn(attributes: map<string, string>, name: string, value: string) {
    && name != "" && |name| <= MAX_DOM_STRING_BYTES && |value| <= MAX_DOM_STRING_BYTES
    && (if name in attributes then attributes[name] != value else |attributes| < MAX_ATTRIBUTES_PER_NODE)
  }

  class Document {
    var root: Node?
    var readyState: string
    var byID: map<string, Node>
    var nodes: map<NodeID, Node>
    var nextID: NodeID
    /** The owned nodes and their links, as a value. */
    ghost var shape: Forest<Node>
    /** The id attribute of every owned node. */
    ghost var ids: map<Node, string>

    ghost function Owned(): set<Node>
      reads `shape
    {
      shape.children.Keys
    }

    ghost function Fragments(): set<Node>
      reads `shape
    {
      FragmentsIn(shape)
    }

    /** Owned nodes are filed under their own, non-zero ID. */
    ghost predicate Filed()
      reads `nodes, `shape
    {
      FiledIn(this, nodes, Owned())
    }

    ghost predicate Rooted()
      reads `shape, `root
    {
      if root == null then Owned() == {} else root in Owned() && root !in shape.parent && root.kind == DOCUMENT
    }

    /** Everything but the `id` index: owned nodes are filed under their own ID, form a
        forest, and the root is a parentless document node. */
    ghost predicate Structured()
      reads `nodes, `shape, `root, `ids, Owned()
    {
      && Filed() && WellFormed(shape) && Tied(shape) && Rooted()
      && ids.Keys == Owned() && Named(ids)
    }

    /** The connected nodes in tree order. */
    ghost function Order(): seq<Node>
      requires WellFormed(shape) && Rooted()
      reads `shape, `root
      ensures forall n | n in Order() :: n in Owned()
    {
      if root == null then [] else Scan(shape, Fragments(), root)
    }

    ghost predicate Valid()
      reads `nodes, `shape, `root, `byID, `ids, Owned()
    {
      Structured() && byID == Indexed(map[], Order(), ids)
    }

    /** The next ID is above every ID in use. */
    ghost predicate Fresh()
      reads `nodes, `nextID
    {
      nextID != 0 && forall id | id in nodes :: id < nextID
    }

    method ClaimID(node: Node)
      modifies `byID
      ensures byID == Claim(old(byID), node, IdAttribute(node.payload))
    {
      if "id" in node.payload.attributes && node.payload.attributes["id"] != "" {
        if node.payload.attributes["id"] !in byID {
          byID := byID[node.payload.attributes["id"] := node];
        }
      }
    }

    method Walk(node: Node, ghost f: Forest<Node>, ghost skip: set<Node>, ghost names: map<Node, string>)
      requires WellFormed(f) && TiedDown(f.children) && node in f.children
      requires names.Keys == f.children.Keys && Named(names)
      requires forall n | n in f.children :: n in skip <==> n.kind == FRAGMENT
      modifies `byID
      ensures byID == Indexed(old(byID), Scan(f, skip, node), names)
      decreases Deepest(f) - f.depth[node]
    {
      hide Reaches, Above, FiledIn, Rooted, Tied;
      if node.kind == FRAGMENT {
        return;
      }
      IndexedNode(byID, f, skip, node, names);
      ghost var whole := Indexed(byID, Scan(f, skip, node), names);
      ClaimID(node);
      for i := 0 to |node.children|
        invariant Indexed(byID, ScanFrom(f, skip, node, i), names) == whole
      {
        IndexedChild(byID, f, skip, node, i, names);
        Walk(node.children[i], f, skip, names);
      }
    }

    method RebuildIDIndex()
      requires Structured()
      modifies `byID
      ensures Valid()
    {
      byID := map[];
      if root != null {
        Walk(root, shape, Fragments(), ids);
      }
    }

    // -------------------------------------------------------------- read-only helpers

    method ChildIndex(parent: Node, child: Node) returns (index: int)
      ensures index < 0 ==> child !in parent.children
      ensures 0 <= index ==> index < |parent.children| && parent.children[index] == child
    {
      index := 0;
      while index < |parent.children|
        invariant 0 <= index <= |parent.children|
        invariant forall k :: 0 <= k < index ==> parent.children[k] != child
      {
        if parent.children[index] == child {
          return;
        }
        index := index + 1;
      }
      index := -1;
    }

    /** The height of the subtree of `node`, counted from `level`. */
    method SubtreeHeight(node: Node, level: nat, ghost f: Forest<Node>) returns (height: nat)
      requires WellFormed(f) && TiedDown(f.children) && node in f.children
      ensures HeightBound(f, node, height - level) && HeightReached(f, node, height - level)
      decreases Deepest(f) - f.depth[node]
    {
      height := level;
      assert HeightReached(f, node, 0) by { assert Above(f, node, node); }
      for i := 0 to |node.children|
        invariant level <= height && HeightReached(f, node, height - level)
        invariant KidsBound(f, node, i, height - level)
      {
        Listed(f, node, i);
        var h := SubtreeHeight(node.children[i], level + 1, f);
        HeightReachedChild(f, node, node.children[i], h - level - 1);
        KidsBoundStep(f, node, i, height - level, h - level, if h > height then h - level else height - level);
        height := if h > height then h else height;
      }
      HeightBoundNode(f, node, height - level);
    }

    method AttachmentWithinDepth(parent: Node, child: Node) returns (ok: bool)
      requires Structured() && parent in Owned() && child in Owned()
      ensures ok <==> Fits(shape, parent, child, MAX_TREE_DEPTH)
    {
      var parentDepth, current := 0, parent;
      while current.parent != null
        invariant current in Owned() && parentDepth + shape.depth[current] == shape.depth[parent]
        decreases shape.depth[current]
      {
        assert LinkAgrees(shape, current);
        parentDepth, current := parentDepth + 1, current.parent;
      }
      assert NodeAgrees(shape, current);
      var height := SubtreeHeight(child, 0, shape);
      FitsByHeight(shape, parent, child, height, MAX_TREE_DEPTH);
      ok := parentDepth + 1 + height <= MAX_TREE_DEPTH;
    }

    /** Whether `candidate` is `node` or one of its ancestors. */
    method HasAncestor(node: Node, candidate: Node) returns (found: bool)
      requires Structured() && node in Owned()
      ensures found <==> Above(shape, candidate, node)
    {
      var current: Node? := node;
      while current != null
        invariant current != null ==> current in Owned()
        invariant Above(shape, candidate, node) <==> current != null && Above(shape, candidate, current)
        decreases if current == null then 0 else shape.depth[current] + 1
      {
        if current == candidate {
          return true;
        }
        assert current.parent != null ==> LinkAgrees(shape, current);
        current := current.parent;
      }
      found := false;
    }

    ghost predicate Handle(n: Node?)
      reads `shape
    {
      HandleIn(this, shape, n)
    }

    method IsConnected(node: Node?) returns (connected: bool)
      requires Structured() && Handle(node)
      ensures connected <==> node != null && node.document == this && node in Order()
    {
      if node == null || node.document != this || root == null {
        return false;
      }
      ScanMembers(shape, Fragments(), root, node);
      var current: Node? := node;
      while current != null
        invariant current != null ==> current in Owned()
        invariant Reaches(shape, Fragments(), root, node)
             <==> current != null && Reaches(shape, Fragments(), root, current)
        decreases if current == null then 0 else shape.depth[current] + 1
      {
        if current.kind == FRAGMENT {
          return false;
        }
        if current == root {
          return true;
        }
        assert current.parent != null ==> LinkAgrees(shape, current);
        current := current.parent;
      }
      connected := false;
    }

    // -------------------------------------------------------------- edits

    ghost function InsertVerdict(parent: Node?, child: Node?, index: int): Edit
      requires WellFormed(shape) && Handle(parent) && Handle(child)
      reads `shape, `root
    {
      InsertVerdictIn(this, root, shape, parent, child, index)
    }

    method CheckInsert(parent: Node?, child: Node?, index: int) returns (verdict: Edit)
      requires Structured() && Handle(parent) && Handle(child)
      ensures verdict == InsertVerdict(parent, child, index)
      ensures verdict == Refused(NilArgument) <==> parent == null || child == null
      ensures verdict == Refused(ForeignNode) <==>
        parent != null && child != null && (parent.document != this || child.document != this)
      ensures verdict == Refused(InvalidInsertion) <==>
        && parent != null && child != null && parent.document == this && child.document == this
        && (parent.kind !in {DOCUMENT, ELEMENT, FRAGMENT} || child == root
            || index < 0 || index > |parent.children|)
      ensures verdict.Done? ==>
        && parent in Owned() && child in Owned()
        && !Above(shape, child, parent) && Fits(shape, parent, child, MAX_TREE_DEPTH)
      ensures verdict == Refused(TooDeep) ==>
        parent in Owned() && child in Owned() && !Fits(shape, parent, child, MAX_TREE_DEPTH)
      ensures verdict == Refused(Cycle) ==>
        parent in Owned() && child in Owned() && Above(shape, child, parent)
    {
      if parent == null || child == null {
        return Refused(NilArgument);
      }
      if parent.document != this || child.document != this {
        return Refused(ForeignNode);
      }
      if (parent.kind != DOCUMENT && parent.kind != ELEMENT && parent.kind != FRAGMENT)
         || child == root || index < 0 || index > |parent.children| {
        return Refused(InvalidInsertion);
      }
      var fits := AttachmentWithinDepth(parent, child);
      if !fits {
        return Refused(TooDeep);
      }
      var cyclic := HasAncestor(parent, child);
      verdict := if cyclic then Refused(Cycle) else Done;
    }

    method SetChildren(n: Node, kids: seq<Node>, ghost down: map<Node, seq<Node>>)
      requires TiedDown(down) && n in down
      modifies n`children
      ensures TiedDown(down[n := kids])
    {
      n.children := kids;
    }

    method SetParent(n: Node, p: Node?, ghost up: map<Node, Node>, ghost all: set<Node>)
      requires TiedUp(up, all) && n in all
      modifies n`parent
      ensures TiedUp(if p == null then up - {n} else up[n := p], all)
    {
      n.parent := p;
    }

    /** Completes an edit whose surgery has produced the links of the forest `g`. */
    method Settle(ghost g: Forest<Node>)
      requires Filed() && Rooted() && ids.Keys == Owned() && Named(ids)
      requires WellFormed(g) && Tied(g) && g.children.Keys == Owned()
      requires root != null ==> root !in g.parent
      modifies `shape, `byID
      ensures Valid() && shape == g
    {
      hide FiledIn, WellFormed, Tied, TiedUp, TiedDown, Named, Indexed, Scan;
      shape := g;
      RebuildIDIndex();
    }

    /** Takes `child` out of its old list and adjusts the insertion point beneath `parent`. */
    method TakeOut(parent: Node, child: Node, index: nat) returns (at: nat)
      requires Structured() && parent in Owned() && child in Owned() && index <= |parent.children|
      modifies Owned()`children
      ensures TiedDown(DropEverywhere(shape.children, {child}))
      ensures at == |Drop(shape.children[parent][..index], {child})|
    {
      DropOnce(shape, child);
      at := index;
      if child.parent != parent {
        assert NodeAgrees(shape, parent);
        DropAbsent(shape.children[parent][..index], {child});
      }
      if child.parent != null {
        var oldParent := child.parent;
        assert LinkAgrees(shape, child) && NodeAgrees(shape, oldParent);
        var oldIndex := ChildIndex(oldParent, child);
        SpliceIsDrop(shape.children[oldParent], oldIndex);
        SetChildren(oldParent, oldParent.children[..oldIndex] + oldParent.children[oldIndex + 1..], shape.children);
        if oldParent == parent {
          DropLength(shape.children[parent], index, oldIndex);
        }
        if oldParent == parent && oldIndex < at {
          at := at - 1;
        }
      }
    }

    /** The pointer surgery of a move. */
    method MoveLinks(parent: Node, child: Node, index: nat, ghost g: Forest<Node>)
      requires Structured() && parent in Owned() && child in Owned() && Moves(shape, g, parent, child, index)
      modifies Owned()`parent, Owned()`children
      ensures Tied(g)
    {
      DropPrefix(shape.children[parent], index, {child});
      ghost var down := DropEverywhere(shape.children, {child});
      var at := TakeOut(parent, child, index);
      assert down[parent] == parent.children;
      SetChildren(parent, parent.children[..at] + [child] + parent.children[at..], down);
      SetParent(child, parent, shape.parent, Owned());
    }

    /** The mutating half of an insertion, once every check has passed. */
    method Move(parent: Node, child: Node, index: nat)
      requires Structured() && parent in Owned() && child in Owned() && index <= |parent.children| && child != root
      requires Fits(shape, parent, child, MAX_TREE_DEPTH) && !Above(shape, child, parent)
      modifies `byID, `shape, Owned()`parent, Owned()`children
      ensures Valid() && Moves(old(shape), shape, parent, child, index)
      ensures Within(old(shape), MAX_TREE_DEPTH) ==> Within(shape, MAX_TREE_DEPTH)
    {
      ghost var g := MoveExists(shape, parent, child, index, MAX_TREE_DEPTH);
      MoveLinks(parent, child, index, g);
      Settle(g);
    }

    method InsertChild(parent: Node?, child: Node?, index: int) returns (r: Edit)
      requires Valid() && Handle(parent) && Handle(child)
      modifies `byID, `shape, Owned()`parent, Owned()`children
      ensures Valid()
      ensures r == old(InsertVerdict(parent, child, index))
      ensures r.Refused? ==> shape == old(shape)
      ensures r.Done? ==> Moves(old(shape), shape, parent, child, index)
      ensures Within(old(shape), MAX_TREE_DEPTH) ==> Within(shape, MAX_TREE_DEPTH)
    {
      r := CheckInsert(parent, child, index);
      if r.Done? {
        Move(parent, child, index);
      }
    }

    /** Cuts the link above an owned node, if it has one, on the heap. */
    method Unlink(child: Node, ghost f: Forest<Node>) returns (ghost g: Forest<Node>)
      requires WellFormed(f) && Tied(f) && child in f.children
      modifies f.children.Keys`parent, f.children.Keys`children
      ensures WellFormed(g) && Tied(g) && Detaches(f, g, {child})
      ensures forall n | n in f.children :: g.depth[n] <= f.depth[n]
    {
      g := DetachExists(f, child);
      DropOnce(f, child);
      if child.parent != null {
        var oldParent := child.parent;
        assert LinkAgrees(f, child) && NodeAgrees(f, oldParent);
        var index := ChildIndex(oldParent, child);
        SpliceIsDrop(f.children[oldParent], index);
        SetChildren(oldParent, oldParent.children[..index] + oldParent.children[index + 1..], f.children);
        SetParent(child, null, f.parent, f.children.Keys);
      } else {
        MinusAbsent(f.parent, child);
      }
    }

    /** The mutating half of a detachment. */
    method Sever(child: Node)
      requires Structured() && child in Owned() && child != root
      modifies `byID, `shape, Owned()`parent, Owned()`children
      ensures Valid() && Detaches(old(shape), shape, {child})
      ensures Within(old(shape), MAX_TREE_DEPTH) ==> Within(shape, MAX_TREE_DEPTH)
    {
      hide FiledIn, Tied, TiedUp, TiedDown, Named, Indexed, Scan;
      ghost var g := Unlink(child, shape);
      Settle(g);
    }

    ghost predicate IsChildOf(child: Node?, parent: Node?)
      reads `shape
    {
      IsChildIn(this, shape, child, parent)
    }

    method DetachChild(parent: Node?, child: Node?) returns (ok: bool)
      requires Valid() && Handle(parent) && Handle(child)
      modifies `byID, `shape, Owned()`parent, Owned()`children
      ensures Valid()
      ensures ok <==> old(IsChildOf(child, parent))
      ensures ok <==>
        && parent != null && child != null && parent.document == this && child.document == this
        && old(child.parent) == parent
      ensures !ok ==> shape == old(shape)
      ensures ok ==> Detaches(old(shape), shape, {child})
      ensures Within(old(shape), MAX_TREE_DEPTH) ==> Within(shape, MAX_TREE_DEPTH)
    {
      ok := parent != null && child != null && parent.document == this && child.document == this
        && child.parent == parent;
      if ok {
        Sever(child);
      }
    }

    ghost predicate MayAdopt(parent: Node, c: Node?)
      requires WellFormed(shape) && parent in Owned() && Handle(c)
      reads `shape, `root
    {
      MayAdoptIn(this, root, shape, parent, c)
    }

    method CheckChild(parent: Node, child: Node?) returns (ok: bool)
      requires Structured() && parent in Owned() && Handle(child)
      ensures ok <==> MayAdopt(parent, child)
      ensures ok <==>
        && child != null && child.document == this && child != root
        && Fits(shape, parent, child, MAX_TREE_DEPTH) && !Above(shape, child, parent)
    {
      if child == null || child.document != this || child == root {
        return false;
      }
      var fits := AttachmentWithinDepth(parent, child);
      if !fits {
        return false;
      }
      var cyclic := HasAncestor(parent, child);
      ok := !cyclic;
    }

    ghost predicate ReplaceVerdict(parent: Node?, children: seq<Node?>)
      requires WellFormed(shape) && Handle(parent) && (forall c | c in children :: HandleIn(this, shape, c))
      reads `shape, `root
    {
      ReplaceVerdictIn(this, root, shape, parent, children)
    }

    method CheckReplace(parent: Node?, children: seq<Node?>) returns (ok: bool)
      requires Structured() && Handle(parent) && (forall c | c in children :: HandleIn(this, shape, c))
      ensures ok <==> ReplaceVerdict(parent, children)
      ensures ok <==>
        && parent != null && parent.document == this && (parent.kind == ELEMENT || parent.kind == FRAGMENT)
        && (forall i, j :: 0 <= i < j < |children| ==> children[i] != children[j])
        && forall c | c in children :: MayAdopt(parent, c)
    {
      hide Tied, Named, WellFormed, Fits, Above;
      if parent == null || parent.document != this || (parent.kind != ELEMENT && parent.kind != FRAGMENT) {
        return false;
      }
      var seen: set<NodeID> := {};
      for i := 0 to |children|
        invariant forall k :: 0 <= k < i ==> MayAdopt(parent, children[k]) && children[k].id in seen
        invariant forall id | id in seen :: exists k :: 0 <= k < i && children[k].id == id
        invariant forall j, k :: 0 <= j < k < i ==> children[j] != children[k]
      {
        var child := children[i];
        assert child in children;
        var good := CheckChild(parent, child);
        if !good {
          return false;
        }
        if child.id in seen {
          var k :| 0 <= k < i && children[k].id == child.id;
          assert children[k] in children && nodes[child.id] == child == children[k];
          return false;
        }
        seen := seen + {child.id};
      }
      ok := true;
    }

    method UnlinkAll(children: seq<Node>, ghost f: Forest<Node>) returns (ghost g: Forest<Node>)
      requires WellFormed(f) && Tied(f) && forall c | c in children :: c in f.children
      modifies f.children.Keys`parent, f.children.Keys`children
      ensures WellFormed(g) && Tied(g) && Detaches(f, g, Members(children))
    {
      g := f;
      DetachesNone(f);
      assert Members(children[..0]) == {};
      for i := 0 to |children|
        invariant WellFormed(g) && Tied(g) && Detaches(f, g, Members(children[..i]))
      {
        assert children[i] in f.children;
        ghost var next := Unlink(children[i], g);
        DetachesTwice(f, g, next, Members(children[..i]), {children[i]});
        MembersNext(children, i);
        g := next;
      }
      assert children[..|children|] == children;
    }

    method ReplaceLinks(parent: Node, children: seq<Node>, ghost h: Forest<Node>)
      requires Structured() && Replaceable(shape, parent, children) && Replaces(shape, h, parent, children)
      modifies Owned()`parent, Owned()`children
      ensures Tied(h)
    {
      ghost var g := UnlinkAll(children, shape);
      ReplacesAfterDetaching(shape, g, parent, children);
      Kids(g, parent);
      ClearParents(parent.children, g.parent, Owned());
      SetChildren(parent, children, g.children);
      AdoptParents(children, parent, g.parent - Members(g.children[parent]), Owned());
    }

    method ClearParents(kids: seq<Node>, ghost up: map<Node, Node>, ghost all: set<Node>)
      requires TiedUp(up, all) && forall c | c in kids :: c in all
      modifies all`parent
      ensures TiedUp(up - Members(kids), all)
    {
      assert up - Members(kids[..0]) == up;
      for i := 0 to |kids|
        invariant TiedUp(up - Members(kids[..i]), all)
      {
        SetParent(kids[i], null, up - Members(kids[..i]), all);
        MembersNext(kids, i);
        MinusMinus(up, Members(kids[..i]), {kids[i]});
      }
      assert kids[..|kids|] == kids;
    }

    method AdoptParents(kids: seq<Node>, parent: Node, ghost up: map<Node, Node>, ghost all: set<Node>)
      requires TiedUp(up, all) && forall c | c in kids :: c in all
      modifies all`parent
      ensures TiedUp(up + Under(kids, parent), all)
    {
      assert up + Under(kids[..0], parent) == up;
      for i := 0 to |kids|
        invariant TiedUp(up + Under(kids[..i], parent), all)
      {
        SetParent(kids[i], parent, up + Under(kids[..i], parent), all);
        UnderNext(up, kids, parent, i);
      }
      assert kids[..|kids|] == kids;
    }

    lemma VerdictLists(parent: Node, children: seq<Node?>)
      requires Filed() && WellFormed(shape) && Handle(parent) && (forall c | c in children :: HandleIn(this, shape, c))
      requires ReplaceVerdict(parent, children)
      ensures null !in children && Replaceable(shape, parent, Present(children))
      ensures root !in Present(children)
      ensures forall c | c in Present(children) :: Fits(shape, parent, c, MAX_TREE_DEPTH)
    {
      assert forall c | c in children :: Handle(c) && MayAdopt(parent, c);
      var cs := Present(children);
      forall c | c in cs
        ensures MayAdopt(parent, c) && c in Owned() && c != root
      {
        var i :| 0 <= i < |cs| && cs[i] == c;
        assert children[i] in children;
      }
    }

    /** The mutating half of a replacement, once every check has passed. */
    method Supplant(parent: Node, cs: seq<Node>)
      requires Structured() && Replaceable(shape, parent, cs) && root !in cs
      requires forall c | c in cs :: Fits(shape, parent, c, MAX_TREE_DEPTH)
      modifies `byID, `shape, Owned()`parent, Owned()`children
      ensures Valid() && Replaces(old(shape), shape, parent, cs)
      ensures Within(old(shape), MAX_TREE_DEPTH) ==> Within(shape, MAX_TREE_DEPTH)
    {
      ghost var h := ReplaceExists(shape, parent, cs, MAX_TREE_DEPTH);
      ReplaceLinks(parent, cs, h);
      Settle(h);
    }

    method ReplaceChildren(parent: Node?, children: seq<Node?>) returns (ok: bool)
      requires Valid() && Handle(parent) && (forall c | c in children :: HandleIn(this, shape, c))
      modifies `byID, `shape, Owned()`parent, Owned()`children
      ensures Valid()
      ensures ok <==> old(ReplaceVerdict(parent, children))
      ensures !ok ==> shape == old(shape)
      ensures ok ==> null !in children && Replaces(old(shape), shape, parent, Present(children))
      ensures Within(old(shape), MAX_TREE_DEPTH) ==> Within(shape, MAX_TREE_DEPTH)
    {
      ok := CheckReplace(parent, children);
      if ok {
        VerdictLists(parent, children);
        Supplant(parent, Present(children));
      }
    }

    // -------------------------------------------------------------- removal

    /** Destroys the subtrees of all children of `node` and empties its list. */
    method RemoveChildren(node: Node, ghost f: Forest<Node>, ghost gone: set<Node>)
      requires WellFormed(f) && node in f.children && gone == BelowChildren(f, node, |f.children[node]|)
      requires node.children == f.children[node] && forall n | n in gone :: n.children == f.children[n]
      modifies `nodes, gone`parent, gone`children, node`children
      ensures nodes == old(nodes) - IDs(gone)
      ensures node.children == [] && forall n | n in gone :: n.parent == null && n.children == []
      decreases Deepest(f) - f.depth[node], 0
    {
      hide WellFormed, Subtree, BelowChildren, IDs, Deepest, ClosedDown;
      SubtreeSplits(f, node);
      BelowNone(f, node);
      for i := 0 to |node.children|
        invariant node.children == f.children[node]
        invariant nodes == old(nodes) - IDs(BelowChildren(f, node, i))
        invariant forall n | n in BelowChildren(f, node, i) :: n.parent == null && n.children == []
        invariant forall n | n in gone && n !in BelowChildren(f, node, i) :: n.children == f.children[n]
      {
        var child := node.children[i];
        BelowStep(f, node, i);
        RemoveSubtree(child, f);
        MinusMinus(old(nodes), IDs(BelowChildren(f, node, i)), IDs(Subtree(f, child)));
      }
      node.children := [];
    }

    /** Destroys a subtree: its nodes leave the map of owned nodes and lose all links. */
    method RemoveSubtree(node: Node, ghost f: Forest<Node>)
      requires WellFormed(f) && node in f.children
      requires forall n | n in Subtree(f, node) :: n.children == f.children[n]
      modifies `nodes, Subtree(f, node)`parent, Subtree(f, node)`children
      ensures nodes == old(nodes) - IDs(Subtree(f, node))
      ensures forall n | n in Subtree(f, node) :: n.parent == null && n.children == []
      decreases Deepest(f) - f.depth[node], 1
    {
      hide WellFormed, Subtree, BelowChildren, Deepest, ClosedDown;
      ghost var below := BelowChildren(f, node, |f.children[node]|);
      SubtreeSplits(f, node);
      assert node in Subtree(f, node);
      RemoveChildren(node, f, below);
      IDsUnion(below, {node});
      assert IDs({node}) == {node.id} && Subtree(f, node) == below + {node};
      MinusMinus(old(nodes), IDs(below), {node.id});
      nodes := nodes - {node.id};
      node.parent := null;
    }

    method CollectNodeIDs(node: Node, ids: seq<NodeID>, ghost f: Forest<Node>) returns (r: seq<NodeID>)
      requires WellFormed(f) && TiedDown(f.children) && node in f.children
      ensures r == ids + IDList(Scan(f, {}, node))
      decreases Deepest(f) - f.depth[node]
    {
      r := ids + [node.id];
      for i := 0 to |node.children|
        invariant r + IDList(ScanFrom(f, {}, node, i)) == ids + IDList(Scan(f, {}, node))
      {
        Listed(f, node, i);
        IDListSplit(Scan(f, {}, node.children[i]), ScanFrom(f, {}, node, i + 1));
        r := CollectNodeIDs(node.children[i], r, f);
      }
    }

    /** The pointer surgery of a removal. */
    method RemoveLinks(node: Node, ghost f: Forest<Node>)
      requires WellFormed(f) && Tied(f) && node in f.parent && node in f.children
      modifies `nodes, f.children.Keys`parent, f.children.Keys`children
      ensures nodes == old(nodes) - IDs(Subtree(f, node))
      ensures Tied(Prune(f, Subtree(f, node)))
    {
      hide WellFormed, Subtree, FiledIn, Prune, Drop, IDs;
      ghost var gone := Subtree(f, node);
      var parent := node.parent;
      PruneSubtree(f, node);
      AtParent(f, node);
      var index := ChildIndex(parent, node);
      SpliceIsDrop(f.children[parent], index);
      SetChildren(parent, parent.children[..index] + parent.children[index + 1..], f.children);
      RemoveSubtree(node, f);
      TiedPrune(f, f.children[parent := Drop(f.children[parent], {node})], gone);
    }

    lemma RootOnTop(n: Node)
      requires WellFormed(shape) && root != null && root in Owned() && root !in shape.parent && Above(shape, n, root)
      ensures root == n
    {
    }

    /** Drops destroyed nodes from the records of the document. */
    ghost method Forget(gone: set<Node>, before: map<NodeID, Node>)
      requires WellFormed(shape) && ClosedDown(shape, gone) && Tied(Prune(shape, gone))
      requires ids.Keys == Owned() && Named(ids) && Rooted() && root != null && root !in gone
      requires FiledIn(this, before, Owned()) && nodes == before - IDs(gone)
      modifies `shape, `ids
      ensures Structured() && shape == Prune(old(shape), gone) && ids == old(ids) - gone
    {
      hide WellFormed, Tied, Named, FiledIn, ClosedDown, IDs;
      PruneRecords(this, before, shape, ids, gone);
      shape := Prune(shape, gone);
      ids := ids - gone;
    }

    /** Cuts a subtree out of the heap and the records; the index is left for later. */
    method Carve(node: Node, ghost gone: set<Node>)
      requires Structured() && node in Owned() && node in shape.parent && gone == Subtree(shape, node)
      modifies `shape, `ids, `nodes, Owned()`parent, Owned()`children
      ensures Structured() && shape == Prune(old(shape), gone)
      ensures ids == old(ids) - gone && nodes == old(nodes) - IDs(gone)
    {
      hide FiledIn, WellFormed, Tied, TiedUp, TiedDown, Named, Indexed, Scan, Within;
      ghost var before := nodes;
      if root in gone { RootOnTop(node); }
      SubtreeClosed(shape, node);
      RemoveLinks(node, shape);
      Forget(gone, before);
    }

    /** The mutating half of a removal. */
    method Uproot(node: Node, ghost gone: set<Node>)
      requires Structured() && node in Owned() && node in shape.parent && gone == Subtree(shape, node)
      modifies `byID, `shape, `ids, `nodes, Owned()`parent, Owned()`children
      ensures Valid() && shape == Prune(old(shape), gone)
      ensures ids == old(ids) - gone && nodes == old(nodes) - IDs(gone)
    {
      hide FiledIn, WellFormed, Tied, TiedUp, TiedDown, Named, Indexed, Scan, Within;
      Carve(node, gone);
      RebuildIDIndex();
    }

    ghost predicate Removable(id: NodeID)
      requires WellFormed(shape) && Rooted()
      reads `nodes, `shape, `root
    {
      RemovableIn(root, shape, nodes, id)
    }

    /** Removes a connected element with its whole subtree and reports the destroyed IDs in
        tree order. */
    method Remove(id: NodeID) returns (removed: seq<NodeID>, ok: bool)
      requires Valid()
      modifies `byID, `shape, `ids, `nodes, Owned()`parent, Owned()`children
      ensures Valid()
      ensures ok <==> old(Removable(id))
      ensures ok <==>
        && id in old(nodes) && root != null && old(nodes)[id] in old(Order()) && old(nodes)[id] != root
        && old(nodes)[id].kind == ELEMENT && old(nodes[id].parent) != null
      ensures !ok ==> removed == [] && shape == old(shape) && ids == old(ids) && nodes == old(nodes)
      ensures ok ==>
        var top, f := old(nodes)[id], old(shape);
        && shape == Prune(f, Subtree(f, top))
        && nodes == old(nodes) - IDs(Subtree(f, top))
        && removed == IDList(Scan(f, {}, top))
    {
      hide Subtree, TiedDown, Named, Indexed, Prune, IDs;
      removed, ok := [], false;
      if id !in nodes {
        return;
      }
      var node := nodes[id];
      var connected := IsConnected(node);
      if node == root || node.kind != ELEMENT || !connected || node.parent == null {
        return;
      }
      removed := CollectNodeIDs(node, [], shape);
      Uproot(node, Subtree(shape, node));
      ok := true;
    }

    // -------------------------------------------------------------- creation

    /** A new node of the document, on its own; the ID counter wraps at 64 bits. */
    method NewNode(kind: NodeType, payload: Payload) returns (node: Node)
      requires Structured() && Fresh() && root != null
      modifies `nodes, `nextID, `shape, `ids
      ensures fresh(node) && node.id == old(nextID) && node.kind == kind && node.payload == payload
      ensures Structured() && shape == Plant(old(shape), node) && ids == old(ids)[node := IdAttribute(payload)]
      ensures nodes == old(nodes)[old(nextID) := node] && nextID == NextID(old(nextID))
      ensures old(nextID) + 1 < ID_SPACE ==> Fresh()
    {
      hide FiledIn, WellFormed, Tied, TiedUp, TiedDown, Named, Plant;
      node := new Node(nextID, kind, this, payload);
      nextID := NextID(nextID);
      Enlist(node);
    }

    /** Files a node that stands on its own. */
    method Enlist(node: Node)
      requires Structured() && root != null && node !in Owned() && node.document == this
      requires node.id != 0 && node.id !in nodes && node.parent == null && node.children == []
      modifies `nodes, `shape, `ids
      ensures Structured() && shape == Plant(old(shape), node)
      ensures ids == old(ids)[node := IdAttribute(node.payload)] && nodes == old(nodes)[node.id := node]
    {
      hide FiledIn, WellFormed, Named, TiedUp, TiedDown;
      PlantRecords(this, nodes, shape, ids, node);
      nodes := nodes[node.id := node];
      shape := Plant(shape, node);
      ids := ids[node := IdAttribute(node.payload)];
    }

    /** Creating a node leaves the index alone, because the node is not connected. */
    method Create(kind: NodeType, payload: Payload) returns (node: Node)
      requires Valid() && Fresh() && root != null
      modifies `nodes, `nextID, `shape, `ids
      ensures fresh(node) && node.id == old(nextID) && node.kind == kind && node.payload == payload
      ensures Valid() && shape == Plant(old(shape), node) && Order() == old(Order())
      ensures nodes == old(nodes)[old(nextID) := node] && nextID == NextID(old(nextID))
      ensures old(nextID) + 1 < ID_SPACE ==> Fresh()
      ensures old(Within(shape, MAX_TREE_DEPTH)) ==> Within(shape, MAX_TREE_DEPTH)
    {
      hide FiledIn, WellFormed, Tied, TiedUp, TiedDown, Named, Indexed, Scan;
      ghost var f, skip, names, order := shape, Fragments(), ids, Order();
      node := NewNode(kind, payload);
      ScanPlant(f, skip, Fragments(), root, node);
      IndexedAgree(map[], order, names, ids);
    }

    method CreateElement(tagName: string, attributes: map<string, string>) returns (node: Node)
      requires Valid() && Fresh() && root != null
      modifies `nodes, `nextID, `shape, `ids
      ensures fresh(node) && node.id == old(nextID) && node.kind == ELEMENT
      ensures node.payload == BLANK.(tagName := tagName, attributes := attributes)
      ensures Valid() && shape == Plant(old(shape), node) && Order() == old(Order())
      ensures nodes == old(nodes)[old(nextID) := node] && nextID == NextID(old(nextID))
      ensures old(nextID) + 1 < ID_SPACE ==> Fresh()
      ensures old(Within(shape, MAX_TREE_DEPTH)) ==> Within(shape, MAX_TREE_DEPTH)
    {
      node := Create(ELEMENT, BLANK.(tagName := tagName, attributes := attributes));
    }

    method CreateText(text: string) returns (node: Node)
      requires Valid() && Fresh() && root != null
      modifies `nodes, `nextID, `shape, `ids
      ensures fresh(node) && node.id == old(nextID) && node.kind == TEXT && node.payload == BLANK.(text := text)
      ensures Valid() && shape == Plant(old(shape), node) && Order() == old(Order())
      ensures nodes == old(nodes)[old(nextID) := node] && nextID == NextID(old(nextID))
      ensures old(nextID) + 1 < ID_SPACE ==> Fresh()
      ensures old(Within(shape, MAX_TREE_DEPTH)) ==> Within(shape, MAX_TREE_DEPTH)
    {
      node := Create(TEXT, BLANK.(text := text));
    }

    method CreateDocumentFragment() returns (node: Node)
      requires Valid() && Fresh() && root != null
      modifies `nodes, `nextID, `shape, `ids
      ensures fresh(node) && node.id == old(nextID) && node.kind == FRAGMENT && node.payload == BLANK
      ensures Valid() && shape == Plant(old(shape), node) && Order() == old(Order())
      ensures nodes == old(nodes)[old(nextID) := node] && nextID == NextID(old(nextID))
      ensures old(nextID) + 1 < ID_SPACE ==> Fresh()
      ensures old(Within(shape, MAX_TREE_DEPTH)) ==> Within(shape, MAX_TREE_DEPTH)
    {
      node := Create(FRAGMENT, BLANK);
    }

    /** An empty document: one root node with ID 1. */
    constructor ()
      ensures Valid() && Fresh() && root != null && fresh(root) && root.id == 1 && root.kind == DOCUMENT
      ensures root.payload == BLANK
      ensures Owned() == {root} && shape.parent == map[] && nodes.Keys == {1} && nodes[1] == root && nextID == 2
      ensures readyState == "loading"
    {
      hide FiledIn, WellFormed, Tied, Named, Indexed, Scan, Plant;
      readyState, byID, nodes, nextID := "loading", map[], map[], 2;
      root := null;
      new;
      var top := new Node(1, DOCUMENT, this, BLANK);
      PutRoot(top);
    }

    /** Gives an empty document its root. */
    method PutRoot(top: Node)
      requires byID == map[] && top.document == this && top.id == 1 && top.kind == DOCUMENT && top.payload == BLANK
      requires top.parent == null && top.children == []
      modifies `root, `nodes, `shape, `ids
      ensures Valid() && root == top && Owned() == {top} && shape.parent == map[] && nodes == map[1 := top]
    {
      hide FiledIn, WellFormed, Tied, Named, Indexed, Scan, Plant;
      root := top;
      nodes := map[1 := top];
      shape := Plant(Forest(map[], map[], map[]), top);
      ids := map[top := ""];
      FirstRecords(this, top, shape, ids);
    }

    /** A document to which a snapshot is about to be applied: no root, no nodes. */
    constructor Blank()
      ensures Valid() && root == null && Owned() == {}
    {
      root, readyState, byID, nodes, nextID := null, "", map[], map[], 0;
      shape := Forest(map[], map[], map[]);
      ids := map[];
    }

    // -------------------------------------------------------------- text content

    method EmptyLinks(node: Node, ghost f: Forest<Node>, ghost gone: set<Node>)
      requires WellFormed(f) && Tied(f) && node in f.children
      requires gone == BelowChildren(f, node, |f.children[node]|)
      modifies `nodes, f.children.Keys`parent, f.children.Keys`children
      ensures nodes == old(nodes) - IDs(gone)
      ensures Tied(Prune(f, gone))
    {
      hide FiledIn, WellFormed, Subtree, IDs, Prune;
      PruneBelow(f, node);
      RemoveChildren(node, f, gone);
      TiedPrune(f, f.children[node := []], gone);
    }

    /** Empties `node` on the heap and in the records; the index is left for later. */
    method Empty(node: Node, ghost gone: set<Node>)
      requires Structured() && node in Owned() && root != null
      requires gone == BelowChildren(shape, node, |shape.children[node]|)
      modifies `shape, `ids, `nodes, Owned()`parent, Owned()`children
      ensures Structured() && shape == Prune(old(shape), gone) && nodes == old(nodes) - IDs(gone)
    {
      ghost var before := nodes;
      SubtreeSplits(shape, node);
      if root in gone { RootOnTop(node); }
      EmptyLinks(node, shape, gone);
      Forget(gone, before);
    }

    /** Whether the text of the node `id` may be replaced. */
    ghost predicate Textual(id: NodeID)
      reads `nodes
    {
      TextualIn(nodes, id)
    }

    /** Hangs a lone node beneath a childless one. */
    method HangLeaf(node: Node, leaf: Node, ghost f: Forest<Node>)
      requires Structured() && root != null && WellFormed(f) && leaf !in f.children && shape == Plant(f, leaf)
      requires node in f.children && f.children[node] == [] && leaf != root
      modifies `byID, `shape, Owned()`parent, Owned()`children
      ensures Valid()
      ensures shape.parent == f.parent[leaf := node] && shape.children == f.children[leaf := []][node := [leaf]]
      ensures Within(f, MAX_TREE_DEPTH) ==> (Within(shape, MAX_TREE_DEPTH) <==> f.depth[node] < MAX_TREE_DEPTH)
    {
      hide FiledIn, Tied, TiedUp, TiedDown, Named, Indexed, Scan, Within;
      ghost var h := LeafExists(f, node, leaf, MAX_TREE_DEPTH);
      MoveLinks(node, leaf, 0, h);
      Settle(h);
    }

    /** Gives the emptied `node` a new text node as its only child. */
    method HangText(node: Node, text: string, ghost f: Forest<Node>) returns (leaf: Node)
      requires Structured() && Fresh() && root != null && shape == f && node in f.children && f.children[node] == []
      modifies `byID, `shape, `ids, `nodes, `nextID, Owned()`parent, Owned()`children
      ensures Valid() && leaf.kind == TEXT && leaf.payload == BLANK.(text := text)
      ensures shape.parent == f.parent[leaf := node] && shape.children == f.children[leaf := []][node := [leaf]]
      ensures fresh(leaf) && nodes == old(nodes)[old(nextID) := leaf] && nextID == NextID(old(nextID))
      ensures Within(f, MAX_TREE_DEPTH) ==> (Within(shape, MAX_TREE_DEPTH) <==> f.depth[node] < MAX_TREE_DEPTH)
    {
      hide FiledIn, WellFormed, Tied, TiedUp, TiedDown, Named, Indexed, Scan, Within;
      leaf := NewNode(TEXT, BLANK.(text := text));
      HangLeaf(node, leaf, f);
    }

    /** The mutating half of a text replacement. */
    method Retext(node: Node, value: string) returns (leaf: Node)
      requires Structured() && Fresh() && root != null && node in Owned()
      modifies `byID, `shape, `ids, `nodes, `nextID, Owned()`parent, Owned()`children
      ensures Valid() && leaf.kind == TEXT && leaf.payload == BLANK.(text := value)
      ensures fresh(leaf) && Retexts(old(shape), shape, node, leaf)
      ensures nodes == (old(nodes) - IDs(BelowChildren(old(shape), node, |old(shape).children[node]|)))
                       [old(nextID) := leaf]
      ensures nextID == NextID(old(nextID))
      ensures Within(old(shape), MAX_TREE_DEPTH) ==>
        (Within(shape, MAX_TREE_DEPTH) <==> old(shape).depth[node] < MAX_TREE_DEPTH)
    {
      hide FiledIn, WellFormed, Tied, Named, Indexed, Scan, Within, Prune, BelowChildren, IDs;
      EmptiedNode(shape, node, MAX_TREE_DEPTH);
      Empty(node, BelowChildren(shape, node, |shape.children[node]|));
      leaf := HangText(node, value, shape);
    }

    method SetTextContent(id: NodeID, value: string) returns (ok: bool)
      requires Valid() && Fresh() && root != null
      modifies `byID, `shape, `ids, `nodes, `nextID, Owned()`parent, Owned()`children
      ensures Valid()
      ensures ok <==> old(Textual(id))
      ensures ok <==> id in old(nodes) && (old(nodes)[id].kind == ELEMENT || old(nodes)[id].kind == FRAGMENT)
      ensures !ok ==> shape == old(shape) && nodes == old(nodes) && nextID == old(nextID)
      ensures ok ==>
        var node, f := old(nodes)[id], old(shape);
        && old(nextID) in nodes
        && var leaf := nodes[old(nextID)];
        && fresh(leaf) && leaf.kind == TEXT && leaf.payload == BLANK.(text := value) && Retexts(f, shape, node, leaf)
        && nodes == (old(nodes) - IDs(BelowChildren(f, node, |f.children[node]|)))[old(nextID) := leaf]
        && nextID == NextID(old(nextID)) && (old(nextID) + 1 < ID_SPACE ==> Fresh())
        && (Within(f, MAX_TREE_DEPTH) ==> (Within(shape, MAX_TREE_DEPTH) <==> f.depth[node] < MAX_TREE_DEPTH))
    {
      hide WellFormed, Tied, Named, Indexed, Scan, Within, BelowChildren, IDs;
      if id !in nodes || (nodes[id].kind != ELEMENT && nodes[id].kind != FRAGMENT) {
        return false;
      }
      var leaf := Retext(nodes[id], value);
      ok := true;
    }

    // -------------------------------------------------------------- attributes and lookup

    method Assign(node: Node, payload: Payload)
      requires Structured() && node in Owned()
      modifies `ids, node`payload
      ensures Structured() && node.payload == payload && ids == old(ids)[node := IdAttribute(payload)]
    {
      hide FiledIn, WellFormed, Tied, TiedUp, TiedDown, Scan;
      node.payload := payload;
      ids := ids[node := IdAttribute(payload)];
    }

    /** Replaces the attributes of an owned node; the index is rebuilt only when `reindex`. */
    method PutAttributes(node: Node, attributes: map<string, string>, reindex: bool)
      requires Valid() && node in Owned()
      requires reindex || IdAttribute(node.payload.(attributes := attributes)) == IdAttribute(node.payload)
      modifies `byID, `ids, node`payload
      ensures Valid() && node.payload == old(node.payload).(attributes := attributes)
    {
      hide FiledIn, WellFormed, Tied, TiedUp, TiedDown, Scan;
      ghost var names := ids;
      Assign(node, node.payload.(attributes := attributes));
      if reindex {
        RebuildIDIndex();
      } else {
        assert ids == names;
      }
    }

    ghost predicate MaySet(id: NodeID, name: string, value: string)
      reads `nodes, set n | n in nodes.Values
    {
      id in nodes && nodes[id].kind == ELEMENT && MaySetOn(nodes[id].payload.attributes, name, value)
    }

    method SetAttribute(id: NodeID, name: string, value: string) returns (ok: bool)
      requires Valid()
      modifies `byID, `ids, Owned()`payload
      ensures Valid()
      ensures ok <==> old(MaySet(id, name, value))
      ensures ok <==>
        && name != "" && |name| <= MAX_DOM_STRING_BYTES && |value| <= MAX_DOM_STRING_BYTES
        && id in nodes && nodes[id].kind == ELEMENT
        && var attributes := old(nodes[id].payload.attributes);
           if name in attributes then attributes[name] != value else |attributes| < MAX_ATTRIBUTES_PER_NODE
      ensures !ok ==> byID == old(byID) && forall n | n in Owned() :: n.payload == old(n.payload)
      ensures ok ==> nodes[id].payload
                     == old(nodes[id].payload.(attributes := nodes[id].payload.attributes[name := value]))
      ensures forall n | n in Owned() && n.id != id :: n.payload == old(n.payload)
    {
      hide WellFormed, Tied, TiedUp, TiedDown, Scan, Indexed;
      if name == "" || |name| > MAX_DOM_STRING_BYTES || |value| > MAX_DOM_STRING_BYTES {
        return false;
      }
      if id !in nodes || nodes[id].kind != ELEMENT {
        return false;
      }
      var node := nodes[id];
      var attributes := node.payload.attributes;
      if name in attributes && attributes[name] == value {
        return false;
      }
      if name !in attributes && |attributes| >= MAX_ATTRIBUTES_PER_NODE {
        return false;
      }
      PutAttributes(node, attributes[name := value], name == "id");
      ok := true;
    }

    method RemoveAttribute(id: NodeID, name: string) returns (ok: bool)
      requires Valid()
      modifies `byID, `ids, Owned()`payload
      ensures Valid()
      ensures ok <==>
        && name != "" && id in nodes && nodes[id].kind == ELEMENT
        && old(name in nodes[id].payload.attributes)
      ensures !ok ==> byID == old(byID) && forall n | n in Owned() :: n.payload == old(n.payload)
      ensures ok ==> nodes[id].payload
                     == old(nodes[id].payload.(attributes := nodes[id].payload.attributes - {name}))
      ensures forall n | n in Owned() && n.id != id :: n.payload == old(n.payload)
    {
      hide WellFormed, Tied, TiedUp, TiedDown, Scan, Indexed;
      if name == "" || id !in nodes || nodes[id].kind != ELEMENT || name !in nodes[id].payload.attributes {
        return false;
      }
      var node := nodes[id];
      PutAttributes(node, node.payload.attributes - {name}, name == "id");
      ok := true;
    }

    ghost predicate FirstWithID(node: Node, id: string, i: int)
      requires Structured()
      reads `nodes, `shape, `root, `ids, Owned()
    {
      && 0 <= i < |Order()| && Order()[i] == node
      && forall j :: 0 <= j < i ==> !Bears(Order()[j].payload.attributes, id)
    }

    /** Looking up an id yields exactly the first connected node, in tree order, that carries
        it; a node inside a fragment subtree is never found. */
    method GetElementByID(id: string) returns (node: Node?)
      requires Valid()
      ensures node == null <==> id == "" || forall n | n in Order() :: !Bears(n.payload.attributes, id)
      ensures node != null ==> Bears(node.payload.attributes, id) && exists i :: FirstWithID(node, id, i)
    {
      hide Indexed, Reaches, Scan;
      IndexIsFirst(map[], Order(), ids, id);
      assert id != "" ==> forall n | n in Order() :: ids[n] == id <==> Bears(n.payload.attributes, id);
      node := if id in byID then byID[id] else null;
      if node != null {
        ghost var i: nat :| FirstAt(Order(), ids, id, i) && node == Order()[i];
        forall j | 0 <= j < i
          ensures !Bears(Order()[j].payload.attributes, id)
        { assert ids[Order()[j]] != id; }
        assert FirstWithID(node, id, i);
      }
    }

    /** What the walk order is: the connected nodes, each once. */
    lemma OrderIsConnected(n: Node)
      requires Structured() && n in Owned()
      ensures NoDup(Order())
      ensures n in Order() <==> root != null && Reaches(shape, Fragments(), root, n)
      ensures n in Order() <==>
        && root != null && Above(shape, root, n)
        && forall a | a in Owned() && Above(shape, root, a) && Above(shape, a, n) :: a.kind != FRAGMENT
    {
      if root != null {
        ScanNoDup(shape, Fragments(), root);
        ScanMembers(shape, Fragments(), root, n);
        ReachesBetween(shape, Fragments(), root, n);
      }
    }
  }
}
