/** Taking a snapshot of a live document, and applying one in place. */
module Snapshots {
  import opened Forests
  import opened Scans
  import opened Dom
  import opened SnapshotTrees

  // ---------------------------------------------------------------- taking a snapshot

  ghost function Payloads(d: Document): map<Node, Payload>
    reads d`shape, d.Owned()`payload
  {
    map n | n in d.shape.children :: n.payload
  }

  /** The snapshot of the document as it stands. */
  ghost function Pictured(d: Document): DocumentSnapshot
    requires WellFormed(d.shape) && d.Rooted()
    reads d`shape, d`root, d`nextID, d`readyState, d.Owned()`payload
  {
    if d.root == null then DocumentSnapshot(NodeSnapshot(0, DOCUMENT, BLANK, []), 0, "")
    else DocumentSnapshot(Capture(d.shape, Payloads(d), d.root), d.nextID,
                          if d.readyState == "" then "loading" else d.readyState)
  }

  method SnapshotNode(node: Node, ghost f: Forest<Node>, ghost pay: map<Node, Payload>) returns (state: NodeSnapshot)
    requires WellFormed(f) && TiedDown(f.children) && node in f.children
    requires pay.Keys == f.children.Keys && forall n {:trigger pay[n]} | n in pay :: n.payload == pay[n]
    ensures state == Capture(f, pay, node)
    decreases Deepest(f) - f.depth[node]
  {
    var children := [];
    for i := 0 to |node.children|
      invariant children + CaptureFrom(f, pay, node, i) == CaptureFrom(f, pay, node, 0)
    {
      Listed(f, node, i);
      var child := SnapshotNode(node.children[i], f, pay);
      children := children + [child];
    }
    state := NodeSnapshot(node.id, node.kind, node.payload, children);
  }

  method Snapshot(d: Document) returns (s: DocumentSnapshot)
    requires d.Valid()
    ensures s == Pictured(d)
  {
    if d.root == null {
      return DocumentSnapshot(NodeSnapshot(0, DOCUMENT, BLANK, []), 0, "");
    }
    var readyState := if d.readyState == "" then "loading" else d.readyState;
    var top := SnapshotNode(d.root, d.shape, Payloads(d));
    s := DocumentSnapshot(top, d.nextID, readyState);
  }

  // ---------------------------------------------------------------- checking a snapshot

  /** Files every node of a snapshot, unless one is over a limit or an ID occurs twice. */
  method FlattenSnapshot(s: NodeSnapshot, flat: map<NodeID, NodeSnapshot>, depth: nat, parentTag: string)
    returns (ok: bool, filed: map<NodeID, NodeSnapshot>)
    ensures ok <==> Sound(s, depth, parentTag) && Fileable(flat, Flat(s))
    ensures ok ==> filed == File(flat, Flat(s))
    decreases s
  {
    ok, filed := false, flat;
    if depth > MAX_TREE_DEPTH || s.id == 0 || s.kind > FRAGMENT || !ValidPayload(s.payload, parentTag) {
      return;
    }
    assert Flat(s)[0] == s && Flat(s)[1..] == FlatFrom(s, 0);
    if s.id in flat || |flat| >= MAX_NODES_PER_DOCUMENT {
      return;
    }
    filed := flat[s.id := s];
    for i := 0 to |s.children|
      invariant File(filed, FlatFrom(s, i)) == File(flat, Flat(s))
      invariant Fileable(filed, FlatFrom(s, i)) <==> Fileable(flat, Flat(s))
      invariant SoundFrom(s, depth, i) <==> SoundFrom(s, depth, 0)
    {
      FileSplit(filed, Flat(s.children[i]), FlatFrom(s, i + 1));
      ok, filed := FlattenSnapshot(s.children[i], filed, depth + 1, s.payload.tagName);
      if !ok {
        return;
      }
    }
    ok := true;
  }

  // ---------------------------------------------------------------- making the nodes

  /** The node `n` stands on its own and is filled after `x`. */
  ghost predicate Standing(d: Document, n: Node, x: NodeSnapshot)
    reads n
  {
    && n.id == x.id && n.kind == x.kind && n.document == d
    && n.payload == x.payload && n.parent == null && n.children == []
  }

  /** Which live nodes are kept: those with the same ID and type. */
  ghost predicate KeptFrom(previous: map<NodeID, Node>, id: NodeID, x: NodeSnapshot) {
    id in previous && previous[id].kind == x.kind
  }

  /** `node` is the node kept for `x`, if there is one, and else one of the new ones. */
  ghost predicate Chosen(node: Node, previous: map<NodeID, Node>, id: NodeID, x: NodeSnapshot, made: set<Node>) {
    if KeptFrom(previous, id, x) then node == previous[id] else node in made
  }

  ghost predicate AllStanding(d: Document, nodes: map<NodeID, Node>, flat: map<NodeID, NodeSnapshot>)
    reads nodes.Values
  {
    nodes.Keys <= flat.Keys && forall id | id in nodes :: Standing(d, nodes[id], flat[id])
  }

  ghost predicate AllChosen(nodes: map<NodeID, Node>, previous: map<NodeID, Node>, flat: map<NodeID, NodeSnapshot>,
                            made: set<Node>) {
    nodes.Keys <= flat.Keys && forall id | id in nodes :: Chosen(nodes[id], previous, id, flat[id], made)
  }

  ghost predicate Greatest(maximum: NodeID, ids: set<NodeID>) {
    && (forall id | id in ids :: id <= maximum)
    && (maximum != 0 ==> maximum in ids)
  }

  lemma GreatestNext(maximum: NodeID, ids: set<NodeID>, id: NodeID)
    requires Greatest(maximum, ids)
    ensures Greatest(if id > maximum then id else maximum, ids + {id})
  {
  }

  lemma PutStanding(d: Document, nodes: map<NodeID, Node>, flat: map<NodeID, NodeSnapshot>, id: NodeID, node: Node)
    requires AllStanding(d, nodes, flat) && id in flat && Standing(d, node, flat[id])
    ensures AllStanding(d, nodes[id := node], flat)
  {
  }

  lemma PutChosen(nodes: map<NodeID, Node>, previous: map<NodeID, Node>, flat: map<NodeID, NodeSnapshot>,
                  made: set<Node>, more: set<Node>, id: NodeID, node: Node)
    requires AllChosen(nodes, previous, flat, made) && made <= more
    requires id in flat && Chosen(node, previous, id, flat[id], more)
    ensures AllChosen(nodes[id := node], previous, flat, more)
  {
  }

  /** The nodes made so far. */
  ghost predicate Made(d: Document, nodes: map<NodeID, Node>, flat: map<NodeID, NodeSnapshot>,
                       previous: map<NodeID, Node>, made: set<Node>)
    reads nodes.Values
  {
    AllStanding(d, nodes, flat) && AllChosen(nodes, previous, flat, made)
  }

  method Materialize(d: Document, flat: map<NodeID, NodeSnapshot>, previous: map<NodeID, Node>, ghost all: set<Node>)
    returns (nodes: map<NodeID, Node>, maximum: NodeID, ghost made: set<Node>)
    requires FiledIn(d, previous, all) && OwnIDs(flat)
    modifies all`payload, all`parent, all`children
    ensures fresh(made) && nodes.Keys == flat.Keys && Made(d, nodes, flat, previous, made)
    ensures Greatest(maximum, flat.Keys)
  {
    nodes, maximum, made := map[], 0, {};
    var rest := flat.Keys;
    while rest != {}
      invariant rest <= flat.Keys && nodes.Keys == flat.Keys - rest
      invariant fresh(made) && Made(d, nodes, flat, previous, made)
      invariant Greatest(maximum, nodes.Keys)
      decreases rest
    {
      var id :| id in rest;
      ghost var more;
      GreatestNext(maximum, nodes.Keys, id);
      maximum := if id > maximum then id else maximum;
      nodes, more := Stand(d, id, flat, previous, nodes, all, made);
      rest := rest - {id};
      made := made + more;
    }
  }

  ghost predicate OwnIDs(flat: map<NodeID, NodeSnapshot>) {
    forall id | id in flat :: flat[id].id == id
  }

  /** Finds or makes the node for one snapshot node, fills it and files it. */
  method Stand(d: Document, id: NodeID, flat: map<NodeID, NodeSnapshot>, previous: map<NodeID, Node>,
               nodes: map<NodeID, Node>, ghost all: set<Node>, ghost made: set<Node>)
    returns (filed: map<NodeID, Node>, ghost more: set<Node>)
    requires FiledIn(d, previous, all) && OwnIDs(flat) && id in flat && id !in nodes
    requires Made(d, nodes, flat, previous, made)
    modifies all`payload, all`parent, all`children
    ensures fresh(more) && filed.Keys == nodes.Keys + {id}
    ensures Made(d, filed, flat, previous, made + more)
  {
    assert id in previous ==> previous[id] !in nodes.Values by {
      assert forall k | k in nodes :: Standing(d, nodes[k], flat[k]);
    }
    var node: Node;
    var state := flat[id];
    if id in previous && previous[id].kind == state.kind {
      node, more := previous[id], {};
    } else {
      node := new Node(id, state.kind, d, BLANK);
      more := {node};
    }
    assert node !in nodes.Values;
    label L:
    Fill(node, state);
    assert unchanged@L(nodes.Values);
    assert AllStanding(d, nodes, flat);
    PutStanding(d, nodes, flat, id, node);
    PutChosen(nodes, previous, flat, made, made + more, id, node);
    filed := nodes[id := node];
  }

  method Fill(node: Node, state: NodeSnapshot)
    modifies node`payload, node`parent, node`children
    ensures node.payload == state.payload && node.parent == null && node.children == []
  {
    node.payload := state.payload;
    node.parent := null;
    node.children := [];
  }

  // ---------------------------------------------------------------- linking the nodes

  ghost predicate HangsFrom(f: Forest<Node>, n: Node, parent: Node?) {
    if parent == null then n !in f.parent else n in f.parent && f.parent[n] == parent
  }

  /** Hangs the descendants of `state` beneath its node, whose own parent pointer comes first.
      After a successful check no node can be missing. */
  method LinkSnapshot(d: Document, state: NodeSnapshot, nodes: map<NodeID, Node>, parent: Node?,
                      ghost tag: string, ghost f: Forest<Node>)
    returns (ok: bool)
    requires Linkable(f, nodes, state, tag) && TiedDown(f.children)
    requires TiedUp(f.parent - {nodes[state.id]}, f.children.Keys) && HangsFrom(f, nodes[state.id], parent)
    modifies f.children.Keys`parent, f.children.Keys`children
    ensures ok && Placed(nodes, Flat(state)) && Tied(Link(f, nodes, state))
    decreases state, 1
  {
    if state.id !in nodes {
      return false;
    }
    var node := nodes[state.id];
    d.SetParent(node, parent, f.parent - {node}, f.children.Keys);
    ParentSet(f.parent, node, parent);
    ghost var g := f;
    LinkBegins(f, nodes, state, tag);
    for i := 0 to |state.children|
      invariant LinkableFrom(g, nodes, state, i) && Placed(nodes, FlatFrom(state, i))
      invariant LinkFrom(g, nodes, state, i) == Link(f, nodes, state)
      invariant g.children.Keys == f.children.Keys && Tied(g)
    {
      ok, g := LinkOne(d, state, i, nodes, g);
      if !ok {
        return;
      }
    }
    ok := true;
  }

  /** Hangs child number `i` beneath the node of `state`, with everything below it. */
  method LinkOne(d: Document, state: NodeSnapshot, i: nat, nodes: map<NodeID, Node>, ghost f: Forest<Node>)
    returns (ok: bool, ghost g: Forest<Node>)
    requires i < |state.children| && LinkableFrom(f, nodes, state, i) && Placed(nodes, FlatFrom(state, i)) && Tied(f)
    modifies f.children.Keys`parent, f.children.Keys`children
    ensures ok && LinkableFrom(g, nodes, state, i + 1) && Placed(nodes, FlatFrom(state, i + 1))
    ensures LinkFrom(g, nodes, state, i + 1) == LinkFrom(f, nodes, state, i)
    ensures g.children.Keys == f.children.Keys && Tied(g)
    decreases state, 0
  {
    var c, node := state.children[i], nodes[state.id];
    LinkChild(f, nodes, state, i);
    g := f;
    if c.id !in nodes {
      return false, g;
    }
    ghost var f1 := AttachLeaf(f, node, nodes[c.id]);
    d.SetChildren(node, node.children + [nodes[c.id]], f.children);
    MinusAbsent(f.parent, nodes[c.id]);
    assert f1.parent - {nodes[c.id]} == f.parent && f1.children.Keys == f.children.Keys;
    ok := LinkSnapshot(d, c, nodes, node, state.payload.tagName, f1);
    LinkRest(f, f1, nodes, state, i);
    g := Link(f1, nodes, c);
  }

  lemma ParentSet(up: map<Node, Node>, n: Node, parent: Node?)
    requires if parent == null then n !in up else n in up && up[n] == parent
    ensures (if parent == null then up - {n} - {n} else (up - {n})[n := parent]) == up
  {
  }

  // ---------------------------------------------------------------- applying a snapshot

  /** `flat` holds exactly the nodes of the snapshot. */
  ghost predicate Holds(flat: map<NodeID, NodeSnapshot>, s: NodeSnapshot) {
    && flat.Keys == IDSet(Flat(s)) && OwnIDs(flat)
    && forall x | x in Flat(s) :: x.id in flat && flat[x.id] == x
  }

  /** Everything that can make a snapshot unacceptable is found before the first change. */
  method CheckSnapshot(s: DocumentSnapshot) returns (ok: bool, flat: map<NodeID, NodeSnapshot>)
    ensures ok <==> Acceptable(s)
    ensures ok ==> Holds(flat, s.root)
  {
    ok, flat := false, map[];
    if s.root.id == 0 || s.root.kind != DOCUMENT {
      return;
    }
    var readyState := if s.readyState == "" then "loading" else s.readyState;
    if readyState != "loading" && readyState != "interactive" && readyState != "complete" {
      return;
    }
    FileableExactly(map[], Flat(s.root));
    ok, flat := FlattenSnapshot(s.root, map[], 0, "");
    if ok {
      FileContents(Flat(s.root));
    }
  }

  /** Nodes whose ID does not occur any more have lost their links. */
  ghost predicate Released(previous: map<NodeID, Node>, nodes: map<NodeID, Node>)
    reads previous.Values
  {
    forall id | id in previous && id !in nodes :: previous[id].parent == null && previous[id].children == []
  }

  /** Cuts the links of nodes whose ID does not occur any more. */
  method Release(previous: map<NodeID, Node>, nodes: map<NodeID, Node>, ghost all: set<Node>)
    requires forall id | id in previous :: previous[id] in all && previous[id].id == id
    requires forall id | id in nodes :: nodes[id].id == id
    modifies all`parent, all`children
    ensures Released(previous, nodes)
    ensures unchanged(nodes.Values)
  {
    var rest := previous.Keys;
    while rest != {}
      invariant rest <= previous.Keys && unchanged(nodes.Values)
      invariant forall id | id in previous && id !in nodes && id !in rest ::
        previous[id].parent == null && previous[id].children == []
      decreases rest
    {
      var id :| id in rest;
      if id !in nodes {
        assert previous[id] !in nodes.Values;
        previous[id].parent := null;
        previous[id].children := [];
      }
      rest := rest - {id};
    }
  }

  /** The nodes of `all`, each on its own. */
  function Bare(all: set<Node>): Forest<Node> {
    Forest(map[], map n | n in all :: [], map n | n in all :: 0)
  }

  lemma BareKeeps(all: set<Node>)
    ensures WellFormed(Bare(all)) && forall n | n in all :: Lone(Bare(all), n)
  {
    forall n | n in all
      ensures NodeAgrees(Bare(all), n)
    { }
  }

  lemma BareTied(d: Document, nodes: map<NodeID, Node>, flat: map<NodeID, NodeSnapshot>, s: NodeSnapshot)
    requires AllStanding(d, nodes, flat) && nodes.Keys == flat.Keys && Holds(flat, s) && Sound(s, 0, "")
    ensures Tied(Bare(nodes.Values)) && FiledIn(d, nodes, nodes.Values) && Placed(nodes, Flat(s))
  {
    forall id | id in nodes
      ensures Standing(d, nodes[id], flat[id]) && id != 0
    {
      var x :| x in Flat(s) && x.id == id;
      SoundIDs(s, 0, "", x);
    }
  }

  lemma BareLinkable(nodes: map<NodeID, Node>, s: NodeSnapshot)
    requires Placed(nodes, Flat(s)) && Sound(s, 0, "") && NoDup(IDsOf(Flat(s)))
    ensures s.id in nodes && Linkable(Bare(nodes.Values), nodes, s, "")
    ensures Bare(nodes.Values).parent - {nodes[s.id]} == Bare(nodes.Values).parent
  {
    assert s in Flat(s);
    BareKeeps(nodes.Values);
    PlacedFrom(nodes, s, 0);
    assert forall x | x in FlatFrom(s, 0) :: nodes[x.id] in nodes.Values;
  }

  /** The nodes carry what the snapshot says. */
  ghost predicate Carries(d: Document, nodes: map<NodeID, Node>, flat: map<NodeID, NodeSnapshot>)
    reads nodes.Values`payload
  {
    && nodes.Keys == flat.Keys
    && forall id | id in nodes :: nodes[id].payload == flat[id].payload && nodes[id].kind == flat[id].kind
  }

  /** The nodes for an accepted snapshot, none of them linked. */
  method Prepare(d: Document, flat: map<NodeID, NodeSnapshot>)
    returns (nodes: map<NodeID, Node>, maximum: NodeID, ghost made: set<Node>)
    requires d.Valid() && OwnIDs(flat)
    modifies d.Owned()`payload, d.Owned()`parent, d.Owned()`children
    ensures fresh(made) && nodes.Keys == flat.Keys && Made(d, nodes, flat, d.nodes, made)
    ensures Greatest(maximum, flat.Keys) && Released(d.nodes, nodes)
  {
    hide WellFormed, Tied, Named, Indexed, Scan, Standing, AllChosen, Greatest;
    nodes, maximum, made := Materialize(d, flat, d.nodes, d.Owned());
    MadeIDs(d, nodes, flat);
    Release(d.nodes, nodes, d.Owned());
  }

  lemma MadeIDs(d: Document, nodes: map<NodeID, Node>, flat: map<NodeID, NodeSnapshot>)
    requires AllStanding(d, nodes, flat) && OwnIDs(flat)
    ensures forall id | id in nodes :: nodes[id].id == id
  {
    forall id | id in nodes
      ensures nodes[id].id == id
    { assert Standing(d, nodes[id], flat[id]); }
  }

  /** What the prepared nodes are: kept or new ones, filled, and none of those released. */
  lemma Prepared(d: Document, nodes: map<NodeID, Node>, flat: map<NodeID, NodeSnapshot>, previous: map<NodeID, Node>,
                 all: set<Node>, made: set<Node>)
    requires Made(d, nodes, flat, previous, made) && nodes.Keys == flat.Keys && FiledIn(d, previous, all)
      && OwnIDs(flat)
    ensures Carries(d, nodes, flat) && nodes.Values <= all + made
    ensures forall id | id in previous && id !in nodes :: previous[id] !in nodes.Values
  {
    forall id | id in nodes
      ensures nodes[id].payload == flat[id].payload && nodes[id].kind == flat[id].kind
      ensures nodes[id].id == id && nodes[id] in all + made
    { assert Standing(d, nodes[id], flat[id]) && Chosen(nodes[id], previous, id, flat[id], made); }
  }

  /** Turns the live nodes into those of an accepted snapshot. */
  method Rebuild(d: Document, s: DocumentSnapshot, flat: map<NodeID, NodeSnapshot>)
    returns (ok: bool, nodes: map<NodeID, Node>, maximum: NodeID, ghost made: set<Node>)
    requires d.Valid() && Acceptable(s) && Holds(flat, s.root)
    modifies d.Owned()`payload, d.Owned()`parent, d.Owned()`children
    ensures ok && fresh(made) && Carries(d, nodes, flat) && AllChosen(nodes, d.nodes, flat, made)
    ensures FiledIn(d, nodes, nodes.Values) && Placed(nodes, Flat(s.root))
    ensures Linkable(Bare(nodes.Values), nodes, s.root, "") && Tied(Link(Bare(nodes.Values), nodes, s.root))
    ensures Greatest(maximum, flat.Keys)
    ensures Released(d.nodes, nodes)
  {
    hide FiledIn, WellFormed, TiedUp, TiedDown, Named, Indexed, Scan, Sound, Link, Linkable;
    hide AllStanding, AllChosen, Placed, Greatest, Carries;
    nodes, maximum, made := Prepare(d, flat);
    Prepared(d, nodes, flat, d.nodes, d.Owned(), made);
    BareTied(d, nodes, flat, s.root);
    BareLinkable(nodes, s.root);
    ok := LinkSnapshot(d, s.root, nodes, null, "", Bare(nodes.Values));
  }

  /** The new links form a forest in which every node stands where the snapshot has it. */
  lemma LinkedShape(nodes: map<NodeID, Node>, s: NodeSnapshot, g: Forest<Node>)
    requires Placed(nodes, Flat(s)) && Linkable(Bare(nodes.Values), nodes, s, "")
    requires g == Link(Bare(nodes.Values), nodes, s)
    ensures WellFormed(g) && g.children.Keys == nodes.Values && Shaped(g, nodes, Flat(s))
    ensures s.id in nodes && nodes[s.id] !in g.parent
  {
    hide WellFormed, LinkedFrom, Sound, Shaped, Flat, Link, Bare;
    LinkKeeps(Bare(nodes.Values), nodes, s, "");
    LinkedWhole(Bare(nodes.Values), g, nodes, s);
    LinkedBare(nodes, s, g);
  }

  lemma LinkedBare(nodes: map<NodeID, Node>, s: NodeSnapshot, g: Forest<Node>)
    requires Placed(nodes, Flat(s)) && LinkedFrom(Bare(nodes.Values), g, nodes, s, 0) && s.id in nodes
    ensures g.children.Keys == nodes.Values && nodes[s.id] !in g.parent
  {
    hide WellFormed, Shaped, ShapedAt, Flat, Placed;
  }

  lemma ShapedWithin(nodes: map<NodeID, Node>, s: NodeSnapshot, g: Forest<Node>)
    requires Placed(nodes, Flat(s)) && WellFormed(g) && Shaped(g, nodes, Flat(s))
    requires g.children.Keys == nodes.Values && nodes.Keys == IDSet(Flat(s))
    ensures Within(g, MAX_TREE_DEPTH)
  {
    forall n | n in g.children
      ensures g.depth[n] <= MAX_TREE_DEPTH
    {
      var id :| id in nodes && nodes[id] == n;
      var x :| x in Flat(s) && x.id == id;
      assert ShapedAt(g, nodes, x);
    }
  }

  method PutFields(d: Document, s: DocumentSnapshot, nodes: map<NodeID, Node>, maximum: NodeID,
                   ghost g: Forest<Node>, ghost names: map<Node, string>)
    requires s.root.id in nodes
    modifies d
    ensures d.root == nodes[s.root.id] && d.nodes == nodes && d.shape == g && d.ids == names
    ensures d.nextID == (if s.nextID <= maximum then NextID(maximum) else s.nextID)
    ensures d.readyState == ReadyStateOf(s)
  {
    d.root := nodes[s.root.id];
    d.nodes := nodes;
    d.nextID := s.nextID;
    d.readyState := if s.readyState == "" then "loading" else s.readyState;
    if d.nextID <= maximum {
      d.nextID := NextID(maximum);
    }
    d.shape, d.ids := g, names;
  }

  ghost function Names(all: set<Node>): map<Node, string>
    reads all`payload
  {
    map n | n in all :: IdAttribute(n.payload)
  }

  /** Puts the new nodes in the place of the old ones. */
  method Install(d: Document, s: DocumentSnapshot, nodes: map<NodeID, Node>, maximum: NodeID, ghost g: Forest<Node>,
                 ghost flat: map<NodeID, NodeSnapshot>, ghost previous: map<NodeID, Node>)
    requires FiledIn(d, nodes, nodes.Values) && WellFormed(g) && Tied(g) && g.children.Keys == nodes.Values
    requires s.root.id in nodes && nodes[s.root.id] !in g.parent && nodes[s.root.id].kind == DOCUMENT
    requires Carries(d, nodes, flat) && Released(previous, nodes)
    modifies d
    ensures Carries(d, nodes, flat) && Released(previous, nodes)
    ensures d.Valid() && d.shape == g && d.nodes == nodes && d.root == nodes[s.root.id]
    ensures d.nextID == (if s.nextID <= maximum then NextID(maximum) else s.nextID)
    ensures d.readyState == ReadyStateOf(s)
  {
    hide FiledIn, WellFormed, Tied, TiedUp, TiedDown, Indexed, Scan, Carries, Released;
    PutFields(d, s, nodes, maximum, g, Names(nodes.Values));
    d.RebuildIDIndex();
  }

  /** The mutating half: gives the document the nodes of an accepted snapshot. */
  method Transplant(d: Document, s: DocumentSnapshot, flat: map<NodeID, NodeSnapshot>)
    returns (ok: bool, ghost maximum: NodeID, ghost made: set<Node>)
    requires d.Valid() && Acceptable(s) && Holds(flat, s.root)
    modifies d, d.Owned()`payload, d.Owned()`parent, d.Owned()`children
    ensures ok && d.Valid() && fresh(made) && AllChosen(d.nodes, old(d.nodes), flat, made)
      && Released(old(d.nodes), d.nodes)
    ensures Carries(d, d.nodes, flat) && Placed(d.nodes, Flat(s.root)) && Shaped(d.shape, d.nodes, Flat(s.root))
    ensures s.root.id in d.nodes && d.root == d.nodes[s.root.id] && d.Owned() == d.nodes.Values
    ensures Greatest(maximum, flat.Keys)
    ensures d.nextID == (if s.nextID <= maximum then NextID(maximum) else s.nextID) && d.readyState == ReadyStateOf(s)
  {
    hide FiledIn, WellFormed, Tied, Named, Indexed, Scan, Released, AllChosen, Placed, Shaped, Linkable, Link;
    hide Bare, Greatest, Sound;
    var nodes, top;
    ok, nodes, top, made := Rebuild(d, s, flat);
    maximum := top;
    if !ok {
      return;
    }
    LinkedShape(nodes, s.root, Link(Bare(nodes.Values), nodes, s.root));
    assert nodes[s.root.id].kind == flat[s.root.id].kind == DOCUMENT by { assert s.root in Flat(s.root); }
    Install(d, s, nodes, top, Link(Bare(nodes.Values), nodes, s.root), flat, d.nodes);
  }

  /** Every snapshot node is represented by the node that had its ID and type before, or else by
      one of the new nodes in `made`. */
  ghost predicate Represented(before: map<NodeID, Node>, after: map<NodeID, Node>, s: NodeSnapshot, made: set<Node>) {
    forall x | x in Flat(s) ::
      && x.id in after
      && if x.id in before && before[x.id].kind == x.kind then after[x.id] == before[x.id] else after[x.id] in made
  }

  lemma ChosenRepresent(before: map<NodeID, Node>, after: map<NodeID, Node>, flat: map<NodeID, NodeSnapshot>,
                        s: NodeSnapshot, made: set<Node>)
    requires Holds(flat, s) && after.Keys == flat.Keys && AllChosen(after, before, flat, made)
    ensures Represented(before, after, s, made)
  {
  }

  /** Applying a snapshot: accepted exactly when it is acceptable, a rejected one changes
      nothing, and an accepted one is what a snapshot taken afterwards shows. */
  method ApplySnapshot(d: Document, s: DocumentSnapshot) returns (ok: bool, ghost made: set<Node>)
    requires d.Valid()
    modifies d, d.Owned()`payload, d.Owned()`parent, d.Owned()`children
    ensures d.Valid()
    ensures ok <==> Acceptable(s)
    ensures !ok ==> unchanged(d) && unchanged(old(d.Owned()))
    ensures ok ==> Pictured(d) == DocumentSnapshot(s.root, Counter(s), ReadyStateOf(s))
    ensures ok ==> d.readyState == ReadyStateOf(s)
    ensures ok ==> Within(d.shape, MAX_TREE_DEPTH) && d.nodes.Keys == IDSet(Flat(s.root))
    ensures ok ==> (d.Fresh() <==> MaxID(Flat(s.root)) + 1 < ID_SPACE)
    ensures ok ==> fresh(made) && Represented(old(d.nodes), d.nodes, s.root, made) && Released(old(d.nodes), d.nodes)
  {
    var flat;
    made := {};
    ok, flat := CheckSnapshot(s);
    if !ok {
      return;
    }
    ghost var maximum;
    ok, maximum, made := Transplant(d, s, flat);
    ShapedWithin(d.nodes, s.root, d.shape);
    ChosenRepresent(old(d.nodes), d.nodes, flat, s.root, made);
    Repainted(d, s, flat, maximum);
  }

  /** What the document shows afterwards. */
  lemma Repainted(d: Document, s: DocumentSnapshot, flat: map<NodeID, NodeSnapshot>, maximum: NodeID)
    requires d.Valid() && Holds(flat, s.root) && Greatest(maximum, flat.Keys) && Carries(d, d.nodes, flat)
    requires Placed(d.nodes, Flat(s.root)) && Shaped(d.shape, d.nodes, Flat(s.root))
    requires s.root.id in d.nodes && d.root == d.nodes[s.root.id]
    requires d.nextID == (if s.nextID <= maximum then NextID(maximum) else s.nextID) && d.readyState == ReadyStateOf(s)
    ensures Pictured(d) == DocumentSnapshot(s.root, Counter(s), ReadyStateOf(s))
    ensures d.Fresh() <==> MaxID(Flat(s.root)) + 1 < ID_SPACE
  {
    hide Scan, Indexed;
    assert s.root in Flat(s.root);
    CaptureShaped(d.shape, Payloads(d), d.nodes, s.root);
    assert maximum in IDSet(Flat(s.root));
    MaxIDUnique(Flat(s.root), maximum);
    CounterFresh(s);
  }

  method NewDocumentFromSnapshot(s: DocumentSnapshot) returns (ok: bool, d: Document)
    ensures ok <==> Acceptable(s)
    ensures fresh(d) && d.Valid()
    ensures ok ==> Pictured(d) == DocumentSnapshot(s.root, Counter(s), ReadyStateOf(s))
  {
    d := new Document.Blank();
    ghost var made;
    ok, made := ApplySnapshot(d, s);
  }

  // ---------------------------------------------------------------- snapshots of live documents

  lemma IDListMembers(d: Document, s: seq<Node>)
    requires NoDup(s) && forall n | n in s :: n.id in d.nodes && d.nodes[n.id] == n
    ensures NoDup(IDList(s))
  {
    forall i, j | 0 <= i < j < |s|
      ensures IDList(s)[i] != IDList(s)[j]
    { assert s[i] in s && s[j] in s && s[i] != s[j]; }
  }

  /** The snapshot of a document is acceptable unless the document itself is over a limit or in
      an unknown ready state: identities and structure are never the reason. */
  lemma PicturedAcceptable(d: Document)
    requires d.Valid() && d.root != null
    ensures Acceptable(Pictured(d)) <==>
      && Sound(Pictured(d).root, 0, "")
      && |Scan(d.shape, {}, d.root)| <= MAX_NODES_PER_DOCUMENT
      && d.readyState in {"", "loading", "interactive", "complete"}
  {
    var order, s := Scan(d.shape, {}, d.root), Pictured(d);
    CaptureOrder(d.shape, Payloads(d), d.root);
    ScanNoDup(d.shape, {}, d.root);
    forall n | n in order
      ensures n.id in d.nodes && d.nodes[n.id] == n
    { assert n in d.Owned(); }
    IDListMembers(d, order);
    assert d.root.id != 0 by { assert d.nodes[d.root.id] == d.root; }
    assert |IDsOf(Flat(s.root))| == |Flat(s.root)| && |IDList(order)| == |order|;
  }

  /** Together with `ApplySnapshot`: a document to which the snapshot of another one has been
      applied shows exactly what the other one shows. */
  lemma PicturedReapplies(d: Document)
    requires d.Valid() && d.Fresh() && d.root != null
    ensures Pictured(d) == DocumentSnapshot(Pictured(d).root, Counter(Pictured(d)), ReadyStateOf(Pictured(d)))
  {
    hide Tied, Indexed, Sound;
    var order, s := Scan(d.shape, {}, d.root), Pictured(d);
    CaptureOrder(d.shape, Payloads(d), d.root);
    var x :| x in Flat(s.root) && x.id == MaxID(Flat(s.root));
    var i :| 0 <= i < |Flat(s.root)| && Flat(s.root)[i] == x;
    assert IDsOf(Flat(s.root))[i] == x.id == IDList(order)[i] == order[i].id;
    assert order[i] in order && order[i] in d.Owned();
    assert d.nodes[order[i].id] == order[i];
  }
}
