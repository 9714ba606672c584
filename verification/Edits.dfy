/** Any sequence of edits of a new document, and what holds in every state on the way. */
module Edits {
  import opened Forests
  import opened Scans
  import opened Dom
  import opened SnapshotTrees
  import opened Snapshots

  /** One edit; nodes are named by their IDs, and an unknown ID stands for an absent node. */
  datatype Operation =
    | MakeElement(tagName: string, attributes: map<string, string>)
    | MakeText(text: string)
    | MakeFragment
    | InsertNode(parent: NodeID, child: NodeID, index: int)
    | DetachNode(parent: NodeID, child: NodeID)
    | ReplaceNodes(parent: NodeID, children: seq<NodeID>)
    | RemoveNode(id: NodeID)
    | SetText(id: NodeID, value: string)
    | PutAttribute(id: NodeID, name: string, value: string)
    | DropAttribute(id: NodeID, name: string)
    | Restore(snapshot: DocumentSnapshot)

  /** A document as a value. */
  datatype State = State(
    root: Node, shape: Forest<Node>, nodes: map<NodeID, Node>, nextID: NodeID, payloads: map<Node, Payload>,
    readyState: string)

  ghost function StateOf(d: Document): State
    requires d.root != null
    reads d, d.Owned()`payload
  {
    State(d.root, d.shape, d.nodes, d.nextID, Payloads(d), d.readyState)
  }

  /** Parents and children are mutually inverse and without cycles, the root has no parent, and
      the nodes are those of this document, filed under distinct IDs below the counter. */
  ghost predicate Coherent(d: Document, s: State) {
    && WellFormed(s.shape) && FiledIn(d, s.nodes, s.shape.children.Keys)
    && s.root in s.shape.children && s.root !in s.shape.parent && s.root.kind == DOCUMENT
    && s.payloads.Keys == s.shape.children.Keys
    && s.nextID != 0 && forall id | id in s.nodes :: id < s.nextID
  }

  /** What `Valid` and `Fresh` say of the state. */
  ghost predicate Ready(d: Document)
    reads d, d.Owned()
  {
    d.Valid() && d.Fresh() && d.root != null
  }

  lemma ReadyCoherent(d: Document)
    requires Ready(d)
    ensures Coherent(d, StateOf(d))
  {
  }

  function Lookup(nodes: map<NodeID, Node>, id: NodeID): Node? {
    if id in nodes then nodes[id] else null
  }

  function LookupAll(nodes: map<NodeID, Node>, ids: seq<NodeID>): (ns: seq<Node?>)
    ensures |ns| == |ids| && forall i :: 0 <= i < |ids| ==> ns[i] == Lookup(nodes, ids[i])
  {
    seq(|ids|, i requires 0 <= i < |ids| => Lookup(nodes, ids[i]))
  }

  lemma LookupsHandled(d: Document, f: Forest<Node>, nodes: map<NodeID, Node>, ids: seq<NodeID>)
    requires FiledIn(d, nodes, f.children.Keys)
    ensures forall n | n in LookupAll(nodes, ids) :: HandleIn(d, f, n)
  {
  }

  // ---------------------------------------------------------------- which edits happen

  /** Whether the edit is carried out rather than refused. */
  ghost predicate Allowed(d: Document, s: State, op: Operation)
    requires Coherent(d, s)
  {
    match op
    case InsertNode(p, c, index) =>
      InsertVerdictIn(d, s.root, s.shape, Lookup(s.nodes, p), Lookup(s.nodes, c), index).Done?
    case DetachNode(p, c) => IsChildIn(d, s.shape, Lookup(s.nodes, c), Lookup(s.nodes, p))
    case ReplaceNodes(p, cs) =>
      LookupsHandled(d, s.shape, s.nodes, cs);
      ReplaceVerdictIn(d, s.root, s.shape, Lookup(s.nodes, p), LookupAll(s.nodes, cs))
    case RemoveNode(id) => RemovableIn(s.root, s.shape, s.nodes, id)
    case SetText(id, _) => TextualIn(s.nodes, id)
    case PutAttribute(id, name, value) =>
      Lookup(s.nodes, id) != null && s.nodes[id].kind == ELEMENT
      && MaySetOn(s.payloads[s.nodes[id]].attributes, name, value)
    case DropAttribute(id, name) =>
      Lookup(s.nodes, id) != null && s.nodes[id].kind == ELEMENT
      && name != "" && name in s.payloads[s.nodes[id]].attributes
    case Restore(snapshot) => Acceptable(snapshot)
    case _ => true
  }

  // ---------------------------------------------------------------- what they do

  /** One more node, on its own, under the next ID. */
  ghost predicate Made(s: State, kind: NodeType, payload: Payload, t: State) {
    && s.nextID in t.nodes
    && var node := t.nodes[s.nextID];
    && node !in s.shape.children && node.kind == kind
    && t == s.(shape := Plant(s.shape, node), nodes := s.nodes[s.nextID := node], nextID := NextID(s.nextID),
               payloads := s.payloads[node := payload])
  }

  /** The new links `g` and nothing else. */
  function Relinked(s: State, g: Forest<Node>): State {
    s.(shape := g)
  }

  ghost predicate Removed(s: State, node: Node, t: State)
    requires WellFormed(s.shape)
  {
    var gone := Subtree(s.shape, node);
    t == s.(shape := Prune(s.shape, gone), nodes := s.nodes - IDs(gone), payloads := s.payloads - gone)
  }

  /** The node's descendants make way for one text node under the next ID. */
  ghost predicate TextSet(s: State, node: Node, value: string, t: State)
    requires WellFormed(s.shape) && node in s.shape.children
  {
    && s.nextID in t.nodes
    && var leaf, gone := t.nodes[s.nextID], BelowChildren(s.shape, node, |s.shape.children[node]|);
    && leaf.kind == TEXT && Retexts(s.shape, t.shape, node, leaf)
    && t == s.(shape := t.shape, nodes := (s.nodes - IDs(gone))[s.nextID := leaf], nextID := NextID(s.nextID),
               payloads := (s.payloads - gone)[leaf := BLANK.(text := value)])
  }

  ghost predicate AttributesSet(s: State, node: Node, attributes: map<string, string>, t: State)
    requires node in s.payloads
  {
    t == s.(payloads := s.payloads[node := s.payloads[node].(attributes := attributes)])
  }

  /** The tree of the snapshot, made of the old nodes with the same ID and type and of new ones. */
  ghost predicate Restored(s: State, snapshot: DocumentSnapshot, t: State) {
    && WellFormed(t.shape) && t.root in t.shape.children && t.payloads.Keys == t.shape.children.Keys
    && Capture(t.shape, t.payloads, t.root) == snapshot.root && t.nextID == Counter(snapshot)
    && t.readyState == ReadyStateOf(snapshot)
    && t.nodes.Keys == IDSet(Flat(snapshot.root))
    && forall x | x in Flat(snapshot.root) :: x.id in t.nodes
         && if KeptFrom(s.nodes, x.id, x) then t.nodes[x.id] == s.nodes[x.id] else t.nodes[x.id] !in s.shape.children
  }

  ghost predicate Effect(d: Document, s: State, op: Operation, t: State)
    requires Coherent(d, s) && Allowed(d, s, op)
  {
    match op
    case MakeElement(tag, attributes) => Made(s, ELEMENT, BLANK.(tagName := tag, attributes := attributes), t)
    case MakeText(text) => Made(s, TEXT, BLANK.(text := text), t)
    case MakeFragment => Made(s, FRAGMENT, BLANK, t)
    case InsertNode(p, c, index) =>
      t == Relinked(s, t.shape) && Moves(s.shape, t.shape, s.nodes[p], s.nodes[c], index)
    case DetachNode(_, c) => t == Relinked(s, t.shape) && Detaches(s.shape, t.shape, {s.nodes[c]})
    case ReplaceNodes(p, cs) =>
      t == Relinked(s, t.shape) && null !in LookupAll(s.nodes, cs)
      && Replaces(s.shape, t.shape, s.nodes[p], Present(LookupAll(s.nodes, cs)))
    case RemoveNode(id) => Removed(s, s.nodes[id], t)
    case SetText(id, value) => TextSet(s, s.nodes[id], value, t)
    case PutAttribute(id, name, value) =>
      AttributesSet(s, s.nodes[id], s.payloads[s.nodes[id]].attributes[name := value], t)
    case DropAttribute(id, name) =>
      AttributesSet(s, s.nodes[id], s.payloads[s.nodes[id]].attributes - {name}, t)
    case Restore(snapshot) => Restored(s, snapshot, t)
  }

  /** An edit has its effect exactly when it is allowed, and otherwise changes nothing. */
  ghost predicate Step(d: Document, s: State, op: Operation, t: State)
    requires Coherent(d, s)
  {
    if Allowed(d, s, op) then Effect(d, s, op, t) else t == s
  }

  /** The edit replaces the text of a node on the last level. */
  ghost predicate Deepens(s: State, op: Operation) {
    && op.SetText? && TextualIn(s.nodes, op.id)
    && s.nodes[op.id] in s.shape.depth && s.shape.depth[s.nodes[op.id]] >= MAX_TREE_DEPTH
  }

  /** The edit puts an accepted snapshot in the place of the tree. */
  ghost predicate Replants(op: Operation) {
    op.Restore? && Acceptable(op.snapshot)
  }

  /** One edit; a tree within the depth limit stays within it exactly unless the edit replaces the
      text of a node on the last level, and an accepted snapshot is always within it. */
  ghost predicate Follows(d: Document, s: State, op: Operation, t: State) {
    && Coherent(d, s) && Coherent(d, t) && Step(d, s, op, t)
    && (Within(s.shape, MAX_TREE_DEPTH) || Replants(op) ==> (Within(t.shape, MAX_TREE_DEPTH) <==> !Deepens(s, op)))
  }

  // ---------------------------------------------------------------- the ID counter

  /** How high the counter can be after an edit when it was at most `n` before. */
  ghost function Bound(op: Operation, n: nat): nat {
    if op.MakeElement? || op.MakeText? || op.MakeFragment? || op.SetText? then n + 1
    else if !Replants(op) then n
    else if op.snapshot.nextID <= MaxID(Flat(op.snapshot.root)) then MaxID(Flat(op.snapshot.root)) + 1
    else op.snapshot.nextID
  }

  lemma BoundGrows(op: Operation, m: nat, n: nat)
    requires m <= n
    ensures Bound(op, m) <= Bound(op, n)
  {
  }

  ghost function BoundAll(ops: seq<Operation>): nat {
    if ops == [] then 2 else Bound(ops[|ops| - 1], BoundAll(ops[..|ops| - 1]))
  }

  /** The counter does not run out: no accepted snapshot uses the last ID, and not too many nodes
      are made. */
  ghost predicate Room(ops: seq<Operation>) {
    BoundAll(ops) < ID_SPACE && (ops == [] || Room(ops[..|ops| - 1]))
  }

  lemma {:induction false} RoomBefore(ops: seq<Operation>, i: nat)
    requires i <= |ops| && Room(ops)
    ensures Room(ops[..i])
    decreases |ops|
  {
    if i < |ops| {
      assert ops[..|ops| - 1][..i] == ops[..i];
      RoomBefore(ops[..|ops| - 1], i);
    } else {
      assert ops[..i] == ops;
    }
  }

  // ---------------------------------------------------------------- one edit at a time

  method NodeByID(d: Document, id: NodeID) returns (node: Node?)
    requires d.Valid()
    ensures node == Lookup(d.nodes, id) && d.Handle(node)
  {
    node := if id in d.nodes then d.nodes[id] else null;
  }

  method Handles(d: Document, ids: seq<NodeID>) returns (ns: seq<Node?>)
    requires d.Valid()
    ensures ns == LookupAll(d.nodes, ids) && forall n | n in ns :: HandleIn(d, d.shape, n)
  {
    ns := [];
    for i := 0 to |ids|
      invariant |ns| == i && forall k :: 0 <= k < i ==> ns[k] == Lookup(d.nodes, ids[k])
    {
      var n := NodeByID(d, ids[i]);
      ns := ns + [n];
    }
    LookupsHandled(d, d.shape, d.nodes, ids);
  }

  /** The nodes stay the same when their records do. */
  lemma SameOwned(d: Document, before: set<Node>, nodes: map<NodeID, Node>, after: set<Node>)
    requires FiledIn(d, nodes, before) && FiledIn(d, nodes, after)
    ensures before == after
  {
  }

  /** Nodes of both states carry the same payload in them. */
  ghost predicate PayloadsKept(s: State, t: State) {
    forall n | n in s.payloads && n in t.payloads :: t.payloads[n] == s.payloads[n]
  }

  lemma LookedUp(d: Document, nodes: map<NodeID, Node>, all: set<Node>, id: NodeID)
    requires FiledIn(d, nodes, all) && id in nodes
    ensures nodes[id] in all
  {
  }

  lemma MadeFollows(d: Document, s: State, op: Operation, kind: NodeType, payload: Payload, t: State)
    requires Coherent(d, s) && Coherent(d, t) && Made(s, kind, payload, t)
    requires match op
             case MakeElement(tag, attributes) =>
               kind == ELEMENT && payload == BLANK.(tagName := tag, attributes := attributes)
             case MakeText(text) => kind == TEXT && payload == BLANK.(text := text)
             case MakeFragment => kind == FRAGMENT && payload == BLANK
             case _ => false
    requires Within(s.shape, MAX_TREE_DEPTH) ==> Within(t.shape, MAX_TREE_DEPTH)
    ensures Follows(d, s, op, t)
  {
  }

  /** What creating a node says of the state. */
  lemma MadeIs(d: Document, s: State, node: Node, t: State)
    requires Coherent(d, s) && Coherent(d, t) && node !in s.shape.children && PayloadsKept(s, t)
    requires t.root == s.root && t.readyState == s.readyState && t.shape == Plant(s.shape, node)
    requires t.nodes == s.nodes[s.nextID := node] && t.nextID == NextID(s.nextID)
    ensures node in t.payloads && Made(s, node.kind, t.payloads[node], t)
  {
    hide WellFormed, FiledIn;
    assert t.payloads == s.payloads[node := t.payloads[node]];
  }

  method Make(d: Document, op: Operation)
    requires Ready(d) && d.nextID + 1 < ID_SPACE && (op.MakeElement? || op.MakeText? || op.MakeFragment?)
    modifies d`nodes, d`nextID, d`shape, d`ids
    ensures Ready(d) && Follows(d, old(StateOf(d)), op, StateOf(d))
    ensures d.nextID == old(d.nextID) + 1 && d.Owned() <= old(d.Owned()) + {d.nodes[old(d.nextID)]}
    ensures fresh(d.nodes[old(d.nextID)])
  {
    hide FiledIn, WellFormed, Tied, TiedUp, TiedDown, Named, Follows, Coherent, Indexed, Scan, Within, Plant;
    ghost var s := StateOf(d);
    ReadyCoherent(d);
    var node;
    match op {
      case MakeElement(tag, attributes) => node := d.CreateElement(tag, attributes);
      case MakeText(text) => node := d.CreateText(text);
      case MakeFragment => node := d.CreateDocumentFragment();
    }
    ReadyCoherent(d);
    MadeIs(d, s, node, StateOf(d));
    MadeFollows(d, s, op, node.kind, node.payload, StateOf(d));
  }

  /** Of everything but the links nothing has changed. */
  lemma OnlyRelinked(d: Document, s: State, t: State)
    requires Coherent(d, s) && Coherent(d, t) && t.root == s.root && t.nodes == s.nodes && t.nextID == s.nextID
    requires t.readyState == s.readyState && PayloadsKept(s, t)
    ensures t == Relinked(s, t.shape) && t.shape.children.Keys == s.shape.children.Keys
  {
    SameOwned(d, s.shape.children.Keys, s.nodes, t.shape.children.Keys);
    assert t.payloads == s.payloads;
  }

  lemma InsertFollows(d: Document, s: State, p: NodeID, c: NodeID, index: int, r: Edit, t: State)
    requires Coherent(d, s) && Coherent(d, t) && t == Relinked(s, t.shape)
    requires r == InsertVerdictIn(d, s.root, s.shape, Lookup(s.nodes, p), Lookup(s.nodes, c), index)
    requires if r.Done? then Moves(s.shape, t.shape, s.nodes[p], s.nodes[c], index) else t.shape == s.shape
    requires Within(s.shape, MAX_TREE_DEPTH) ==> Within(t.shape, MAX_TREE_DEPTH)
    ensures Follows(d, s, InsertNode(p, c, index), t)
  {
  }

  method Insert(d: Document, p: NodeID, c: NodeID, index: int)
    requires Ready(d)
    modifies d`byID, d`shape, d.Owned()`parent, d.Owned()`children
    ensures Ready(d) && Follows(d, old(StateOf(d)), InsertNode(p, c, index), StateOf(d))
    ensures d.nextID == old(d.nextID) && d.Owned() == old(d.Owned())
  {
    hide FiledIn, WellFormed, Tied, TiedUp, TiedDown, Named, Follows, Coherent, InsertVerdictIn, Moves;
    hide Within, Indexed, Scan;
    ghost var s := StateOf(d);
    ReadyCoherent(d);
    var parent := NodeByID(d, p);
    var child := NodeByID(d, c);
    var r := d.InsertChild(parent, child, index);
    ReadyCoherent(d);
    OnlyRelinked(d, s, StateOf(d));
    InsertFollows(d, s, p, c, index, r, StateOf(d));
  }

  lemma DetachFollows(d: Document, s: State, p: NodeID, c: NodeID, ok: bool, t: State)
    requires Coherent(d, s) && Coherent(d, t) && t == Relinked(s, t.shape)
    requires ok <==> IsChildIn(d, s.shape, Lookup(s.nodes, c), Lookup(s.nodes, p))
    requires if ok then Detaches(s.shape, t.shape, {s.nodes[c]}) else t.shape == s.shape
    requires Within(s.shape, MAX_TREE_DEPTH) ==> Within(t.shape, MAX_TREE_DEPTH)
    ensures Follows(d, s, DetachNode(p, c), t)
  {
  }

  method Detach(d: Document, p: NodeID, c: NodeID)
    requires Ready(d)
    modifies d`byID, d`shape, d.Owned()`parent, d.Owned()`children
    ensures Ready(d) && Follows(d, old(StateOf(d)), DetachNode(p, c), StateOf(d))
    ensures d.nextID == old(d.nextID) && d.Owned() == old(d.Owned())
  {
    hide FiledIn, WellFormed, Tied, TiedUp, TiedDown, Named, Follows, Coherent, Within, Indexed, Scan, Detaches;
    hide FragmentsIn, Reaches, Above;
    ghost var s := StateOf(d);
    ReadyCoherent(d);
    var parent := NodeByID(d, p);
    var child := NodeByID(d, c);
    var ok := d.DetachChild(parent, child);
    ReadyCoherent(d);
    OnlyRelinked(d, s, StateOf(d));
    DetachFollows(d, s, p, c, ok, StateOf(d));
  }

  lemma ReplaceFollows(d: Document, s: State, p: NodeID, cs: seq<NodeID>, ok: bool, t: State)
    requires Coherent(d, s) && Coherent(d, t) && t == Relinked(s, t.shape)
    requires forall n | n in LookupAll(s.nodes, cs) :: HandleIn(d, s.shape, n)
    requires ok <==> ReplaceVerdictIn(d, s.root, s.shape, Lookup(s.nodes, p), LookupAll(s.nodes, cs))
    requires if ok then null !in LookupAll(s.nodes, cs)
                        && Replaces(s.shape, t.shape, s.nodes[p], Present(LookupAll(s.nodes, cs)))
             else t.shape == s.shape
    requires Within(s.shape, MAX_TREE_DEPTH) ==> Within(t.shape, MAX_TREE_DEPTH)
    ensures Follows(d, s, ReplaceNodes(p, cs), t)
  {
  }

  method Replace(d: Document, p: NodeID, cs: seq<NodeID>)
    requires Ready(d)
    modifies d`byID, d`shape, d.Owned()`parent, d.Owned()`children
    ensures Ready(d) && Follows(d, old(StateOf(d)), ReplaceNodes(p, cs), StateOf(d))
    ensures d.nextID == old(d.nextID) && d.Owned() == old(d.Owned())
  {
    hide FiledIn, WellFormed, Tied, TiedUp, TiedDown, Named, Follows, Coherent, Within, Indexed, Scan;
    hide ReplaceVerdictIn, Replaces;
    ghost var s := StateOf(d);
    ReadyCoherent(d);
    var parent := NodeByID(d, p);
    var children := Handles(d, cs);
    var ok := d.ReplaceChildren(parent, children);
    ReadyCoherent(d);
    OnlyRelinked(d, s, StateOf(d));
    ReplaceFollows(d, s, p, cs, ok, StateOf(d));
  }

  lemma RemoveFollows(d: Document, s: State, id: NodeID, ok: bool, t: State)
    requires Coherent(d, s) && Coherent(d, t) && (ok <==> RemovableIn(s.root, s.shape, s.nodes, id))
    requires t.root == s.root && t.nextID == s.nextID && t.readyState == s.readyState && PayloadsKept(s, t)
    requires if ok then t.shape == Prune(s.shape, Subtree(s.shape, s.nodes[id]))
                        && t.nodes == s.nodes - IDs(Subtree(s.shape, s.nodes[id]))
             else t.shape == s.shape && t.nodes == s.nodes
    ensures Follows(d, s, RemoveNode(id), t)
  {
    if ok {
      assert t.payloads == s.payloads - Subtree(s.shape, s.nodes[id]);
    } else {
      assert t.payloads == s.payloads;
    }
  }

  method Delete(d: Document, id: NodeID)
    requires Ready(d)
    modifies d`byID, d`shape, d`ids, d`nodes, d.Owned()`parent, d.Owned()`children
    ensures Ready(d) && Follows(d, old(StateOf(d)), RemoveNode(id), StateOf(d))
    ensures d.nextID == old(d.nextID) && d.Owned() <= old(d.Owned())
  {
    hide FiledIn, WellFormed, Tied, TiedUp, TiedDown, Named, Follows, Coherent, Within, Indexed, Scan;
    hide RemovableIn, Subtree;
    ghost var s := StateOf(d);
    ReadyCoherent(d);
    var removed, ok := d.Remove(id);
    ReadyCoherent(d);
    RemoveFollows(d, s, id, ok, StateOf(d));
  }

  /** The payloads after some nodes have gone and one has come. */
  lemma PayloadsAfter(p: map<Node, Payload>, gone: set<Node>, leaf: Node, payload: Payload, q: map<Node, Payload>)
    requires leaf !in p && q.Keys == p.Keys - gone + {leaf} && q[leaf] == payload
    requires forall n | n in p && n in q :: q[n] == p[n]
    ensures q == (p - gone)[leaf := payload]
  {
  }

  /** What `SetTextContent` says of the state when it succeeds. */
  ghost predicate Retexted(s: State, node: Node, value: string, t: State)
    requires WellFormed(s.shape) && node in s.shape.children
  {
    && t.root == s.root && t.readyState == s.readyState && s.nextID in t.nodes && t.nextID == NextID(s.nextID)
    && var leaf, gone := t.nodes[s.nextID], BelowChildren(s.shape, node, |s.shape.children[node]|);
    && leaf.kind == TEXT && leaf !in s.shape.children && Retexts(s.shape, t.shape, node, leaf)
    && t.nodes == (s.nodes - IDs(gone))[s.nextID := leaf]
    && leaf in t.payloads && t.payloads[leaf] == BLANK.(text := value)
  }

  lemma TextIsSet(d: Document, s: State, node: Node, value: string, t: State)
    requires Coherent(d, s) && Coherent(d, t) && node in s.shape.children && PayloadsKept(s, t)
    requires Retexted(s, node, value, t)
    ensures TextSet(s, node, value, t)
    ensures t.shape.children.Keys <= s.shape.children.Keys + {t.nodes[s.nextID]}
  {
    hide WellFormed, FiledIn, Retexts, BelowChildren;
    var leaf, gone := t.nodes[s.nextID], BelowChildren(s.shape, node, |s.shape.children[node]|);
    RetextsKeys(s.shape, t.shape, node, leaf);
    PayloadsAfter(s.payloads, gone, leaf, BLANK.(text := value), t.payloads);
  }

  lemma TextFollows(d: Document, s: State, id: NodeID, value: string, ok: bool, t: State)
    requires Coherent(d, s) && Coherent(d, t) && (ok <==> TextualIn(s.nodes, id))
    requires if ok then s.nodes[id] in s.shape.children && TextSet(s, s.nodes[id], value, t) else t == s
    requires Within(s.shape, MAX_TREE_DEPTH) ==>
      (Within(t.shape, MAX_TREE_DEPTH) <==> ok ==> s.shape.depth[s.nodes[id]] < MAX_TREE_DEPTH)
    ensures Follows(d, s, SetText(id, value), t)
  {
    hide FiledIn, TextSet, Within;
  }

  method SetTextOf(d: Document, id: NodeID, value: string)
    requires Ready(d) && d.nextID + 1 < ID_SPACE
    modifies d`byID, d`shape, d`ids, d`nodes, d`nextID, d.Owned()`parent, d.Owned()`children
    ensures Ready(d) && Follows(d, old(StateOf(d)), SetText(id, value), StateOf(d))
    ensures d.nextID <= old(d.nextID) + 1
    ensures forall n | n in d.Owned() :: n in old(d.Owned()) || fresh(n)
  {
    hide FiledIn, WellFormed, Tied, TiedUp, TiedDown, Named, Follows, Within, Indexed, Scan, Retexts, BelowChildren;
    ghost var s := StateOf(d);
    ReadyCoherent(d);
    var ok := d.SetTextContent(id, value);
    ReadyCoherent(d);
    ghost var t := StateOf(d);
    if ok {
      LookedUp(d, s.nodes, s.shape.children.Keys, id);
      LookedUp(d, t.nodes, t.shape.children.Keys, s.nextID);
      TextIsSet(d, s, s.nodes[id], value, t);
    } else {
      OnlyRelinked(d, s, t);
    }
    TextFollows(d, s, id, value, ok, t);
  }

  lemma PutFollows(d: Document, s: State, id: NodeID, name: string, value: string, ok: bool, t: State)
    requires Coherent(d, s) && Coherent(d, t)
    requires ok <==> Allowed(d, s, PutAttribute(id, name, value))
    requires if ok then AttributesSet(s, s.nodes[id], s.payloads[s.nodes[id]].attributes[name := value], t) else t == s
    ensures Follows(d, s, PutAttribute(id, name, value), t)
  {
  }

  lemma DropFollows(d: Document, s: State, id: NodeID, name: string, ok: bool, t: State)
    requires Coherent(d, s) && Coherent(d, t)
    requires ok <==> Allowed(d, s, DropAttribute(id, name))
    requires if ok then AttributesSet(s, s.nodes[id], s.payloads[s.nodes[id]].attributes - {name}, t) else t == s
    ensures Follows(d, s, DropAttribute(id, name), t)
  {
  }

  /** Only the payload of the node `id` differs. */
  lemma OnePayload(d: Document, s: State, id: NodeID, payload: Payload, t: State)
    requires Coherent(d, s) && Coherent(d, t) && id in s.nodes && t == s.(payloads := t.payloads)
    requires t.payloads[s.nodes[id]] == payload
    requires forall n | n in s.shape.children && n.id != id :: t.payloads[n] == s.payloads[n]
    ensures t.payloads == s.payloads[s.nodes[id] := payload]
  {
  }

  method Put(d: Document, id: NodeID, name: string, value: string)
    requires Ready(d)
    modifies d`byID, d`ids, d.Owned()`payload
    ensures Ready(d) && Follows(d, old(StateOf(d)), PutAttribute(id, name, value), StateOf(d))
  {
    hide FiledIn, WellFormed, Tied, TiedUp, TiedDown, Named, Follows, Coherent, Within, Indexed, Scan, MaySetOn;
    ghost var s := StateOf(d);
    ReadyCoherent(d);
    var ok := d.SetAttribute(id, name, value);
    ReadyCoherent(d);
    ghost var t := StateOf(d);
    if ok { OnePayload(d, s, id, d.nodes[id].payload, t); }
    PutFollows(d, s, id, name, value, ok, t);
  }

  method Drop(d: Document, id: NodeID, name: string)
    requires Ready(d)
    modifies d`byID, d`ids, d.Owned()`payload
    ensures Ready(d) && Follows(d, old(StateOf(d)), DropAttribute(id, name), StateOf(d))
  {
    hide FiledIn, WellFormed, Tied, TiedUp, TiedDown, Named, Follows, Coherent, Within, Indexed, Scan;
    ghost var s := StateOf(d);
    ReadyCoherent(d);
    var ok := d.RemoveAttribute(id, name);
    ReadyCoherent(d);
    if ok { OnePayload(d, s, id, d.nodes[id].payload, StateOf(d)); }
    DropFollows(d, s, id, name, ok, StateOf(d));
  }

  /** What `ApplySnapshot` says of the nodes when it succeeds. */
  lemma RestoreFollows(d: Document, s: State, snapshot: DocumentSnapshot, ok: bool, made: set<Node>, t: State)
    requires Coherent(d, s) && Coherent(d, t) && (ok <==> Acceptable(snapshot))
    requires !ok ==> t == s
    requires ok ==>
      && made !! s.shape.children.Keys
      && Capture(t.shape, t.payloads, t.root) == snapshot.root && t.nextID == Counter(snapshot)
      && t.readyState == ReadyStateOf(snapshot) && t.nodes.Keys == IDSet(Flat(snapshot.root))
      && Represented(s.nodes, t.nodes, snapshot.root, made) && Within(t.shape, MAX_TREE_DEPTH)
    ensures Follows(d, s, Restore(snapshot), t)
    ensures forall n | n in t.shape.children :: n in s.shape.children || n in made
  {
    if ok {
      forall n | n in t.shape.children
        ensures n in s.shape.children || n in made
      {
        assert n.id in IDSet(Flat(snapshot.root));
        var x :| x in Flat(snapshot.root) && x.id == n.id;
      }
    }
  }

  method RestoreFrom(d: Document, snapshot: DocumentSnapshot)
    requires Ready(d) && Bound(Restore(snapshot), d.nextID) < ID_SPACE
    modifies d, d.Owned()`payload, d.Owned()`parent, d.Owned()`children
    ensures Ready(d) && Follows(d, old(StateOf(d)), Restore(snapshot), StateOf(d))
    ensures d.nextID <= Bound(Restore(snapshot), old(d.nextID))
    ensures forall n | n in d.Owned() :: n in old(d.Owned()) || fresh(n)
  {
    hide FiledIn, WellFormed, Tied, TiedUp, TiedDown, Named, Follows, Within, Indexed, Scan, Capture, Represented;
    ghost var s := StateOf(d);
    ReadyCoherent(d);
    var ok;
    ghost var made;
    ok, made := ApplySnapshot(d, snapshot);
    ReadyCoherent(d);
    RestoreFollows(d, s, snapshot, ok, made, StateOf(d));
  }

  /** Any edit: carried out exactly when it is allowed, and otherwise without any change. */
  method Apply(d: Document, op: Operation)
    requires Ready(d) && Bound(op, d.nextID) < ID_SPACE
    modifies d, d.Owned()
    ensures Ready(d) && Follows(d, old(StateOf(d)), op, StateOf(d))
    ensures d.nextID <= Bound(op, old(d.nextID))
    ensures forall n | n in d.Owned() :: n in old(d.Owned()) || fresh(n)
  {
    hide FiledIn, WellFormed, Tied, TiedUp, TiedDown, Named, Follows, Coherent, Within, Ready, StateOf;
    match op {
      case InsertNode(p, c, index) => Insert(d, p, c, index);
      case DetachNode(p, c) => Detach(d, p, c);
      case ReplaceNodes(p, cs) => Replace(d, p, cs);
      case RemoveNode(id) => Delete(d, id);
      case SetText(id, value) => SetTextOf(d, id, value);
      case PutAttribute(id, name, value) => Put(d, id, name, value);
      case DropAttribute(id, name) => Drop(d, id, name);
      case Restore(snapshot) => RestoreFrom(d, snapshot);
      case _ => Make(d, op);
    }
  }

  // ---------------------------------------------------------------- runs

  /** A new document. */
  ghost predicate New(s: State) {
    && s.shape.parent == map[] && s.shape.children == map[s.root := []] && s.nodes == map[1 := s.root]
    && s.nextID == 2 && s.payloads == map[s.root := BLANK] && s.readyState == "loading"
  }

  /** The states between the edits, from that of a new document on: each follows from the one
      before, and the counter is no higher than the nodes and snapshots so far make it. */
  ghost predicate Runs(d: Document, ops: seq<Operation>, path: seq<State>) {
    && |path| == |ops| + 1 && New(path[0]) && Coherent(d, path[0])
    && (forall i {:trigger ops[i]} :: 0 <= i < |ops| ==> Follows(d, path[i], ops[i], path[i + 1]))
    && (forall i {:trigger ops[..i]} :: 0 <= i <= |ops| ==> path[i].nextID <= BoundAll(ops[..i]))
  }

  lemma RunsMore(d: Document, ops: seq<Operation>, k: nat, path: seq<State>, t: State)
    requires k < |ops| && Runs(d, ops[..k], path) && Follows(d, path[k], ops[k], t)
    requires t.nextID <= Bound(ops[k], path[k].nextID)
    ensures Runs(d, ops[..k + 1], path + [t])
  {
    hide Coherent, Follows, New, Bound;
    var more, longer := ops[..k + 1], path + [t];
    assert more[..k] == ops[..k] && ops[..k][..k] == ops[..k];
    BoundGrows(ops[k], path[k].nextID, BoundAll(ops[..k]));
    forall i | 0 <= i < k + 1
      ensures Follows(d, longer[i], more[i], longer[i + 1])
    {
      if i < k { assert ops[..k][i] == more[i]; }
    }
    forall i | 0 <= i <= k + 1
      ensures longer[i].nextID <= BoundAll(more[..i])
    {
      if i <= k { assert ops[..k][..i] == more[..i]; } else { assert more[..i] == more && more[k] == ops[k]; }
    }
  }

  /** Edit number `k` of a run. */
  method Advance(d: Document, ops: seq<Operation>, k: nat, ghost path: seq<State>) returns (ghost longer: seq<State>)
    requires Ready(d) && k < |ops| && Room(ops) && Runs(d, ops[..k], path) && |path| == k + 1 && path[k] == StateOf(d)
    modifies d, d.Owned()
    ensures Ready(d) && Runs(d, ops[..k + 1], longer) && |longer| == k + 2 && longer[k + 1] == StateOf(d)
    ensures forall n | n in d.Owned() :: n in old(d.Owned()) || fresh(n)
  {
    hide FiledIn, WellFormed, Tied, Named, Follows, Ready, Runs;
    RoomLeft(d, ops, k, path);
    Apply(d, ops[k]);
    RunsMore(d, ops, k, path, StateOf(d));
    longer := path + [StateOf(d)];
  }

  lemma RoomLeft(d: Document, ops: seq<Operation>, k: nat, path: seq<State>)
    requires k < |ops| && Runs(d, ops[..k], path) && |path| == k + 1 && Room(ops)
    ensures Bound(ops[k], path[k].nextID) < ID_SPACE
  {
    hide Coherent, Follows, New, Bound;
    assert ops[..k][..k] == ops[..k];
    RoomBefore(ops, k + 1);
    BoundGrows(ops[k], path[k].nextID, BoundAll(ops[..k]));
    assert ops[..k + 1][..k] == ops[..k];
  }

  lemma RunStarts(d: Document, s: State)
    requires Coherent(d, s) && s.shape.parent == map[] && s.shape.children.Keys == {s.root} && s.nodes.Keys == {1}
    requires s.nodes[1] == s.root && s.nextID == 2 && s.payloads[s.root] == BLANK && s.readyState == "loading"
    ensures Runs(d, [], [s])
  {
    RootAlone(s.shape, s.root);
    assert s.payloads == map[s.root := BLANK];
  }

  method Begin() returns (d: Document, ghost path: seq<State>)
    ensures fresh(d) && Ready(d) && forall n | n in d.Owned() :: fresh(n)
    ensures Runs(d, [], path) && |path| == 1 && path[0] == StateOf(d)
  {
    hide FiledIn, WellFormed, Tied, Named, Indexed, Scan, Coherent, Runs;
    d := new Document();
    path := [StateOf(d)];
    ReadyCoherent(d);
    RunStarts(d, path[0]);
  }

  /** Any edits of a new document, as long as the counter does not run out: every edit is carried
      out exactly when it is allowed, and in every state the document is a forest with an exact
      index. */
  method Run(ops: seq<Operation>) returns (d: Document, ghost path: seq<State>)
    requires Room(ops)
    ensures fresh(d) && Ready(d) && Runs(d, ops, path) && |path| == |ops| + 1 && path[|ops|] == StateOf(d)
  {
    hide FiledIn, WellFormed, Tied, Named, Runs, Room, Indexed, Scan;
    d, path := Begin();
    assert ops[..0] == [];
    for k := 0 to |ops|
      invariant fresh(d) && Ready(d) && forall n | n in d.Owned() :: fresh(n)
      invariant Runs(d, ops[..k], path) && |path| == k + 1 && path[k] == StateOf(d)
    {
      path := Advance(d, ops, k, path);
    }
    assert ops[..|ops|] == ops;
  }

  /** The text of a node on the last level was replaced in edit `j`, and no snapshot has replaced
      the tree since, up to edit `i`. */
  ghost predicate DeepenedAt(ops: seq<Operation>, path: seq<State>, j: nat, i: nat)
    requires i <= |ops| < |path|
  {
    j < i && Deepens(path[j], ops[j]) && forall k :: j < k < i ==> !Replants(ops[k])
  }

  lemma NewWithin(d: Document, s: State)
    requires Coherent(d, s) && New(s)
    ensures WellFormed(s.shape) && Within(s.shape, MAX_TREE_DEPTH)
  {
    assert NodeAgrees(s.shape, s.root);
  }

  lemma DepthKept(d: Document, s: State, op: Operation, t: State)
    requires Follows(d, s, op, t)
    ensures WellFormed(s.shape) && WellFormed(t.shape)
    ensures Within(t.shape, MAX_TREE_DEPTH) || Deepens(s, op) || !(Within(s.shape, MAX_TREE_DEPTH) || Replants(op))
  {
    hide Step, FiledIn;
  }

  /** A tree below the limit always has its depth from the text of a node on the last level. */
  lemma {:induction false} StaysWithin(d: Document, ops: seq<Operation>, path: seq<State>, i: nat)
    requires Runs(d, ops, path) && i <= |ops|
    ensures WellFormed(path[i].shape)
    ensures Within(path[i].shape, MAX_TREE_DEPTH) || exists j: nat :: DeepenedAt(ops, path, j, i)
    decreases i
  {
    hide Follows, Coherent, Bound, BoundAll, Within, Deepens, Replants;
    if i == 0 {
      NewWithin(d, path[0]);
    } else {
      assert Follows(d, path[i - 1], ops[i - 1], path[i]);
      DepthKept(d, path[i - 1], ops[i - 1], path[i]);
      StaysWithin(d, ops, path, i - 1);
      if Deepens(path[i - 1], ops[i - 1]) {
        assert DeepenedAt(ops, path, i - 1, i);
      } else if !Within(path[i].shape, MAX_TREE_DEPTH) {
        var j: nat :| DeepenedAt(ops, path, j, i - 1);
        assert DeepenedAt(ops, path, j, i);
      }
    }
  }

  // ---------------------------------------------------------------- too deep a text

  /** Each node of the chain is the parent of the next. */
  ghost predicate Chained(f: Forest<Node>, chain: seq<Node>) {
    && chain != [] && chain[0] in f.children && chain[0] !in f.parent
    && forall k :: 1 <= k < |chain| ==> chain[k] in f.parent && f.parent[chain[k]] == chain[k - 1]
  }

  lemma {:induction false} ChainDepth(f: Forest<Node>, chain: seq<Node>, i: nat)
    requires WellFormed(f) && i < |chain| && Chained(f, chain)
    ensures chain[i] in f.children && f.depth[chain[i]] == i
    decreases i
  {
    if i == 0 {
      assert NodeAgrees(f, chain[0]);
    } else {
      ChainDepth(f, chain, i - 1);
      assert LinkAgrees(f, chain[i]);
    }
  }

  lemma ChainGrows(f: Forest<Node>, g: Forest<Node>, chain: seq<Node>, next: Node)
    requires WellFormed(f) && Chained(f, chain) && next !in f.children && f.children.Keys <= g.children.Keys
    requires g.parent == f.parent[next := chain[|chain| - 1]]
    ensures Chained(g, chain + [next])
  {
    forall k | 0 <= k < |chain|
      ensures chain[k] != next
    { ChainDepth(f, chain, k); }
  }

  /** A new element may be hung beneath a node above the last level. */
  lemma LoneFits(f: Forest<Node>, p: Node, c: Node)
    requires WellFormed(f) && p in f.children && c !in f.children
    ensures WellFormed(Plant(f, c)) && !Above(Plant(f, c), c, p)
    ensures Fits(Plant(f, c), p, c, MAX_TREE_DEPTH) <==> f.depth[p] < MAX_TREE_DEPTH
  {
    PlantApart(f, c, p);
    forall n | n in f.children
      ensures !Above(Plant(f, c), c, n)
    { PlantApart(f, c, n); }
    assert Above(Plant(f, c), c, c) && Plant(f, c).depth[c] == 0;
  }

  /** It goes to the end of the branch. */
  lemma LoneMoves(f: Forest<Node>, g: Forest<Node>, chain: seq<Node>, p: Node, c: Node)
    requires WellFormed(f) && p in f.children && c !in f.children && f.children[p] == []
    requires Moves(Plant(f, c), g, p, c, 0) && Chained(f, chain) && p == chain[|chain| - 1]
    ensures Chained(g, chain + [c]) && c in g.children && g.children[c] == [] && p != c
  {
    PlantApart(f, c, p);
    DropOnce(Plant(f, c), c);
    ChainGrows(f, g, chain, c);
  }

  lemma RootAlone(f: Forest<Node>, root: Node)
    requires WellFormed(f) && f.parent == map[] && f.children.Keys == {root}
    ensures Chained(f, [root]) && f.children[root] == [] && f.depth[root] == 0
  {
    var s := f.children[root];
    assert s != [] ==> s[0] in s;
    Kids(f, root);
    assert NodeAgrees(f, root);
  }

  /** The tree has a branch of elements from the root down to `last`, which is still empty. */
  ghost predicate Branch(d: Document, chain: seq<Node>, last: Node)
    requires d.Valid()
    reads d, d.Owned()
  {
    && d.root != null && Chained(d.shape, chain) && chain[0] == d.root && last == chain[|chain| - 1]
    && last in d.Owned() && d.shape.children[last] == [] && Within(d.shape, MAX_TREE_DEPTH)
    && last.kind in {DOCUMENT, ELEMENT}
  }

  lemma MayNest(d: Document, f: Forest<Node>, last: Node, next: Node)
    requires d.Valid() && WellFormed(f) && d.shape == Plant(f, next) && next !in f.children
    requires last in f.children && f.depth[last] < MAX_TREE_DEPTH && last.kind in {DOCUMENT, ELEMENT} && next != d.root
    ensures d.InsertVerdict(last, next, 0) == Done
  {
    LoneFits(f, last, next);
    assert last in d.Owned() && next in d.Owned();
  }

  lemma BranchEnds(d: Document, chain: seq<Node>, last: Node)
    requires d.Valid() && Branch(d, chain, last)
    ensures |chain| > 0 && last in d.Owned() && d.shape.depth[last] == |chain| - 1
  {
    hide FiledIn, Tied, Named, Indexed, Scan;
    ChainDepth(d.shape, chain, |chain| - 1);
  }

  lemma BranchGrows(d: Document, f: Forest<Node>, chain: seq<Node>, last: Node, next: Node)
    requires WellFormed(f) && Chained(f, chain) && last == chain[|chain| - 1] && f.children[last] == []
    requires d.Valid() && d.root == chain[0] && next !in f.children && next.kind == ELEMENT
    requires last in f.children && Moves(Plant(f, next), d.shape, last, next, 0)
    requires Within(d.shape, MAX_TREE_DEPTH)
    ensures Branch(d, chain + [next], next)
  {
    hide FiledIn, Tied, Named, Indexed, Scan, Within, Moves, Plant, Chained;
    assert |chain| > 0 by { ChainStarts(f, chain); }
    LoneMoves(f, d.shape, chain, last, next);
  }

  lemma ChainStarts(f: Forest<Node>, chain: seq<Node>)
    requires Chained(f, chain)
    ensures |chain| > 0
  {
  }

  /** Hangs a new element beneath the end of the branch. */
  method Nest(d: Document, last: Node, ghost chain: seq<Node>) returns (next: Node)
    requires d.Valid() && d.Fresh() && d.nextID + 1 < ID_SPACE && Branch(d, chain, last) && |chain| <= MAX_TREE_DEPTH
    modifies d`byID, d`shape, d`ids, d`nodes, d`nextID, d.Owned()
    ensures d.Valid() && d.Fresh() && d.nextID == old(d.nextID) + 1
    ensures Branch(d, chain + [next], next) && next.kind == ELEMENT
    ensures forall n | n in d.Owned() :: n in old(d.Owned()) || fresh(n)
  {
    hide FiledIn, Tied, TiedUp, TiedDown, Named, Indexed, Scan, Chained, Moves, InsertVerdictIn, Above;
    ghost var f := d.shape;
    BranchEnds(d, chain, last);
    next := d.CreateElement("div", map[]);
    MayNest(d, f, last, next);
    var r := d.InsertChild(last, next, 0);
    BranchGrows(d, f, chain, last, next);
  }

  /** 256 elements, one inside the other, and then a text: the text lies on level 257. */
  method DeepText() returns (d: Document)
    ensures d.Valid() && !Within(d.shape, MAX_TREE_DEPTH)
  {
    d := new Document();
    var last: Node := d.root;
    ghost var chain := [last];
    RootAlone(d.shape, last);
    for k := 0 to MAX_TREE_DEPTH
      invariant fresh(d) && d.Valid() && d.Fresh() && d.nextID == k + 2
      invariant forall n | n in d.Owned() :: fresh(n)
      invariant |chain| == k + 1 && Branch(d, chain, last) && (k > 0 ==> last.kind == ELEMENT)
    {
      last := Nest(d, last, chain);
      chain := chain + [last];
    }
    ChainDepth(d.shape, chain, MAX_TREE_DEPTH);
    var ok := d.SetTextContent(last.id, "");
  }
}
