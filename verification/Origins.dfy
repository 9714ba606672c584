/** The origin that a page's address shows, over whole runs of one tab. */
module Origins {
  import opened Options
  import opened SessionHistory
  import opened Navigation
  import opened Browsing

  /** The entries of one page have one origin. */
  predicate OneOrigin(h: Hist) {
    forall i, j :: 0 <= i < |h.entries| && 0 <= j < |h.entries| && h.entries[i].pageID == h.entries[j].pageID ==>
      h.entries[i].url.base.origin == h.entries[j].url.base.origin
  }

  /** A traversal to one of several entries of a page ends, by a redirect, at another origin. */
  predicate Mixes(w: World, a: Action)
    requires Sane(w) && Enabled(w, a) && !Panics(w, a)
  {
    && a.CommitPage? && w.tasks[a.t].nav == w.b.navigationID && w.tasks[a.t].commit.Traverse?
    && var entries, k := w.b.hist.entries, w.tasks[a.t].index;
       && a.url.base.origin != entries[k].url.base.origin
       && exists i :: 0 <= i < |entries| && i != k && entries[i].pageID == entries[k].pageID
  }

  /** An entry of a page of its own, or of the current page and with its origin, may be added. */
  predicate Joins(h: Hist, e: Entry) {
    forall i :: 0 <= i < |h.entries| && h.entries[i].pageID == e.pageID ==>
      h.entries[i].url.base.origin == e.url.base.origin
  }

  lemma PushOrigin(h: Hist, e: Entry)
    requires -1 <= h.index && OneOrigin(h) && Joins(h, e)
    ensures OneOrigin(Pushed(h, e))
  {
    var g := Pushed(h, e).entries;
    forall i | 0 <= i < |g| - 1
      ensures g[i] in h.entries
    { }
    forall i, j | 0 <= i < |g| && 0 <= j < |g| && g[i].pageID == g[j].pageID
      ensures g[i].url.base.origin == g[j].url.base.origin
    {
      assert i == |g| - 1 || g[i] in h.entries;
      assert j == |g| - 1 || g[j] in h.entries;
    }
  }

  lemma ReplaceOrigin(h: Hist, e: Entry)
    requires -1 <= h.index && OneOrigin(h) && Joins(h, e)
    ensures OneOrigin(Replaced(h, e))
  {
    if !(0 <= h.index < |h.entries|) { PushOrigin(h, e); }
  }

  /** What the current page adds joins its other entries. */
  lemma CurrentJoins(s: State, e: Entry)
    requires Mirrored(s) && OneOrigin(s.hist) && s.live.Some? && s.live.value.url.Some?
    requires e.pageID == s.live.value.historyID && e.url.base.origin == s.live.value.url.value.base.origin
    ensures Joins(s.hist, e)
  {
    var c := s.hist.entries[s.hist.index];
    assert c.url.base.origin == e.url.base.origin && c.pageID == e.pageID;
  }

  /** A traversal's commit keeps one origin for each page exactly unless it mixes them. */
  lemma TraverseOrigin(h: Hist, index: nat, url: Address, pageID: nat)
    requires -1 <= h.index && index < |h.entries| <= MAX_HISTORY_ENTRIES && OneOrigin(h)
    requires forall i :: 0 <= i < |h.entries| ==> 0 < h.entries[i].pageID < pageID
    ensures OneOrigin(CommittedHistory(h, Traverse, index, url, pageID))
      <==> url.base.origin == h.entries[index].url.base.origin
           || forall i :: 0 <= i < |h.entries| && i != index ==> h.entries[i].pageID != h.entries[index].pageID
  {
    var g := CommittedHistory(h, Traverse, index, url, pageID).entries;
    TraverseKeeps(h, index, url, pageID);
    forall i | 0 <= i < |g| && i != index
      ensures g[i].url == h.entries[i].url
      ensures g[i].pageID == pageID <==> h.entries[i].pageID == h.entries[index].pageID
    { }
    if OneOrigin(Hist(g, index)) {
      forall i | 0 <= i < |g| && i != index && h.entries[i].pageID == h.entries[index].pageID
        ensures url.base.origin == h.entries[index].url.base.origin
      { assert g[i].pageID == g[index].pageID; }
    }
  }

  lemma CommitOrigin(w: World, a: Action)
    requires Inv(w) && OneOrigin(w.b.hist) && Enabled(w, a) && !Panics(w, a) && a.CommitPage?
    ensures OneOrigin(Do(w, a).b.hist) <==> !Mixes(w, a)
  {
    hide Pushed, Replaced, StateBytes, Ordered, Published, Accounted, Owned;
    var k := w.tasks[a.t];
    var h, id := w.b.hist, w.b.nextPageID + 1;
    assert forall i :: 0 <= i < |h.entries| ==> h.entries[i] in h.entries;
    if k.nav == w.b.navigationID {
      match k.commit
      case Push => PushOrigin(h, Entry(a.url, "", false, id, TOP));
      case Traverse => TraverseOrigin(h, k.index, a.url, id);
      case Replace =>
        var e := Successor(h, Replace, k.index);
        ReplaceOrigin(h.(index := k.index), Entry(a.url, if e.Some? then e.value.state else "", false, id, TOP));
    }
  }

  lemma SetOrigin(s: State, live: Option<Live>)
    ensures OneOrigin(PageSet(s, live).hist) && OneOrigin(EMPTY)
  {
  }

  /** Every other section keeps one origin for each page. */
  lemma OtherOrigin(w: World, a: Action)
    requires Inv(w) && OneOrigin(w.b.hist) && Enabled(w, a) && !Panics(w, a) && !a.CommitPage?
    ensures OneOrigin(Do(w, a).b.hist)
  {
    hide Pushed, Replaced, StateBytes, Ordered, Published, Accounted, Owned, OneOrigin, PageSet;
    match a
    case SetPage(_, live) => SetOrigin(w.b, live);
    case Close(_) => SetOrigin(w.b, None);
    case Travel(_, delta) => SameEntries(w.b.hist, Do(w, a).b.hist);
    case Jump(to) =>
      if MayJump(w.b, to) {
        CurrentJoins(w.b, SamePage(w.b, to, ""));
        PushOrigin(w.b.hist, SamePage(w.b, to, ""));
      }
    case PushEntry(source, target, state, ok) =>
      if MayPush(w.b, source, target, state, ok) {
        CurrentJoins(w.b, SamePage(w.b, target.value, state));
        PushOrigin(w.b.hist, SamePage(w.b, target.value, state));
      }
    case ReplaceEntry(source, target, state, ok) =>
      if MayReplace(w.b, source, target, state, ok) {
        CurrentJoins(w.b, SamePage(w.b, target.value, state));
        ReplaceOrigin(w.b.hist, SamePage(w.b, target.value, state));
      }
    case ScrollTo(_) => SameEntries(w.b.hist, Do(w, a).b.hist);
    case CommitPage(_, _, _) => assert false;
    case _ => SameEntries(w.b.hist, Do(w, a).b.hist);
  }

  lemma SameEntries(h: Hist, g: Hist)
    requires OneOrigin(h) && |g.entries| == |h.entries|
    requires forall i :: 0 <= i < |h.entries| ==>
      g.entries[i].pageID == h.entries[i].pageID && g.entries[i].url == h.entries[i].url
    ensures OneOrigin(g)
  {
  }

  /** A section leaves each page with one origin exactly when it does not mix origins. */
  lemma MixesExactly(w: World, a: Action)
    requires Inv(w) && OneOrigin(w.b.hist) && Enabled(w, a) && !Panics(w, a)
    ensures OneOrigin(Do(w, a).b.hist) <==> !Mixes(w, a)
  {
    if a.CommitPage? { CommitOrigin(w, a); } else { OtherOrigin(w, a); }
  }

  /** No step of the run mixes origins. */
  predicate Unmixed(w: World, actions: seq<Action>)
    requires Runs(w, actions)
    decreases |actions|
  {
    actions == [] || (!Mixes(w, actions[0]) && Unmixed(Do(w, actions[0]), actions[1..]))
  }

  lemma {:induction false} UnmixedKeeps(w: World, actions: seq<Action>)
    requires Inv(w) && OneOrigin(w.b.hist) && Runs(w, actions) && Unmixed(w, actions)
    ensures Inv(After(w, actions)) && OneOrigin(After(w, actions).b.hist)
    decreases |actions|
  {
    if actions != [] {
      StepInv(w, actions[0]);
      MixesExactly(w, actions[0]);
      UnmixedKeeps(Do(w, actions[0]), actions[1..]);
    }
  }

  /** The action publishes another page, or none. */
  predicate Publishes(a: Action) {
    a.CommitPage? || a.SetPage? || a.Close?
  }

  /** Page and origin are those of before. */
  predicate Stays(w: World, v: World) {
    && w.b.live.Some? && w.b.live.value.url.Some? && v.b.live.Some? && v.b.live.value.url.Some?
    && v.b.live.value.page == w.b.live.value.page
    && v.b.live.value.url.value.base.origin == w.b.live.value.url.value.base.origin
  }

  /** Every entry of the current page has the origin that the page shows. */
  predicate AtHome(s: State) {
    && s.live.Some? && s.live.value.url.Some?
    && forall i :: 0 <= i < |s.hist.entries| && s.hist.entries[i].pageID == s.live.value.historyID ==>
         s.hist.entries[i].url.base.origin == s.live.value.url.value.base.origin
  }

  lemma OneIsHome(s: State)
    requires Mirrored(s) && OneOrigin(s.hist) && s.live.Some? && s.live.value.url.Some?
    ensures AtHome(s)
  {
    var c := s.hist.entries[s.hist.index];
    assert c.pageID == s.live.value.historyID && c.url == s.live.value.url.value;
  }

  /** An entry of the current page with its origin takes the place of others, or joins them. */
  lemma EntryAtHome(s: State, t: State, e: Entry)
    requires AtHome(s) && t.live.Some? && t.live.value.url.Some? && t.live.value.historyID == s.live.value.historyID
    requires t.live.value.url.value.base.origin == s.live.value.url.value.base.origin == e.url.base.origin
    requires -1 <= s.hist.index && (t.hist == Pushed(s.hist, e) || t.hist == Replaced(s.hist, e))
    ensures AtHome(t)
  {
    PushedEntries(s.hist, e);
    ReplacedEntries(s.hist, e);
    forall i | 0 <= i < |t.hist.entries| && t.hist.entries[i].pageID == t.live.value.historyID
      ensures t.hist.entries[i].url.base.origin == t.live.value.url.value.base.origin
    { assert t.hist.entries[i] == e || t.hist.entries[i] in s.hist.entries; }
  }

  lemma StepAtHome(w: World, a: Action)
    requires Inv(w) && AtHome(w.b) && Enabled(w, a) && !Panics(w, a) && !Publishes(a)
    ensures AtHome(Do(w, a).b) && Stays(w, Do(w, a))
  {
    hide Pushed, Replaced, StateBytes, Kept, Ordered, Published, Accounted, Owned;
    match a
    case Travel(_, _) => Travels(w, a);
    case Jump(to) =>
      if MayJump(w.b, to) { EntryAtHome(w.b, Do(w, a).b, SamePage(w.b, to, "")); }
    case PushEntry(source, target, state, ok) =>
      if MayPush(w.b, source, target, state, ok) {
        EntryAtHome(w.b, Do(w, a).b, SamePage(w.b, target.value, state));
      }
    case ReplaceEntry(source, target, state, ok) =>
      if MayReplace(w.b, source, target, state, ok) {
        EntryAtHome(w.b, Do(w, a).b, SamePage(w.b, target.value, state));
      }
    case _ =>
  }

  lemma {:induction false} OriginStays(w: World, actions: seq<Action>)
    requires Inv(w) && AtHome(w.b) && Runs(w, actions) && forall a <- actions :: !Publishes(a)
    ensures Stays(w, After(w, actions))
    decreases |actions|
  {
    hide Inv, AtHome, Do, Enabled, Panics, Sane;
    if actions == [] {
      assert Stays(w, w) by { HomeStays(w); }
    } else {
      HomeSane(w);
      StepAtHome(w, actions[0]);
      StepInv(w, actions[0]);
      OriginStays(Do(w, actions[0]), actions[1..]);
    }
  }

  lemma HomeStays(w: World)
    requires AtHome(w.b)
    ensures Stays(w, w)
  {
  }

  lemma HomeSane(w: World)
    requires Inv(w)
    ensures Sane(w)
  {
  }

  /** As long as nothing is published, the page keeps the origin that its address shows, whatever
      happens and traversals included, exactly when all its entries have that origin. */
  lemma OriginStaysExactly(w: World)
    requires Inv(w) && w.b.live.Some? && w.b.live.value.url.Some?
    ensures AtHome(w.b)
      <==> forall actions | Runs(w, actions) && (forall a <- actions :: !Publishes(a)) :: Stays(w, After(w, actions))
  {
    hide Inv, AtHome, Stays, Runs, After, Publishes;
    if AtHome(w.b) {
      forall actions | Runs(w, actions) && (forall a <- actions :: !Publishes(a))
        ensures Stays(w, After(w, actions))
      { OriginStays(w, actions); }
    } else {
      var a := Strays(w);
      assert forall b <- [a] :: !Publishes(b);
    }
  }

  /** A traversal to an entry of the current page with another origin. */
  lemma Strays(w: World) returns (a: Action)
    requires Inv(w) && w.b.live.Some? && w.b.live.value.url.Some? && !AtHome(w.b)
    ensures !Publishes(a) && Runs(w, [a]) && !Stays(w, After(w, [a]))
  {
    hide Published, Accounted, Owned, Ordered, StateBytes;
    var entries, id := w.b.hist.entries, w.b.live.value.historyID;
    var i :| 0 <= i < |entries| && entries[i].pageID == id
             && entries[i].url.base.origin != w.b.live.value.url.value.base.origin;
    a := Travel(Unused(w), i - w.b.hist.index);
    Travels(w, a);
    NoSteps(Do(w, a));
    assert [a][1..] == [];
  }

  /** A number that no task has. */
  ghost function Unused(w: World): (t: nat)
    ensures t !in w.tasks
  {
    Above(w.tasks.Keys)
  }

  ghost function Above(s: set<nat>): (t: nat)
    ensures forall x | x in s :: x < t
  {
    if s == {} then 0 else
      var x :| x in s;
      var rest := Above(s - {x});
      assert forall y | y in s :: y == x || y in s - {x};
      if rest <= x then x + 1 else rest
  }

  /** So it is after any run of a new tab in which no traversal has mixed origins. */
  lemma OriginStaysInRuns(engine: Engine, before: seq<Action>, actions: seq<Action>)
    requires Runs(Initial(engine), before) && Unmixed(Initial(engine), before)
    requires Runs(After(Initial(engine), before), actions) && forall a <- actions :: !Publishes(a)
    requires var l := After(Initial(engine), before).b.live; l.Some? && l.value.url.Some?
    ensures Stays(After(Initial(engine), before), After(After(Initial(engine), before), actions))
  {
    InitialInv(engine);
    UnmixedKeeps(Initial(engine), before);
    OneIsHome(After(Initial(engine), before).b);
    OriginStays(After(Initial(engine), before), actions);
  }

  /** A page pushes a state and another page is visited; the way back to the second entry is
      redirected to another origin; one step further back, the page that came from there shows an
      address of the first page's origin. */
  lemma OriginCanChange(p: Page, q: Page, r: Page, u: Address, x: Address, y: Address)
    returns (actions: seq<Action>, w: World, v: World)
    requires !u.base.user && u.base.origin.Some? && |u.text| <= MAX_HISTORY_URL_BYTES
    requires y.base.origin != u.base.origin
    ensures Runs(Initial("go"), actions) && w == After(Initial("go"), actions)
    ensures Enabled(w, Travel(3, -1)) && Sane(w) && v == Do(w, Travel(3, -1))
    ensures w.b.live.Some? && w.b.live.value.page == r && w.b.live.value.url == Some(y)
    ensures v.b.live.Some? && v.b.live.value.page == r && v.b.live.value.url == Some(u)
  {
    hide Runs, After;
    var start := Initial("go");
    actions, w := StateOfPage(p, u);
    actions, w := Visit(start, actions, w, 1, q, x);
    assert w.b.hist == Hist([Visited(u, 1), Entry(u, "1", true, 1, TOP), Visited(x, 2)], 2);
    actions, w := Aim(start, actions, w, 2, -1);
    actions, w := Extend(start, actions, w, CommitPage(2, r, y));
    assert w.b.hist == Hist([Visited(u, 3), Entry(y, "1", false, 3, TOP), Visited(x, 2)], 1);
    v := Do(w, Travel(3, -1));
  }
}
