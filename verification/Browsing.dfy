/** Runs of one tab: navigations, history edits and page or engine changes interleaved at every
    section under the browser's lock, and the hand-over of runtimes between them. */
module Browsing {
  import opened SessionHistory
  import opened Navigation
  import opened Options

  /** What one goroutine is about to do. */
  datatype Task =
    | Chosen(commit: Commit, index: int)                               // a load is decided on
    | Loading(nav: nat, commit: Commit, index: int)                    // fetching the document
    | Swapped(nav: nat, page: Page, previous: Option<Runtime>)              // page published, the old runtime to stop
    | Scripting(nav: nat, page: Page)                                  // fetching scripts
    | Started(nav: nat, page: Page, made: Option<Runtime>)             // runtime started, not yet installed
    | Stopping(held: Option<Runtime>)                                  // a runtime to stop, nothing else
    | Done

  datatype World = World(
    b: State, tasks: map<nat, Task>, started: set<Runtime>, stops: multiset<Runtime>, owner: map<Runtime, Page>)

  datatype Action =
    | Decide(t: nat)
    | Travel(t: nat, delta: int)
    | Reload(t: nat)
    | Begin(t: nat)
    | GiveUp(t: nat)
    | CommitPage(t: nat, page: Page, url: Address)
    | StopOld(t: nat)
    | Launch(t: nat, made: Option<Runtime>)
    | LaunchFails(t: nat, broken: Runtime)
    | Install(t: nat)
    | StopHeld(t: nat)
    | SetEngine(t: nat, engine: Engine)
    | SetPage(t: nat, live: Option<Live>)
    | Close(t: nat)
    | Jump(to: Address)
    | PushEntry(source: Page?, target: Option<Address>, state: string, wellFormed: bool)
    | ReplaceEntry(source: Page?, target: Option<Address>, state: string, wellFormed: bool)
    | ScrollTo(scroll: Scroll)

  function Holds(k: Task): Option<Runtime> {
    match k
    case Swapped(_, _, previous) => previous
    case Started(_, _, made) => made
    case Stopping(held) => held
    case _ => None
  }

  function Stopped(stops: multiset<Runtime>, r: Option<Runtime>): multiset<Runtime> {
    if r.None? then stops else stops + multiset{r.value}
  }

  predicate Enabled(w: World, a: Action) {
    match a
    case Decide(t) => t !in w.tasks
    case Travel(t, _) => t !in w.tasks
    case Reload(t) => t !in w.tasks && w.b.live.Some? && w.b.live.value.url.Some?
    case Begin(t) => t in w.tasks && w.tasks[t].Chosen?
    case GiveUp(t) => t in w.tasks && (w.tasks[t].Chosen? || w.tasks[t].Loading? || w.tasks[t].Scripting?)
    case CommitPage(t, _, _) => t in w.tasks && w.tasks[t].Loading?
    case StopOld(t) => t in w.tasks && w.tasks[t].Swapped?
    case Launch(t, made) => t in w.tasks && w.tasks[t].Scripting? && (made.Some? ==> made.value !in w.started)
    case LaunchFails(t, made) => t in w.tasks && w.tasks[t].Scripting? && made !in w.started
    case Install(t) => t in w.tasks && w.tasks[t].Started?
    case StopHeld(t) => t in w.tasks && w.tasks[t].Stopping?
    case SetEngine(t, _) => t !in w.tasks
    case SetPage(t, _) => t !in w.tasks
    case Close(t) => t !in w.tasks
    case _ => true
  }

  /** The commit of a traversal looks its entry up without a bounds check. */
  predicate Panics(w: World, a: Action)
    requires Enabled(w, a)
  {
    && a.CommitPage? && w.tasks[a.t].nav == w.b.navigationID && w.tasks[a.t].commit.Traverse?
    && !(0 <= w.tasks[a.t].index < |w.b.hist.entries|)
  }

  /** Indices are never negative where they are used. */
  predicate Sane(w: World) {
    && -1 <= w.b.hist.index
    && forall t | t in w.tasks :: w.tasks[t].Chosen? || w.tasks[t].Loading? ==>
         w.tasks[t].commit.Push? || 0 <= w.tasks[t].index
  }

  function Put(w: World, b: State, t: nat, k: Task): World {
    w.(b := b, tasks := w.tasks[t := k])
  }

  function Do(w: World, a: Action): World
    requires Enabled(w, a) && !Panics(w, a) && Sane(w)
  {
    match a
    case Decide(t) => Put(w, w.b, t, Chosen(Push, -1))
    case Travel(t, delta) =>
      if StaysOnPage(w.b, delta) then Put(w, Moved(w.b, delta), t, Done)
      else if 0 <= w.b.hist.index + delta < |w.b.hist.entries|
        then Put(w, w.b, t, Chosen(Traverse, w.b.hist.index + delta))
      else Put(w, w.b, t, Done)
    case Reload(t) => Put(w, w.b, t, if 0 <= w.b.hist.index then Chosen(Replace, w.b.hist.index) else Done)
    case Begin(t) => Put(w, Begun(w.b), t, Loading(w.b.navigationID + 1, w.tasks[t].commit, w.tasks[t].index))
    case GiveUp(t) => Put(w, w.b, t, Done)
    case CommitPage(t, page, url) =>
      var k := w.tasks[t];
      if k.nav == w.b.navigationID
        then Put(w, Committed(w.b, page, url, k.commit, k.index), t, Swapped(k.nav, page, w.b.runtime))
      else Put(w, w.b, t, Done)
    case StopOld(t) =>
      Put(w, w.b, t, Scripting(w.tasks[t].nav, w.tasks[t].page)).(stops := Stopped(w.stops, w.tasks[t].previous))
    case Launch(t, made) =>
      var v := Put(w, w.b, t, Started(w.tasks[t].nav, w.tasks[t].page, made));
      if made.None? then v else v.(started := w.started + {made.value}, owner := w.owner[made.value := w.tasks[t].page])
    case LaunchFails(t, made) =>
      Put(w, w.b, t, Started(w.tasks[t].nav, w.tasks[t].page, None))
        .(started := w.started + {made}, owner := w.owner[made := w.tasks[t].page],
          stops := Stopped(w.stops, Some(made)))
    case Install(t) =>
      var k := w.tasks[t];
      if MayInstall(w.b, k.nav, k.page) then Put(w, Installed(w.b, k.made), t, Done)
      else Put(w, w.b, t, Stopping(k.made))
    case StopHeld(t) => Put(w, w.b, t, Done).(stops := Stopped(w.stops, w.tasks[t].held))
    case SetEngine(t, engine) =>
      if engine == w.b.engine then Put(w, w.b, t, Done) else Put(w, EngineSet(w.b, engine), t, Stopping(w.b.runtime))
    case SetPage(t, live) => Put(w, PageSet(w.b, live), t, Stopping(w.b.runtime))
    case Close(t) => Put(w, Closed(w.b), t, Stopping(w.b.runtime))
    case Jump(target) => if MayJump(w.b, target) then w.(b := Jumped(w.b, target)) else w
    case PushEntry(source, target, state, ok) =>
      if MayPush(w.b, source, target, state, ok) then w.(b := StatePushed(w.b, target.value, state)) else w
    case ReplaceEntry(source, target, state, ok) =>
      if MayReplace(w.b, source, target, state, ok) then w.(b := StateReplaced(w.b, target.value, state)) else w
    case ScrollTo(scroll) => if MayScroll(w.b) then w.(b := Scrolled(w.b, scroll)) else w
  }

  function Initial(engine: Engine): World {
    World(State(engine, None, None, 0, 0, EMPTY), map[], {}, multiset{}, map[])
  }

  // ---------------------------------------------------------------- the history mirrors the page

  /** The current entry is the one of the current page; without a page that has a URL there is
      no history. */
  predicate Mirrors(s: State) {
    if s.live.None? || s.live.value.url.None? then s.hist == EMPTY
    else
      && CurrentEntry(s.hist).Some?
      && CurrentEntry(s.hist).value.url == s.live.value.url.value
      && CurrentEntry(s.hist).value.pageID == s.live.value.historyID
  }

  predicate Numbered(s: State) {
    && (forall e | e in s.hist.entries :: 0 < e.pageID <= s.nextPageID)
    && (s.live.Some? ==> 0 < s.live.value.historyID <= s.nextPageID)
  }

  predicate Mirrored(s: State) {
    && InRange(s.hist) && Mirrors(s) && Numbered(s)
    && |s.hist.entries| <= MAX_HISTORY_ENTRIES && StateBytes(s.hist.entries) <= MAX_HISTORY_SESSION_STATE_BYTES
  }

  /** Every state change that a section of the browser can make. */
  lemma MovedMirrored(s: State, delta: int)
    requires Mirrored(s) && StaysOnPage(s, delta)
    ensures Mirrored(Moved(s, delta))
  {
  }

  lemma PushMirrored(s: State, t: State, e: Entry)
    requires Mirrored(s) && t.hist == Pushed(s.hist, e) && s.nextPageID <= t.nextPageID && 0 < e.pageID <= t.nextPageID
    requires StateBytes(Kept(s.hist)) + |e.state| <= MAX_HISTORY_SESSION_STATE_BYTES
    requires t.live.Some? && t.live.value.url == Some(e.url) && t.live.value.historyID == e.pageID
    ensures Mirrored(t)
  {
    PushKeeps(s.hist, e);
    PushBytes(s.hist, e);
    PushedEntries(s.hist, e);
  }

  lemma PushedEntries(h: Hist, e: Entry)
    requires -1 <= h.index
    ensures forall x | x in Pushed(h, e).entries :: x == e || x in h.entries
  {
  }

  lemma ReplacedEntries(h: Hist, e: Entry)
    requires -1 <= h.index
    ensures forall x | x in Replaced(h, e).entries :: x == e || x in h.entries
  {
    PushedEntries(h, e);
  }

  lemma KeptBytes(h: Hist)
    requires -1 <= h.index
    ensures StateBytes(Kept(h)) <= StateBytes(h.entries)
  {
    StateBytesSplit(Kept(h), h.entries[|Kept(h)|..]);
    assert Kept(h) + h.entries[|Kept(h)|..] == h.entries;
  }

  lemma ReplaceMirrored(s: State, t: State, h: Hist, e: Entry)
    requires Mirrored(s) && |h.entries| == |s.hist.entries| && 0 <= h.index
    requires forall x | x in h.entries :: 0 < x.pageID <= t.nextPageID
    requires 0 < e.pageID <= t.nextPageID && t.hist == Replaced(h, e)
    requires BytesReplaced(h, e.state) <= MAX_HISTORY_SESSION_STATE_BYTES
    requires t.live.Some? && t.live.value.url == Some(e.url) && t.live.value.historyID == e.pageID
    ensures Mirrored(t)
  {
    ReplaceKeeps(h, e);
    ReplacedEntries(h, e);
  }

  lemma TraversedMirrored(s: State, page: Page, url: Address, index: nat)
    requires Mirrored(s) && index < |s.hist.entries|
    ensures Mirrored(Committed(s, page, url, Traverse, index))
  {
    var t, e, moved := Committed(s, page, url, Traverse, index), s.hist.entries[index], s.hist.(index := index);
    var h := Rebound(moved, e.pageID, t.nextPageID);
    ReboundKeeps(moved, e.pageID, t.nextPageID);
    ReboundIDs(moved, e.pageID, t.nextPageID);
    assert h.entries[index].state == e.state;
    ReplaceMirrored(s, t, h, Entry(url, e.state, false, t.nextPageID, e.scroll));
  }

  lemma ReboundIDs(h: Hist, previous: nat, current: nat)
    requires forall x | x in h.entries :: 0 < x.pageID <= current
    requires 0 < current
    ensures forall x | x in Rebound(h, previous, current).entries :: 0 < x.pageID <= current
  {
    forall x | x in Rebound(h, previous, current).entries
      ensures 0 < x.pageID <= current
    {
      var g := Rebound(h, previous, current);
      var i :| 0 <= i < |g.entries| && g.entries[i] == x;
      assert h.entries[i] in h.entries;
    }
  }

  lemma CommittedMirrored(s: State, page: Page, url: Address, commit: Commit, index: int)
    requires Mirrored(s) && (commit.Traverse? ==> index < |s.hist.entries|) && (!commit.Push? ==> 0 <= index)
    ensures Mirrored(Committed(s, page, url, commit, index))
  {
    var t := Committed(s, page, url, commit, index);
    match commit
    case Push =>
      KeptBytes(s.hist);
      PushMirrored(s, t, Entry(url, "", false, t.nextPageID, TOP));
    case Traverse =>
      TraversedMirrored(s, page, url, index);
    case Replace =>
      var e := Successor(s.hist, commit, index);
      ReplaceMirrored(s, t, s.hist.(index := index),
                      Entry(url, if e.Some? then e.value.state else "", false, t.nextPageID, TOP));
  }

  lemma JumpedMirrored(s: State, target: Address)
    requires Mirrored(s) && MayJump(s, target)
    ensures Mirrored(Jumped(s, target))
  {
    KeptBytes(s.hist);
    PushMirrored(s, Jumped(s, target), SamePage(s, target, ""));
  }

  lemma StatePushedMirrored(s: State, source: Page?, target: Option<Address>, state: string, ok: bool)
    requires Mirrored(s) && MayPush(s, source, target, state, ok)
    ensures Mirrored(StatePushed(s, target.value, state))
  {
    PushMirrored(s, StatePushed(s, target.value, state), SamePage(s, target.value, state));
  }

  lemma StateReplacedMirrored(s: State, source: Page?, target: Option<Address>, state: string, ok: bool)
    requires Mirrored(s) && MayReplace(s, source, target, state, ok)
    ensures Mirrored(StateReplaced(s, target.value, state))
  {
    ReplaceMirrored(s, StateReplaced(s, target.value, state), s.hist, SamePage(s, target.value, state));
  }

  lemma ScrolledMirrored(s: State, scroll: Scroll)
    requires Mirrored(s) && MayScroll(s)
    ensures Mirrored(Scrolled(s, scroll))
  {
    SameStates(s.hist.entries, Scrolled(s, scroll).hist.entries);
  }

  lemma StepMirrors(w: World, a: Action)
    requires Enabled(w, a) && !Panics(w, a) && Sane(w) && Mirrored(w.b)
    ensures Mirrored(Do(w, a).b)
  {
    match a
    case Travel(t, delta) => if StaysOnPage(w.b, delta) { MovedMirrored(w.b, delta); }
    case CommitPage(t, page, url) =>
      if w.tasks[t].nav == w.b.navigationID { CommittedMirrored(w.b, page, url, w.tasks[t].commit, w.tasks[t].index); }
    case SetPage(t, live) => PageSetMirrored(w.b, live);
    case Jump(to) => if MayJump(w.b, to) { JumpedMirrored(w.b, to); }
    case PushEntry(source, target, state, ok) =>
      if MayPush(w.b, source, target, state, ok) { StatePushedMirrored(w.b, source, target, state, ok); }
    case ReplaceEntry(source, target, state, ok) =>
      if MayReplace(w.b, source, target, state, ok) { StateReplacedMirrored(w.b, source, target, state, ok); }
    case ScrollTo(scroll) => if MayScroll(w.b) { ScrolledMirrored(w.b, scroll); }
    case _ =>
  }

  lemma PageSetMirrored(s: State, live: Option<Live>)
    ensures Mirrored(PageSet(s, live))
  {
    var t := PageSet(s, live);
    if live.Some? && live.value.url.Some? {
      var e := Entry(live.value.url.value, "", false, s.nextPageID + 1, TOP);
      FirstEntry(e);
      OneMirrored(t, e);
    } else {
      NoneMirrored(t);
    }
  }

  lemma NoneMirrored(t: State)
    requires t.hist == EMPTY && (t.live.Some? ==> t.live.value.url.None? && 0 < t.live.value.historyID <= t.nextPageID)
    ensures Mirrored(t)
  {
  }

  lemma OneMirrored(t: State, e: Entry)
    requires t.hist == Hist([e], 0) && e.state == "" && 0 < e.pageID <= t.nextPageID
    requires t.live.Some? && t.live.value.url == Some(e.url) && t.live.value.historyID == e.pageID
    ensures Mirrored(t)
  {
    FirstEntry(e);
  }

  lemma FirstEntry(e: Entry)
    ensures Pushed(EMPTY, e) == Hist([e], 0) && StateBytes([e]) == |e.state|
  {
    assert [e][..0] == [];
  }

  lemma StepSane(w: World, a: Action)
    requires Enabled(w, a) && !Panics(w, a) && Sane(w) && Mirrored(w.b)
    ensures Sane(Do(w, a))
  {
    hide Pushed, Replaced, StateBytes, Moved, Committed, Jumped, StatePushed, StateReplaced, Scrolled;
    hide PageSet, MayJump, MayPush, MayReplace, MayScroll, StaysOnPage, Numbered, Mirrors;
    StepMirrors(w, a);
  }

  // ---------------------------------------------------------------- one runtime, one owner

  /** The navigation a task belongs to, if it has begun one. */
  function NavOf(k: Task): nat {
    match k
    case Loading(nav, _, _) => nav
    case Swapped(nav, _, _) => nav
    case Scripting(nav, _) => nav
    case Started(nav, _, _) => nav
    case _ => 0
  }

  predicate Begins(k: Task) {
    k.Loading? || k.Swapped? || k.Scripting? || k.Started?
  }

  /** Every navigation has its own number, none above the counter. */
  predicate Ordered(w: World) {
    && (forall t | t in w.tasks :: Begins(w.tasks[t]) ==> 0 < NavOf(w.tasks[t]) <= w.b.navigationID)
    && (forall t, u | t in w.tasks && u in w.tasks && t != u ::
          NavOf(w.tasks[t]) == NavOf(w.tasks[u]) ==> NavOf(w.tasks[t]) == 0)
  }

  /** The newest navigation, once it has published its page, still finds that page in place and
      no runtime beside it. */
  predicate Published(w: World) {
    forall t | t in w.tasks ::
      (w.tasks[t].Swapped? || w.tasks[t].Scripting? || w.tasks[t].Started?) && w.tasks[t].nav == w.b.navigationID ==>
        w.b.live.Some? && w.b.live.value.page == w.tasks[t].page && w.b.runtime.None?
  }

  function Held(w: World, t: nat): Option<Runtime> {
    if t in w.tasks then Holds(w.tasks[t]) else None
  }

  /** A started runtime is in one of three places: active, held by a task, stopped. */
  ghost predicate Placed(w: World, r: Runtime) {
    r in w.stops || w.b.runtime == Some(r) || exists t: nat :: Held(w, t) == Some(r)
  }

  /** Every started runtime is in exactly one place, and none is stopped twice. */
  ghost predicate Accounted(w: World) {
    && (forall r | r in w.started :: Placed(w, r))
    && (forall r | r in w.stops :: r in w.started && w.stops[r] == 1)
    && (w.b.runtime.Some? ==> w.b.runtime.value in w.started && w.b.runtime.value !in w.stops)
    && (forall t: nat :: Held(w, t).Some? ==>
          Held(w, t).value in w.started && Held(w, t).value !in w.stops && Held(w, t) != w.b.runtime)
    && (forall t: nat, u: nat :: t != u && Held(w, t) == Held(w, u) ==> Held(w, t).None?)
  }

  /** The active runtime was started for the current page. */
  predicate Owned(w: World) {
    && (w.b.runtime.Some? ==>
          w.b.live.Some? && w.b.runtime.value in w.owner && w.owner[w.b.runtime.value] == w.b.live.value.page)
    && (forall t | t in w.tasks && w.tasks[t].Started? && w.tasks[t].made.Some? ::
          w.tasks[t].made.value in w.owner && w.owner[w.tasks[t].made.value] == w.tasks[t].page)
    && (w.b.runtime.Some? ==> w.b.runtime.value in w.started)
    && (forall t | t in w.tasks && w.tasks[t].Started? && w.tasks[t].made.Some? :: w.tasks[t].made.value in w.started)
  }

  /** A task moves on within its navigation, or ends. */
  lemma SameOrder(w: World, v: World, t: nat)
    requires Ordered(w) && t in v.tasks && v.tasks == w.tasks[t := v.tasks[t]] && w.b.navigationID <= v.b.navigationID
    requires Begins(v.tasks[t]) ==> t in w.tasks && Begins(w.tasks[t]) && NavOf(v.tasks[t]) == NavOf(w.tasks[t])
    ensures Ordered(v)
  {
  }

  lemma NewOrder(w: World, v: World, t: nat)
    requires Ordered(w) && t in v.tasks && v.tasks == w.tasks[t := v.tasks[t]]
    requires NavOf(v.tasks[t]) == v.b.navigationID == w.b.navigationID + 1
    ensures Ordered(v)
  {
  }

  predicate Anonymous(a: Action) {
    a.Jump? || a.PushEntry? || a.ReplaceEntry? || a.ScrollTo?
  }

  /** What an action does to the number of the newest navigation and to that of its own task. */
  lemma StepNumbers(w: World, a: Action)
    requires Enabled(w, a) && !Panics(w, a) && Sane(w)
    ensures var v := Do(w, a);
      && w.b.navigationID <= v.b.navigationID
      && (a.Begin? ==> a.t in v.tasks && NavOf(v.tasks[a.t]) == v.b.navigationID == w.b.navigationID + 1)
      && (!a.Begin? && !Anonymous(a) ==> a.t in v.tasks && (Begins(v.tasks[a.t]) ==>
            a.t in w.tasks && Begins(w.tasks[a.t]) && NavOf(v.tasks[a.t]) == NavOf(w.tasks[a.t])))
  {
    hide Pushed, Replaced, StateBytes, Rebound, CommittedHistory;
  }

  lemma StepOrdered(w: World, a: Action)
    requires Enabled(w, a) && !Panics(w, a) && Sane(w) && Ordered(w)
    ensures Ordered(Do(w, a))
  {
    hide Do, Sane, Panics, NavOf, Begins;
    var v := Do(w, a);
    StepTasks(w, a);
    StepNumbers(w, a);
    if a.Begin? {
      NewOrder(w, v, a.t);
    } else if !Anonymous(a) {
      SameOrder(w, v, a.t);
    }
  }

  /** The action publishes a page, or puts or takes a runtime, or begins a navigation. */
  predicate Replaces(a: Action) {
    a.Begin? || a.CommitPage? || a.Install? || a.SetEngine? || a.SetPage? || a.Close?
  }

  /** All other actions leave the page, its runtime and the number of the newest navigation alone. */
  lemma StaysPut(w: World, a: Action)
    requires Enabled(w, a) && !Panics(w, a) && Sane(w) && !Replaces(a)
    ensures var b := Do(w, a).b;
      && b.runtime == w.b.runtime && b.navigationID == w.b.navigationID
      && (b.live.Some? <==> w.b.live.Some?) && (b.live.Some? ==> b.live.value.page == w.b.live.value.page)
  {
    hide Pushed, Replaced, StateBytes, Kept, FragmentOnlyChange, BytesReplaced;
  }

  lemma StepPublished(w: World, a: Action)
    requires Enabled(w, a) && !Panics(w, a) && Sane(w) && Ordered(w) && Published(w)
    ensures Published(Do(w, a))
  {
    if Replaces(a) { ReplacesPublished(w, a); } else { PutPublished(w, a); }
  }

  lemma ReplacesPublished(w: World, a: Action)
    requires Enabled(w, a) && !Panics(w, a) && Sane(w) && Ordered(w) && Published(w) && Replaces(a)
    ensures Published(Do(w, a))
  {
    hide Pushed, Replaced, StateBytes, Rebound, CommittedHistory;
  }

  lemma PutPublished(w: World, a: Action)
    requires Enabled(w, a) && !Panics(w, a) && Sane(w) && Ordered(w) && Published(w) && !Replaces(a)
    ensures Published(Do(w, a))
  {
    hide Moved, Jumped, StatePushed, StateReplaced, Scrolled, MayJump, MayPush, MayReplace, MayScroll, StaysOnPage;
    StaysPut(w, a);
  }

  /** Only the task `t` and what it handles differ between `w` and `v`. */
  ghost predicate Apart(w: World, v: World, t: nat) {
    forall u: nat :: u != t ==> Held(v, u) == Held(w, u)
  }

  /** Nothing changes hands. */
  lemma Keep(w: World, v: World, t: nat)
    requires Accounted(w) && Apart(w, v, t) && Held(v, t) == Held(w, t)
    requires v.started == w.started && v.stops == w.stops && v.b.runtime == w.b.runtime
    ensures Accounted(v)
  {
    forall r | r in v.started
      ensures Placed(v, r)
    {
      assert Placed(w, r);
      if u: nat :| Held(w, u) == Some(r) { assert Held(v, u) == Some(r); }
    }
  }

  /** The active runtime, if any, passes to the task. */
  lemma Take(w: World, v: World, t: nat)
    requires Accounted(w) && Apart(w, v, t) && Held(w, t) == None && Held(v, t) == w.b.runtime && v.b.runtime == None
    requires v.started == w.started && v.stops == w.stops
    ensures Accounted(v)
  {
    forall r | r in v.started
      ensures Placed(v, r)
    {
      assert Placed(w, r);
      if u: nat :| Held(w, u) == Some(r) { assert Held(v, u) == Some(r); }
    }
  }

  /** What the task holds, if anything, becomes active in an empty place. */
  lemma Give(w: World, v: World, t: nat)
    requires Accounted(w) && Apart(w, v, t) && Held(v, t) == None && v.b.runtime == Held(w, t) && w.b.runtime == None
    requires v.started == w.started && v.stops == w.stops
    ensures Accounted(v)
  {
    forall r | r in v.started
      ensures Placed(v, r)
    {
      assert Placed(w, r);
      if u: nat :| Held(w, u) == Some(r) { assert u == t || Held(v, u) == Some(r); }
    }
  }

  /** What the task holds, if anything, is stopped. */
  lemma Stop(w: World, v: World, t: nat)
    requires Accounted(w) && Apart(w, v, t) && Held(v, t) == None && v.b.runtime == w.b.runtime
    requires v.started == w.started && v.stops == Stopped(w.stops, Held(w, t))
    ensures Accounted(v)
  {
    forall r | r in v.started
      ensures Placed(v, r)
    {
      assert Placed(w, r);
      if u: nat :| Held(w, u) == Some(r) { assert u == t || Held(v, u) == Some(r); }
    }
  }

  /** A new runtime is started, and then held or stopped at once. */
  lemma Make(w: World, v: World, t: nat, r: Runtime)
    requires Accounted(w) && Apart(w, v, t) && Held(w, t) == None && v.b.runtime == w.b.runtime
    requires r !in w.started && v.started == w.started + {r}
    requires (Held(v, t) == Some(r) && v.stops == w.stops) || (Held(v, t) == None && v.stops == w.stops + multiset{r})
    ensures Accounted(v)
  {
    forall x | x in v.started
      ensures Placed(v, x)
    {
      if x in w.started {
        assert Placed(w, x);
        if u: nat :| Held(w, u) == Some(x) { assert Held(v, u) == Some(x); }
      } else {
        assert Held(v, t) == Some(x) || x in v.stops;
      }
    }
  }

  lemma OthersApart(w: World, v: World, t: nat)
    requires t in v.tasks && v.tasks == w.tasks[t := v.tasks[t]]
    ensures Apart(w, v, t)
  {
  }

  lemma StepTasks(w: World, a: Action)
    requires Enabled(w, a) && !Panics(w, a) && Sane(w)
    ensures Anonymous(a) ==> Do(w, a).tasks == w.tasks
    ensures !Anonymous(a) ==> a.t in Do(w, a).tasks && Do(w, a).tasks == w.tasks[a.t := Do(w, a).tasks[a.t]]
  {
    hide Begun, EngineSet, Closed, Installed, Stopped, MayInstall;
    hide Pushed, Replaced, StateBytes, Moved, Committed, Jumped, StatePushed, StateReplaced, Scrolled;
    hide PageSet, MayJump, MayPush, MayReplace, MayScroll, StaysOnPage, Sane, Panics;
  }

  /** The actions that take the active runtime away. */
  lemma TakeAccounted(w: World, a: Action)
    requires Enabled(w, a) && !Panics(w, a) && Sane(w) && Accounted(w)
    requires a.CommitPage? || a.SetEngine? || a.SetPage? || a.Close?
    ensures Accounted(Do(w, a))
  {
    StepTasks(w, a);
    OthersApart(w, Do(w, a), a.t);
    if (a.CommitPage? && w.tasks[a.t].nav != w.b.navigationID) || (a.SetEngine? && a.engine == w.b.engine) {
      Keep(w, Do(w, a), a.t);
    } else {
      Take(w, Do(w, a), a.t);
    }
  }

  /** The actions that start or stop a runtime. */
  lemma MakeAccounted(w: World, a: Action)
    requires Enabled(w, a) && !Panics(w, a) && Sane(w) && Accounted(w)
    requires a.Launch? || a.LaunchFails? || a.StopOld? || a.StopHeld?
    ensures Accounted(Do(w, a))
  {
    var v := Do(w, a);
    StepTasks(w, a);
    OthersApart(w, v, a.t);
    match a
    case StopOld(t) => Stop(w, v, t);
    case StopHeld(t) => Stop(w, v, t);
    case Launch(t, made) => if made.Some? { Make(w, v, t, made.value); } else { Keep(w, v, t); }
    case LaunchFails(t, broken) => Make(w, v, t, broken);
  }

  lemma StepAccounted(w: World, a: Action)
    requires Enabled(w, a) && !Panics(w, a) && Sane(w) && Ordered(w) && Published(w) && Accounted(w)
    ensures Accounted(Do(w, a))
  {
    hide Accounted, Sane, Panics;
    var v := Do(w, a);
    if a.CommitPage? || a.SetEngine? || a.SetPage? || a.Close? {
      TakeAccounted(w, a);
    } else if a.Launch? || a.LaunchFails? || a.StopOld? || a.StopHeld? {
      MakeAccounted(w, a);
    } else {
      var t := if Anonymous(a) then 0 else a.t;
      StepTasks(w, a);
      if !Anonymous(a) { OthersApart(w, v, t); }
      if a.Install? && MayInstall(w.b, w.tasks[t].nav, w.tasks[t].page) { Give(w, v, t); } else { Keep(w, v, t); }
    }
  }

  lemma StepOwned(w: World, a: Action)
    requires Enabled(w, a) && !Panics(w, a) && Sane(w) && Owned(w)
    ensures Owned(Do(w, a))
  {
    if Replaces(a) { ReplacesOwned(w, a); } else { PutOwned(w, a); }
  }

  lemma ReplacesOwned(w: World, a: Action)
    requires Enabled(w, a) && !Panics(w, a) && Sane(w) && Owned(w) && Replaces(a)
    ensures Owned(Do(w, a))
  {
    hide Pushed, Replaced, StateBytes, Rebound, CommittedHistory;
  }

  lemma PutOwned(w: World, a: Action)
    requires Enabled(w, a) && !Panics(w, a) && Sane(w) && Owned(w) && !Replaces(a)
    ensures Owned(Do(w, a))
  {
    StaysPut(w, a);
    if a.Launch? || a.LaunchFails? { LaunchOwned(w, a); } else { OtherOwned(w, a); }
  }

  lemma LaunchOwned(w: World, a: Action)
    requires Enabled(w, a) && !Panics(w, a) && Sane(w) && Owned(w) && (a.Launch? || a.LaunchFails?)
    ensures Owned(Do(w, a))
  {
  }

  lemma OtherOwned(w: World, a: Action)
    requires Enabled(w, a) && !Panics(w, a) && Sane(w) && Owned(w)
    requires !Replaces(a) && !a.Launch? && !a.LaunchFails?
    ensures Owned(Do(w, a))
  {
    hide Moved, Jumped, StatePushed, StateReplaced, Scrolled, MayJump, MayPush, MayReplace, MayScroll, StaysOnPage;
    StaysPut(w, a);
  }

  // ---------------------------------------------------------------- runs

  ghost predicate Inv(w: World) {
    Sane(w) && Mirrored(w.b) && Ordered(w) && Published(w) && Accounted(w) && Owned(w)
  }

  /** The actions can be taken one after the other, none of them panicking. */
  predicate Runs(w: World, actions: seq<Action>)
    decreases |actions|
  {
    actions == [] ||
    (Sane(w) && Enabled(w, actions[0]) && !Panics(w, actions[0]) && Runs(Do(w, actions[0]), actions[1..]))
  }

  function After(w: World, actions: seq<Action>): World
    requires Runs(w, actions)
    decreases |actions|
  {
    if actions == [] then w else After(Do(w, actions[0]), actions[1..])
  }

  lemma StepInv(w: World, a: Action)
    requires Inv(w) && Enabled(w, a) && !Panics(w, a)
    ensures Inv(Do(w, a))
  {
    StepMirrors(w, a);
    StepSane(w, a);
    StepOrdered(w, a);
    StepPublished(w, a);
    StepAccounted(w, a);
    StepOwned(w, a);
  }

  lemma {:induction false} RunInv(w: World, actions: seq<Action>)
    requires Inv(w) && Runs(w, actions)
    ensures Inv(After(w, actions))
    decreases |actions|
  {
    if actions != [] {
      StepInv(w, actions[0]);
      RunInv(Do(w, actions[0]), actions[1..]);
    }
  }

  lemma InitialInv(engine: Engine)
    ensures Inv(Initial(engine))
  {
  }

  /** In every state a tab can reach, the history mirrors the page within its limits and the
      active runtime, if any, was started for the current page. */
  lemma Reachable(engine: Engine, actions: seq<Action>)
    requires Runs(Initial(engine), actions)
    ensures var b := After(Initial(engine), actions).b;
            && Mirrored(b)
            && (b.runtime.Some? ==>
                  var w := After(Initial(engine), actions);
                  b.live.Some? && b.runtime.value in w.owner && w.owner[b.runtime.value] == b.live.value.page)
  {
    InitialInv(engine);
    RunInv(Initial(engine), actions);
  }

  /** Once every task has let go, each started runtime has been stopped exactly once, except the
      active one, which has not been stopped. */
  lemma NothingLeaks(engine: Engine, actions: seq<Action>, r: Runtime)
    requires Runs(Initial(engine), actions)
    requires var w := After(Initial(engine), actions);
      r in w.started && forall t | t in w.tasks :: Holds(w.tasks[t]).None?
    ensures var w := After(Initial(engine), actions); w.stops[r] == if w.b.runtime == Some(r) then 0 else 1
  {
    InitialInv(engine);
    RunInv(Initial(engine), actions);
    var w := After(Initial(engine), actions);
    assert Placed(w, r);
  }

  /** The second half of the check before installing a runtime never decides: a navigation that
      is still the newest finds its own page in place. */
  lemma InstallDecidedByNumber(w: World, t: nat)
    requires Inv(w) && t in w.tasks && w.tasks[t].Started?
    ensures MayInstall(w.b, w.tasks[t].nav, w.tasks[t].page) <==> w.tasks[t].nav == w.b.navigationID
  {
  }

  /** The state kept with the page equals the one kept with its entry, except after a reload of
      an entry that has a state: the entry keeps it, the page forgets it. */
  lemma CommitStates(s: State, page: Page, url: Address, commit: Commit, index: int)
    requires Mirrored(s) && (commit.Traverse? ==> index < |s.hist.entries|) && (!commit.Push? ==> 0 <= index)
    ensures var t := Committed(s, page, url, commit, index);
            && t.live.Some? && CurrentEntry(t.hist).Some?
            && (t.live.value.historyState == CurrentEntry(t.hist).value.state <==>
                  !(commit.Replace? && index < |s.hist.entries| && s.hist.entries[index].state != ""))
  {
    CommittedMirrored(s, page, url, commit, index);
  }

  // ---------------------------------------------------------------- the origin of a page

  /** The action publishes a page, closes it, or moves along the history. */
  predicate Leaves(a: Action) {
    a.CommitPage? || a.SetPage? || a.Close? || a.Travel?
  }

  /** No other action changes the page or the origin of its URL. */
  lemma StepOrigin(w: World, a: Action)
    requires Sane(w) && Enabled(w, a) && !Panics(w, a) && !Leaves(a)
    requires w.b.live.Some? && w.b.live.value.url.Some?
    ensures var l, m := Do(w, a).b.live, w.b.live.value;
      l.Some? && l.value.url.Some? && l.value.page == m.page && l.value.url.value.base.origin == m.url.value.base.origin
  {
    hide Pushed, Replaced, StateBytes, Kept;
  }

  /** Between two publications of a page no sequence of pushes, replacements, fragment jumps and
      whatever else goes on changes the origin its URL shows. */
  lemma {:induction false} OriginKept(w: World, actions: seq<Action>)
    requires Runs(w, actions) && forall i :: 0 <= i < |actions| ==> !Leaves(actions[i])
    requires w.b.live.Some? && w.b.live.value.url.Some?
    ensures var l, m := After(w, actions).b.live, w.b.live.value;
      l.Some? && l.value.url.Some? && l.value.page == m.page && l.value.url.value.base.origin == m.url.value.base.origin
    decreases |actions|
  {
    if actions != [] {
      StepOrigin(w, actions[0]);
      OriginKept(Do(w, actions[0]), actions[1..]);
    }
  }

  /** What a page's own actions do when they are allowed: page and current entry move together. */
  lemma PageActs(w: World, a: Action)
    requires Sane(w) && Enabled(w, a) && (a.Jump? || a.PushEntry? || a.ReplaceEntry? || a.ScrollTo?)
    requires |w.b.hist.entries| <= MAX_HISTORY_ENTRIES && w.b.live.Some?
    ensures var l, s := w.b.live.value, Do(w, a).b;
      && (a.PushEntry? && MayPush(w.b, a.source, a.target, a.state, a.wellFormed) ==>
            && s.live == Some(l.(url := a.target, historyState := a.state))
            && CurrentEntry(s.hist) == Some(Entry(a.target.value, a.state, true, l.historyID, l.scroll)))
      && (a.ReplaceEntry? && MayReplace(w.b, a.source, a.target, a.state, a.wellFormed) ==>
            && s.live == Some(l.(url := a.target, historyState := a.state))
            && CurrentEntry(s.hist) == Some(Entry(a.target.value, a.state, true, l.historyID, l.scroll)))
      && (a.Jump? && MayJump(w.b, a.to) ==>
            && s.live == Some(l.(url := Some(a.to), historyState := ""))
            && CurrentEntry(s.hist) == Some(Entry(a.to, "", true, l.historyID, l.scroll)))
      && (a.ScrollTo? && MayScroll(w.b) ==>
            && s.live == Some(l.(scroll := a.scroll))
            && CurrentEntry(s.hist) == Some(CurrentEntry(w.b.hist).value.(scroll := a.scroll)))
  {
    match a
    case PushEntry(_, target, state, _) =>
      if target.Some? { PushKeeps(w.b.hist, SamePage(w.b, target.value, state)); }
    case ReplaceEntry(_, target, state, _) =>
      if target.Some? { ReplaceKeeps(w.b.hist, SamePage(w.b, target.value, state)); }
    case Jump(target) => PushKeeps(w.b.hist, SamePage(w.b, target, ""));
    case _ =>
  }

  /** A traversal ends at once where there is no entry, or on an entry of the current page, which the
      page then shows; otherwise it has chosen the entry to load.  A reload chooses the current one. */
  lemma Travels(w: World, a: Action)
    requires Sane(w) && Enabled(w, a) && (a.Travel? || a.Reload?)
    ensures var v, entries := Do(w, a), w.b.hist.entries;
      if a.Reload? then
        v.b == w.b && v.tasks[a.t] == if w.b.hist.index < 0 then Done else Chosen(Replace, w.b.hist.index)
      else
        var at := w.b.hist.index + a.delta;
        if at < 0 || |entries| <= at then
          v.b == w.b && v.tasks[a.t] == Done
        else if w.b.live.Some? && entries[at].pageID == w.b.live.value.historyID != 0 then
          && v.tasks[a.t] == Done && v.b.hist == Hist(entries, at) && v.b.live.Some?
          && v.b.live.value.url == Some(entries[at].url) && v.b.live.value.historyState == entries[at].state
          && v.b.live.value.scroll == entries[at].scroll && v.b.live.value.page == w.b.live.value.page
        else
          v.b == w.b && v.tasks[a.t] == Chosen(Traverse, at)
  {
  }

  /** An entry at another origin is refused without any change. */
  lemma ForeignRefused(w: World, a: Action)
    requires Sane(w) && Enabled(w, a) && (a.PushEntry? || a.ReplaceEntry?) && a.target.Some?
    requires w.b.live.Some? && w.b.live.value.url.Some?
    requires a.target.value.base.origin.None? || a.target.value.base.origin != w.b.live.value.url.value.base.origin
    ensures Do(w, a) == w
  {
  }

  // ---------------------------------------------------------------- superseded navigations

  /** The task belongs to a navigation that is not the newest, or has nothing left to publish. */
  predicate Stale(w: World, t: nat) {
    t in w.tasks
      && (w.tasks[t].Stopping? || w.tasks[t].Done? || (Begins(w.tasks[t]) && NavOf(w.tasks[t]) < w.b.navigationID))
  }

  predicate By(a: Action, t: nat) {
    !Anonymous(a) && a.t == t
  }

  /** A superseded navigation stays superseded and changes neither page nor runtime nor history. */
  lemma StaleStep(w: World, a: Action, t: nat)
    requires Enabled(w, a) && !Panics(w, a) && Sane(w) && Stale(w, t)
    ensures Stale(Do(w, a), t)
    ensures By(a, t) ==> Do(w, a).b == w.b
  {
    hide Pushed, Replaced, StateBytes, Rebound, CommittedHistory;
  }

  lemma {:induction false} StaleForever(w: World, actions: seq<Action>, t: nat, i: nat)
    requires Runs(w, actions) && Stale(w, t) && i < |actions|
    ensures Runs(w, actions[..i]) && Runs(w, actions[..i + 1])
    ensures Stale(After(w, actions[..i]), t)
    ensures By(actions[i], t) ==> After(w, actions[..i + 1]).b == After(w, actions[..i]).b
    decreases i
  {
    var a, v := actions[0], Do(w, actions[0]);
    StaleStep(w, a, t);
    assert actions[..i + 1][0] == a && actions[..i + 1][1..] == actions[1..][..i];
    if i == 0 {
      assert actions[..1] == [a];
      assert After(w, [a]) == After(v, []) == v;
    } else {
      assert actions[..i][0] == a && actions[..i][1..] == actions[1..][..i - 1];
      StaleForever(v, actions[1..], t, i - 1);
    }
  }

  // ---------------------------------------------------------------- traversals and pushes

  /** A traversal that has chosen its target and may still commit. */
  predicate InFlight(w: World, t: nat) {
    && t in w.tasks && (w.tasks[t].Chosen? || (w.tasks[t].Loading? && w.tasks[t].nav == w.b.navigationID))
    && w.tasks[t].commit.Traverse?
  }

  /** The action leaves no entry at `target`: it makes a new entry before it, or starts a new
      history. */
  predicate Undercuts(w: World, a: Action, target: nat)
    requires Enabled(w, a) && -1 <= w.b.hist.index
  {
    match a
    case CommitPage(t, _, _) =>
      w.tasks[t].nav == w.b.navigationID && w.tasks[t].commit.Push? && w.b.hist.index + 1 < target
    case Jump(to) => MayJump(w.b, to) && w.b.hist.index + 1 < target
    case PushEntry(source, to, state, ok) => MayPush(w.b, source, to, state, ok) && w.b.hist.index + 1 < target
    case SetPage(_, live) => live.None? || live.value.url.None? || 0 < target
    case Close(_) => true
    case _ => false
  }

  lemma UndercutExactly(w: World, a: Action, target: nat)
    requires Enabled(w, a) && !Panics(w, a) && Sane(w) && Mirrored(w.b) && target < |w.b.hist.entries|
    ensures target < |Do(w, a).b.hist.entries| <==> !Undercuts(w, a, target)
  {
    if a.SetPage? && a.live.Some? && a.live.value.url.Some? {
      assert |Pushed(EMPTY, Entry(a.live.value.url.value, "", false, w.b.nextPageID + 1, TOP)).entries| == 1;
    }
  }

  predicate Aimed(w: World) {
    forall t | t in w.tasks :: InFlight(w, t) ==> w.tasks[t].index < |w.b.hist.entries|
  }

  /** No action undercuts a traversal that remains in flight. */
  predicate Careful(w: World, actions: seq<Action>)
    decreases |actions|
  {
    actions == [] ||
    (Sane(w) && Enabled(w, actions[0]) &&
     (Panics(w, actions[0]) ||
      (&& (forall t | t in w.tasks && InFlight(w, t) && InFlight(Do(w, actions[0]), t) ::
             !Undercuts(w, actions[0], w.tasks[t].index))
       && Careful(Do(w, actions[0]), actions[1..]))))
  }

  lemma SameAim(w: World, a: Action, t: nat)
    requires Enabled(w, a) && !Panics(w, a) && Sane(w) && InFlight(w, t) && InFlight(Do(w, a), t)
    ensures Do(w, a).tasks[t].index == w.tasks[t].index
  {
  }

  lemma AimKept(w: World, a: Action, t: nat)
    requires Inv(w) && Enabled(w, a) && !Panics(w, a) && InFlight(w, t) && w.tasks[t].index < |w.b.hist.entries|
    requires InFlight(Do(w, a), t) && !Undercuts(w, a, w.tasks[t].index)
    ensures Do(w, a).tasks[t].index < |Do(w, a).b.hist.entries|
  {
    hide Do, Undercuts, Mirrored, Ordered, Published, Accounted, Owned;
    SameAim(w, a, t);
    UndercutExactly(w, a, w.tasks[t].index);
  }

  /** A traversal takes its aim within the history. */
  lemma AimTaken(w: World, a: Action, t: nat)
    requires Sane(w) && Ordered(w) && Enabled(w, a) && !Panics(w, a) && !InFlight(w, t) && InFlight(Do(w, a), t)
    ensures Do(w, a).tasks[t].index < |Do(w, a).b.hist.entries|
  {
    hide Pushed, Replaced, StateBytes, Rebound, CommittedHistory;
    TravelTakes(w, a, t);
  }

  lemma TravelTakes(w: World, a: Action, t: nat)
    requires Sane(w) && Ordered(w) && Enabled(w, a) && !Panics(w, a) && !InFlight(w, t) && InFlight(Do(w, a), t)
    ensures a.Travel?
  {
    hide Pushed, Replaced, StateBytes, Kept, Rebound, CommittedHistory, MayEnter, StaysOnPage, SamePage, BytesReplaced;
  }

  lemma AimedStep(w: World, a: Action)
    requires Inv(w) && Enabled(w, a) && !Panics(w, a) && Aimed(w)
    requires forall t | t in w.tasks :: InFlight(w, t) && InFlight(Do(w, a), t) ==> !Undercuts(w, a, w.tasks[t].index)
    ensures Aimed(Do(w, a))
  {
    hide Do, Undercuts, Mirrored, Ordered, Published, Accounted, Owned, Panics;
    var v := Do(w, a);
    forall t | t in v.tasks && InFlight(v, t)
      ensures v.tasks[t].index < |v.b.hist.entries|
    {
      if t in w.tasks && InFlight(w, t) { AimKept(w, a, t); } else { AimTaken(w, a, t); }
    }
  }

  /** If no action undercuts a traversal in flight, no commit ever panics. */
  lemma {:induction false} CarefulRuns(w: World, actions: seq<Action>)
    requires Inv(w) && Aimed(w) && Careful(w, actions)
    ensures Runs(w, actions)
    decreases |actions|
  {
    if actions != [] {
      assert !Panics(w, actions[0]);
      AimedStep(w, actions[0]);
      StepInv(w, actions[0]);
      CarefulRuns(Do(w, actions[0]), actions[1..]);
    }
  }

  /** A commit panics exactly when it ends a traversal in flight whose target has been undercut. */
  lemma PanicsExactly(w: World, t: nat, page: Page, url: Address)
    requires Sane(w) && t in w.tasks && w.tasks[t].Loading?
    ensures Panics(w, CommitPage(t, page, url)) <==> InFlight(w, t) && |w.b.hist.entries| <= w.tasks[t].index
  {
  }

  /** The action makes an entry at `target`, where the history ended before. */
  predicate Restores(w: World, a: Action, target: nat)
    requires Enabled(w, a)
  {
    var n := |w.b.hist.entries|;
    match a
    case CommitPage(t, _, _) =>
      && w.tasks[t].nav == w.b.navigationID && target == n
      && ((w.tasks[t].commit.Push? && w.b.hist.index + 1 == n) || (w.tasks[t].commit.Replace? && n <= w.tasks[t].index))
    case Jump(to) => MayJump(w.b, to) && w.b.hist.index + 1 == n == target
    case PushEntry(source, to, state, ok) =>
      -1 <= w.b.hist.index && MayPush(w.b, source, to, state, ok) && w.b.hist.index + 1 == n == target
    case SetPage(_, live) => live.Some? && live.value.url.Some? && target == 0
    case _ => false
  }

  /** There is an entry at `target` after an action exactly when there was one and it is not
      undercut, or the action makes one. */
  lemma RangeExactly(w: World, a: Action, target: nat)
    requires Enabled(w, a) && !Panics(w, a) && Sane(w) && Mirrored(w.b) && target < MAX_HISTORY_ENTRIES
    ensures target < |Do(w, a).b.hist.entries| <==>
      if target < |w.b.hist.entries| then !Undercuts(w, a, target) else Restores(w, a, target)
  {
    hide StateBytes, Numbered, FragmentOnlyChange;
    if target < |w.b.hist.entries| {
      UndercutExactly(w, a, target);
    } else if a.SetPage? && a.live.Some? && a.live.value.url.Some? {
      assert |Pushed(EMPTY, Entry(a.live.value.url.value, "", false, w.b.nextPageID + 1, TOP)).entries| == 1;
    }
  }

  /** Whether there is an entry at `target` after the run, told from the actions. */
  predicate Survives(w: World, actions: seq<Action>, target: nat, there: bool)
    requires Runs(w, actions)
    decreases |actions|
  {
    if actions == [] then there
    else
      Survives(Do(w, actions[0]), actions[1..], target,
               if there then !Undercuts(w, actions[0], target) else Restores(w, actions[0], target))
  }

  lemma {:induction false} SurvivesExactly(w: World, actions: seq<Action>, target: nat)
    requires Inv(w) && Runs(w, actions) && target < MAX_HISTORY_ENTRIES
    ensures Survives(w, actions, target, target < |w.b.hist.entries|) <==> target < |After(w, actions).b.hist.entries|
    decreases |actions|
  {
    if actions != [] {
      StepInv(w, actions[0]);
      RangeExactly(w, actions[0], target);
      SurvivesExactly(Do(w, actions[0]), actions[1..], target);
    }
  }

  /** From the choice of its target on, a traversal's commit panics exactly when the target has been
      undercut and not made again. */
  lemma TraversalPanicsExactly(w: World, actions: seq<Action>, t: nat, page: Page, url: Address)
    requires Inv(w) && Runs(w, actions) && InFlight(w, t) && w.tasks[t].index < |w.b.hist.entries|
    requires var v := After(w, actions); InFlight(v, t) && v.tasks[t].Loading? && v.tasks[t].index == w.tasks[t].index
    ensures Panics(After(w, actions), CommitPage(t, page, url)) <==> !Survives(w, actions, w.tasks[t].index, true)
  {
    SurvivesExactly(w, actions, w.tasks[t].index);
    RunInv(w, actions);
  }

  /** The last action before the commit decides, if the target was there until then. */
  lemma UndercutPanics(w: World, a: Action, t: nat, page: Page, url: Address)
    requires Inv(w) && Enabled(w, a) && !Panics(w, a) && InFlight(w, t) && w.tasks[t].index < |w.b.hist.entries|
    requires InFlight(Do(w, a), t) && Do(w, a).tasks[t].Loading?
    ensures Panics(Do(w, a), CommitPage(t, page, url)) <==> Undercuts(w, a, w.tasks[t].index)
  {
    SameAim(w, a, t);
    UndercutExactly(w, a, w.tasks[t].index);
    StepInv(w, a);
    PanicsExactly(Do(w, a), t, page, url);
  }

  lemma {:induction false} RunsTogether(w: World, xs: seq<Action>, ys: seq<Action>)
    requires Runs(w, xs) && Runs(After(w, xs), ys)
    ensures Runs(w, xs + ys) && After(w, xs + ys) == After(After(w, xs), ys)
    decreases |xs|
  {
    if xs == [] {
      assert xs + ys == ys;
    } else {
      assert (xs + ys)[0] == xs[0] && (xs + ys)[1..] == xs[1..] + ys;
      RunsTogether(Do(w, xs[0]), xs[1..], ys);
    }
  }

  lemma Extend(start: World, xs: seq<Action>, w: World, a: Action) returns (ys: seq<Action>, v: World)
    requires Runs(start, xs) && w == After(start, xs) && Sane(w) && Enabled(w, a) && !Panics(w, a)
    ensures Runs(start, ys) && v == After(start, ys) == Do(w, a)
  {
    ys, v := xs + [a], Do(w, a);
    assert Runs(v, []) && [a][1..] == [];
    assert Runs(w, [a]) && After(w, [a]) == v;
    RunsTogether(start, xs, [a]);
  }

  function Visited(u: Address, id: nat): Entry {
    Entry(u, "", false, id, TOP)
  }

  lemma NoSteps(w: World)
    ensures Runs(w, []) && After(w, []) == w
  {
  }

  lemma StartLoad(start: World, xs: seq<Action>, w: World, t: nat) returns (ys: seq<Action>, v: World)
    requires Runs(start, xs) && w == After(start, xs) && Sane(w) && t !in w.tasks
    ensures Runs(start, ys) && v == After(start, ys) && Sane(v)
    ensures v.b == Begun(w.b) && v.tasks == w.tasks[t := Loading(v.b.navigationID, Push, -1)]
  {
    hide Runs, After;
    ys, v := Extend(start, xs, w, Decide(t));
    assert v.tasks == w.tasks[t := Chosen(Push, -1)];
    ys, v := Extend(start, ys, v, Begin(t));
  }

  /** A page load that pushes an entry. */
  lemma Visit(start: World, xs: seq<Action>, w: World, t: nat, p: Page, u: Address) returns (ys: seq<Action>, v: World)
    requires Runs(start, xs) && w == After(start, xs) && Sane(w) && t !in w.tasks
    ensures Runs(start, ys) && v == After(start, ys) && Sane(v) && v.tasks.Keys == w.tasks.Keys + {t}
    ensures v.b.nextPageID == w.b.nextPageID + 1 && v.b.live == Some(Live(p, Some(u), v.b.nextPageID, "", TOP))
    ensures v.b.hist == Pushed(w.b.hist, Visited(u, v.b.nextPageID))
  {
    hide Runs, After;
    ys, v := StartLoad(start, xs, w, t);
    ys, v := Extend(start, ys, v, CommitPage(t, p, u));
  }

  /** A traversal to an entry of another page chooses its target and begins to load. */
  lemma Aim(start: World, xs: seq<Action>, w: World, t: nat, delta: int) returns (ys: seq<Action>, v: World)
    requires Runs(start, xs) && w == After(start, xs) && Sane(w) && t !in w.tasks
    requires 0 <= w.b.hist.index + delta < |w.b.hist.entries| && !StaysOnPage(w.b, delta)
    ensures Runs(start, ys) && v == After(start, ys) && Sane(v) && v.tasks.Keys == w.tasks.Keys + {t}
    ensures v.b == Begun(w.b) && v.tasks[t] == Loading(v.b.navigationID, Traverse, w.b.hist.index + delta)
  {
    hide Runs, After;
    ys, v := Extend(start, xs, w, Travel(t, delta));
    ys, v := Extend(start, ys, v, Begin(t));
  }

  lemma ThreeVisits(p: seq<Page>, u: seq<Address>) returns (actions: seq<Action>, w: World)
    requires |p| == 5 && |u| == 3
    ensures Runs(Initial("go"), actions) && w == After(Initial("go"), actions) && Sane(w) && w.tasks.Keys == {0, 1, 2}
    ensures w.b.hist == Hist([Visited(u[0], 1), Visited(u[1], 2), Visited(u[2], 3)], 2) && w.b.nextPageID == 3
    ensures w.b.live == Some(Live(p[2], Some(u[2]), 3, "", TOP))
  {
    hide Runs, After;
    var start := Initial("go");
    NoSteps(start);
    actions, w := Visit(start, [], start, 0, p[0], u[0]);
    FirstEntry(Visited(u[0], 1));
    actions, w := Visit(start, actions, w, 1, p[1], u[1]);
    assert w.b.hist == Hist([Visited(u[0], 1), Visited(u[1], 2)], 1);
    actions, w := Visit(start, actions, w, 2, p[2], u[2]);
  }

  /** Three pages are visited, the tab goes back two entries, and a traversal two entries
      forward is under way when the page pushes a state: its commit panics. */
  lemma TraversalCanPanic(p: seq<Page>, u: seq<Address>) returns (actions: seq<Action>, w: World)
    requires |p| == 5 && |u| == 3 && !u[0].base.user && u[0].base.origin.Some? && |u[0].text| <= MAX_HISTORY_URL_BYTES
    ensures Runs(Initial("go"), actions) && w == After(Initial("go"), actions)
    ensures Enabled(w, CommitPage(4, p[4], u[2])) && Panics(w, CommitPage(4, p[4], u[2]))
  {
    var start := Initial("go");
    actions, w := ThreeVisits(p, u);
    actions, w := Aim(start, actions, w, 3, -2);
    actions, w := GoBack(start, actions, w, p, u);
    actions, w := Aim(start, actions, w, 4, 2);
    actions, w := PushBehind(start, actions, w, p, u);
  }

  lemma GoBack(start: World, xs: seq<Action>, w: World, p: seq<Page>, u: seq<Address>)
    returns (ys: seq<Action>, v: World)
    requires Runs(start, xs) && w == After(start, xs) && Sane(w) && |p| == 5 && |u| == 3
    requires 3 in w.tasks && w.tasks[3] == Loading(w.b.navigationID, Traverse, 0) && w.b.nextPageID == 3
    requires w.b.hist == Hist([Visited(u[0], 1), Visited(u[1], 2), Visited(u[2], 3)], 2)
    ensures Runs(start, ys) && v == After(start, ys) && Sane(v) && v.tasks.Keys == w.tasks.Keys
    ensures v.b.live == Some(Live(p[3], Some(u[0]), 4, "", TOP))
    ensures v.b.hist == Hist([Visited(u[0], 4), Visited(u[1], 2), Visited(u[2], 3)], 0)
  {
    hide Runs, After;
    ys, v := Extend(start, xs, w, CommitPage(3, p[3], u[0]));
  }

  lemma PushBehind(start: World, xs: seq<Action>, w: World, p: seq<Page>, u: seq<Address>)
    returns (ys: seq<Action>, v: World)
    requires Runs(start, xs) && w == After(start, xs) && Sane(w) && |p| == 5 && |u| == 3
    requires 4 in w.tasks && w.tasks[4] == Loading(w.b.navigationID, Traverse, 2)
    requires w.b.live == Some(Live(p[3], Some(u[0]), 4, "", TOP))
    requires !u[0].base.user && u[0].base.origin.Some? && |u[0].text| <= MAX_HISTORY_URL_BYTES
    requires w.b.hist == Hist([Visited(u[0], 4), Visited(u[1], 2), Visited(u[2], 3)], 0)
    ensures Runs(start, ys) && v == After(start, ys)
    ensures Enabled(v, CommitPage(4, p[4], u[2])) && Panics(v, CommitPage(4, p[4], u[2]))
  {
    assert Kept(w.b.hist) == [Visited(u[0], 4)];
    assert MayPush(w.b, p[3], Some(u[0]), "1", true);
    ys, v := Extend(start, xs, w, PushEntry(p[3], Some(u[0]), "1", true));
  }

  /** A page is visited and pushes a state. */
  lemma StateOfPage(p: Page, u: Address) returns (actions: seq<Action>, w: World)
    requires !u.base.user && u.base.origin.Some? && |u.text| <= MAX_HISTORY_URL_BYTES
    ensures Runs(Initial("go"), actions) && w == After(Initial("go"), actions) && Sane(w) && w.tasks.Keys == {0}
    ensures w.b.live.Some? && w.b.live.value.url == Some(u) && w.b.nextPageID == 1
    ensures w.b.hist == Hist([Visited(u, 1), Entry(u, "1", true, 1, TOP)], 1)
  {
    hide Runs, After;
    var start := Initial("go");
    NoSteps(start);
    actions, w := Visit(start, [], start, 0, p, u);
    FirstEntry(Visited(u, 1));
    assert MayPush(w.b, p, Some(u), "1", true);
    actions, w := Extend(start, actions, w, PushEntry(p, Some(u), "1", true));
  }

  /** The page is reloaded: the new page has lost the state its entry still has. */
  lemma ReloadForgetsState(p: Page, q: Page, u: Address) returns (actions: seq<Action>, w: World)
    requires !u.base.user && u.base.origin.Some? && |u.text| <= MAX_HISTORY_URL_BYTES
    ensures Runs(Initial("go"), actions) && w == After(Initial("go"), actions)
    ensures w.b.live.Some? && w.b.live.value.page == q && w.b.live.value.historyState == ""
    ensures CurrentEntry(w.b.hist).Some? && CurrentEntry(w.b.hist).value.state == "1"
  {
    hide Runs, After;
    var start := Initial("go");
    actions, w := StateOfPage(p, u);
    actions, w := Extend(start, actions, w, Reload(1));
    actions, w := Extend(start, actions, w, Begin(1));
    actions, w := Extend(start, actions, w, CommitPage(1, q, u));
  }
}
