/** The navigation state of one tab.  Every method of `Browser` is one section under the
    browser's lock; the functions above the class say what such a section does to the state. */
module Navigation {
  import opened SessionHistory
  import opened Options

  type Engine = string
  type Runtime = nat

  datatype Commit = Push | Traverse | Replace

  class Page {
    var url: Option<Address>
    var historyID: nat
    var historyState: string
    var scroll: Scroll

    constructor (url: Option<Address>)
      ensures this.url == url && historyID == 0 && historyState == "" && scroll == TOP
    {
      this.url, historyID, historyState, scroll := url, 0, "", TOP;
    }
  }

  const TOP: Scroll := Scroll(0, 0)

  /** The current page with the fields the history has to agree with. */
  datatype Live = Live(page: Page, url: Option<Address>, historyID: nat, historyState: string, scroll: Scroll)

  datatype State = State(
    engine: Engine, live: Option<Live>, runtime: Option<Runtime>, navigationID: nat, nextPageID: nat, hist: Hist)

  // ---------------------------------------------------------------- what each section does

  function Begun(s: State): State {
    s.(navigationID := s.navigationID + 1)
  }

  /** The page that traversal by `delta` stays on, if the target entry belongs to it. */
  predicate StaysOnPage(s: State, delta: int) {
    && 0 <= s.hist.index + delta < |s.hist.entries| && s.live.Some?
    && s.hist.entries[s.hist.index + delta].pageID != 0
    && s.hist.entries[s.hist.index + delta].pageID == s.live.value.historyID
  }

  function Moved(s: State, delta: int): State
    requires StaysOnPage(s, delta)
  {
    var e := s.hist.entries[s.hist.index + delta];
    s.(live := Some(s.live.value.(url := Some(e.url), historyState := e.state, scroll := e.scroll)),
       hist := s.hist.(index := s.hist.index + delta))
  }

  /** The entry in whose place the new page comes. */
  function Successor(h: Hist, commit: Commit, index: int): Option<Entry> {
    if commit.Push? then None else CurrentEntry(h.(index := index))
  }

  function CommittedHistory(h: Hist, commit: Commit, index: int, url: Address, pageID: nat): Hist
    requires -1 <= h.index && (commit.Traverse? ==> index < |h.entries|) && (!commit.Push? ==> 0 <= index)
  {
    match commit
    case Push => Pushed(h, Entry(url, "", false, pageID, TOP))
    case Traverse =>
      var e := h.entries[index];
      Replaced(Rebound(h.(index := index), e.pageID, pageID), Entry(url, e.state, false, pageID, e.scroll))
    case Replace =>
      var e := Successor(h, commit, index);
      Replaced(h.(index := index), Entry(url, if e.Some? then e.value.state else "", false, pageID, TOP))
  }

  function Committed(s: State, page: Page, url: Address, commit: Commit, index: int): State
    requires -1 <= s.hist.index && (commit.Traverse? ==> index < |s.hist.entries|) && (!commit.Push? ==> 0 <= index)
  {
    var id, e := s.nextPageID + 1, Successor(s.hist, commit, index);
    s.(nextPageID := id, runtime := None,
       live := Some(if commit.Traverse? && e.Some? then Live(page, Some(url), id, e.value.state, e.value.scroll)
                    else Live(page, Some(url), id, "", TOP)),
       hist := CommittedHistory(s.hist, commit, index, url, id))
  }

  /** A traversal's commit puts the new page in place of the target entry, whose state and scroll it
      keeps, and hands every other entry of that entry's page over to it. */
  lemma TraverseKeeps(h: Hist, index: nat, url: Address, pageID: nat)
    requires -1 <= h.index && index < |h.entries| <= MAX_HISTORY_ENTRIES && pageID != 0
    ensures var e, g := h.entries[index], CommittedHistory(h, Traverse, index, url, pageID);
      && |g.entries| == |h.entries| && g.index == index
      && g.entries[index] == Entry(url, e.state, false, pageID, e.scroll)
      && forall i :: 0 <= i < |h.entries| && i != index ==>
           g.entries[i] == if h.entries[i].pageID == e.pageID != 0 then h.entries[i].(pageID := pageID)
                           else h.entries[i]
  {
  }

  /** A reload's commit keeps the state of the entry it replaces, and that entry's neighbours. */
  lemma ReloadKeeps(h: Hist, index: nat, url: Address, pageID: nat)
    requires -1 <= h.index && index < |h.entries|
    ensures CommittedHistory(h, Replace, index, url, pageID)
      == Hist(h.entries[index := Entry(url, h.entries[index].state, false, pageID, TOP)], index)
  {
  }

  predicate MayInstall(s: State, nav: nat, page: Page) {
    nav == s.navigationID && s.live.Some? && s.live.value.page == page
  }

  function Installed(s: State, runtime: Option<Runtime>): State {
    s.(runtime := runtime)
  }

  function EngineSet(s: State, engine: Engine): State {
    s.(engine := engine, navigationID := s.navigationID + 1, runtime := None)
  }

  /** Replacing the page by hand starts a new history; a page without a URL has no entry in it. */
  function PageSet(s: State, live: Option<Live>): State {
    var t := s.(navigationID := s.navigationID + 1, runtime := None);
    if live.None? then t.(live := None, hist := EMPTY) else
      var id := s.nextPageID + 1;
      t.(nextPageID := id, live := Some(live.value.(historyID := id)),
         hist := if live.value.url.None? then EMPTY
                 else Pushed(EMPTY, Entry(live.value.url.value, "", false, id, TOP)))
  }

  function Closed(s: State): State {
    s.(navigationID := s.navigationID + 1, runtime := None, live := None, hist := EMPTY)
  }

  predicate FragmentOnlyChange(current: Address, target: Address) {
    current.fragment != target.fragment && current.base == target.base
  }

  predicate MayJump(s: State, target: Address) {
    s.live.Some? && s.live.value.url.Some? && FragmentOnlyChange(s.live.value.url.value, target)
  }

  /** A new entry of the current page at `target`. */
  function SamePage(s: State, target: Address, state: string): Entry
    requires s.live.Some?
  {
    Entry(target, state, true, s.live.value.historyID, s.live.value.scroll)
  }

  function Jumped(s: State, target: Address): State
    requires -1 <= s.hist.index && MayJump(s, target)
  {
    s.(live := Some(s.live.value.(url := Some(target), historyState := "")),
       hist := Pushed(s.hist, SamePage(s, target, "")))
  }

  predicate MayEnter(s: State, source: Page?, target: Option<Address>, state: string, wellFormed: bool) {
    && s.live.Some? && s.live.value.page == source && s.live.value.url.Some? && target.Some?
    && 0 < |state| <= MAX_HISTORY_STATE_BYTES && wellFormed
    && |target.value.text| <= MAX_HISTORY_URL_BYTES && !target.value.base.user
    && target.value.base.origin.Some? && target.value.base.origin == s.live.value.url.value.base.origin
  }

  predicate MayPush(s: State, source: Page?, target: Option<Address>, state: string, wellFormed: bool)
    requires -1 <= s.hist.index
  {
    && MayEnter(s, source, target, state, wellFormed)
    && s.hist.index + 2 <= MAX_HISTORY_ENTRIES
    && |state| + StateBytes(Kept(s.hist)) <= MAX_HISTORY_SESSION_STATE_BYTES
  }

  function StatePushed(s: State, target: Address, state: string): State
    requires -1 <= s.hist.index && s.live.Some?
  {
    s.(live := Some(s.live.value.(url := Some(target), historyState := state)),
       hist := Pushed(s.hist, SamePage(s, target, state)))
  }

  function BytesReplaced(h: Hist, state: string): int {
    |state| + StateBytes(h.entries) - if CurrentEntry(h).Some? then |CurrentEntry(h).value.state| else 0
  }

  predicate MayReplace(s: State, source: Page?, target: Option<Address>, state: string, wellFormed: bool) {
    MayEnter(s, source, target, state, wellFormed) && BytesReplaced(s.hist, state) <= MAX_HISTORY_SESSION_STATE_BYTES
  }

  function StateReplaced(s: State, target: Address, state: string): State
    requires -1 <= s.hist.index && s.live.Some?
  {
    s.(live := Some(s.live.value.(url := Some(target), historyState := state)),
       hist := Replaced(s.hist, SamePage(s, target, state)))
  }

  predicate MayScroll(s: State) {
    s.live.Some? && CurrentEntry(s.hist).Some? && CurrentEntry(s.hist).value.pageID == s.live.value.historyID
  }

  function Scrolled(s: State, scroll: Scroll): State
    requires MayScroll(s)
  {
    s.(live := Some(s.live.value.(scroll := scroll)),
       hist := s.hist.(entries := s.hist.entries[s.hist.index := s.hist.entries[s.hist.index].(scroll := scroll)]))
  }

  // ---------------------------------------------------------------- the sections themselves

  datatype Choice = NoEntry | SameDocument | Elsewhere(entry: Entry, index: int)

  class Browser {
    var engine: Engine
    var page: Page?
    var activeRuntime: Option<Runtime>
    var navigationID: nat
    var nextPageID: nat
    const history: History

    ghost function View(): State
      reads this, history, page
    {
      State(engine, if page == null then None else Some(Picture(page)), activeRuntime, navigationID, nextPageID,
            history.View())
    }

    constructor (engine: Engine)
      ensures View() == State(engine, None, None, 0, 0, EMPTY) && fresh(history)
    {
      this.engine, page, activeRuntime, navigationID, nextPageID := engine, null, None, 0, 0;
      history := new History();
    }

    method BeginLoad() returns (nav: nat)
      modifies this
      ensures View() == Begun(old(View())) && nav == navigationID && page == old(page)
    {
      navigationID := navigationID + 1;
      nav := navigationID;
    }

    /** The first section of a traversal: either it completes on the same page or it yields the
        entry and index with which a load will be started later. */
    method ChooseTraversal(delta: int) returns (choice: Choice)
      requires InRange(history.View())
      modifies history, page
      ensures choice.NoEntry? <==> !(0 <= old(history.index) + delta < |old(history.entries)|)
      ensures choice.SameDocument? <==> StaysOnPage(old(View()), delta)
      ensures var at, entries := old(history.index) + delta, old(history.entries);
        && (choice.SameDocument? <==>
              && 0 <= at < |entries| && page != null
              && entries[at].pageID != 0 && entries[at].pageID == old(page.historyID))
        && (choice.SameDocument? ==>
              && history.index == at && history.entries == entries && page.url == Some(entries[at].url)
              && page.historyState == entries[at].state && page.scroll == entries[at].scroll)
      ensures page == old(page)
      ensures View() == if choice.SameDocument? then Moved(old(View()), delta) else old(View())
      ensures choice.Elsewhere? ==>
        choice.index == history.index + delta && choice.entry == history.entries[choice.index]
    {
      var target, index := history.TargetEntry(delta);
      if target.Some? && page != null && target.value.pageID != 0 && target.value.pageID == page.historyID {
        page.url := Some(target.value.url);
        page.historyState := target.value.state;
        page.scroll := target.value.scroll;
        history.index := index;
        return SameDocument;
      }
      choice := if target.None? then NoEntry else Elsewhere(target.value, index);
    }

    /** Publishes a loaded page unless the navigation has been superseded, and hands over the
        runtime of the page before it. */
    method CommitPage(nav: nat, newPage: Page, url: Address, commit: Commit, index: int)
      returns (ok: bool, previous: Option<Runtime>)
      requires -1 <= history.index && newPage.url == Some(url) && newPage.historyState == "" && newPage.scroll == TOP
      requires nav == navigationID && commit.Traverse? ==> index < |history.entries|
      requires !commit.Push? ==> 0 <= index
      modifies this, history, newPage
      ensures ok <==> nav == old(navigationID)
      ensures !ok ==> View() == old(View()) && previous == None
      ensures ok ==> View() == Committed(old(View()), newPage, url, commit, index) && previous == old(activeRuntime)
      ensures ok ==>
        && page == newPage && newPage.url == Some(url) && activeRuntime == None
        && newPage.historyID == nextPageID > old(nextPageID)
    {
      if nav != navigationID {
        return false, None;
      }
      previous := activeRuntime;
      nextPageID := nextPageID + 1;
      newPage.historyID := nextPageID;
      activeRuntime := None;
      page := newPage;
      CommitHistory(newPage, url, commit, index);
      ok := true;
    }

    /** What a commit does to the session history. */
    method CommitHistory(newPage: Page, url: Address, commit: Commit, index: int)
      requires -1 <= history.index && newPage.url == Some(url) && newPage.historyState == "" && newPage.scroll == TOP
      requires commit.Traverse? ==> index < |history.entries|
      requires !commit.Push? ==> 0 <= index
      modifies history, newPage`historyState, newPage`scroll
      ensures history.View() == CommittedHistory(old(history.View()), commit, index, url, newPage.historyID)
      ensures var e := Successor(old(history.View()), commit, index);
              && newPage.historyState == (if commit.Traverse? && e.Some? then e.value.state else "")
              && newPage.scroll == (if commit.Traverse? && e.Some? then e.value.scroll else TOP)
    {
      match commit
      case Push =>
        history.PushEntry(Some(Entry(url, "", false, newPage.historyID, TOP)));
      case Traverse =>
        var e := history.entries[index];
        history.index := index;
        newPage.historyState, newPage.scroll := e.state, e.scroll;
        history.RebindPage(e.pageID, newPage.historyID);
        history.ReplaceEntry(Some(Entry(url, e.state, false, newPage.historyID, e.scroll)));
      case Replace =>
        history.index := index;
        var current := history.Current();
        var state := if current.Some? then current.value.state else "";
        history.ReplaceEntry(Some(Entry(url, state, false, newPage.historyID, TOP)));
    }

    method InstallRuntime(nav: nat, forPage: Page, runtime: Option<Runtime>) returns (ok: bool)
      modifies this
      ensures ok <==> MayInstall(old(View()), nav, forPage)
      ensures ok <==> nav == navigationID && page == forPage
      ensures activeRuntime == if ok then runtime else old(activeRuntime)
      ensures View() == (if ok then Installed(old(View()), runtime) else old(View())) && page == old(page)
    {
      if nav != navigationID || page != forPage {
        return false;
      }
      activeRuntime := runtime;
      ok := true;
    }

    method TakeForEngine(newEngine: Engine) returns (changed: bool, held: Option<Runtime>)
      modifies this
      ensures changed <==> newEngine != old(engine)
      ensures View() == if changed then EngineSet(old(View()), newEngine) else old(View())
      ensures engine == newEngine && navigationID == old(navigationID) + (if changed then 1 else 0)
      ensures activeRuntime == if changed then None else old(activeRuntime)
      ensures held == (if changed then old(activeRuntime) else None) && page == old(page)
    {
      if engine == newEngine {
        return false, None;
      }
      engine := newEngine;
      navigationID := navigationID + 1;
      held := activeRuntime;
      activeRuntime := None;
      changed := true;
    }

    method TakeForPage(newPage: Page?) returns (held: Option<Runtime>)
      modifies this, history, newPage
      ensures View() == PageSet(old(View()), if newPage == null then None else Some(old(Picture(newPage))))
      ensures held == old(activeRuntime) && page == newPage && activeRuntime == None
      ensures navigationID == old(navigationID) + 1
      ensures newPage == null || old(newPage.url).None? ==> history.entries == []
      ensures newPage != null && old(newPage.url).Some? ==>
        && newPage.historyID == nextPageID > old(nextPageID) && newPage.url == old(newPage.url)
        && history.entries == [Entry(newPage.url.value, "", false, nextPageID, TOP)] && history.index == 0
    {
      navigationID := navigationID + 1;
      held := activeRuntime;
      activeRuntime := None;
      page := newPage;
      history.Clear();
      if newPage != null {
        nextPageID := nextPageID + 1;
        newPage.historyID := nextPageID;
        if newPage.url.Some? {
          history.PushEntry(Some(Entry(newPage.url.value, "", false, newPage.historyID, TOP)));
        }
      }
    }

    method TakeForClose() returns (held: Option<Runtime>)
      modifies this, history
      ensures View() == Closed(old(View())) && held == old(activeRuntime)
      ensures page == null && activeRuntime == None && history.entries == [] && navigationID == old(navigationID) + 1
    {
      navigationID := navigationID + 1;
      held := activeRuntime;
      activeRuntime := None;
      page := null;
      history.Clear();
    }

    method CommitFragmentNavigation(target: Address) returns (ok: bool)
      requires -1 <= history.index
      modifies history, page
      ensures ok <==> MayJump(old(View()), target)
      ensures ok <==>
        && page != null && old(page.url).Some?
        && old(page.url).value.fragment != target.fragment && old(page.url).value.base == target.base
      ensures ok ==> page.url == Some(target) && page.historyState == ""
      ensures View() == if ok then Jumped(old(View()), target) else old(View())
    {
      if page == null || page.url.None? {
        return false;
      }
      if page.url.value.fragment == target.fragment || page.url.value.base != target.base {
        return false;
      }
      page.url := Some(target);
      page.historyState := "";
      history.PushEntry(Some(Entry(target, "", true, page.historyID, page.scroll)));
      ok := true;
    }

    method CheckEntry(source: Page?, target: Option<Address>, state: string, wellFormed: bool) returns (ok: bool)
      ensures ok <==> MayEnter(View(), source, target, state, wellFormed)
      ensures ok <==>
        && source != null && page == source && source.url.Some? && target.Some?
        && 0 < |state| <= MAX_HISTORY_STATE_BYTES && wellFormed
        && |target.value.text| <= MAX_HISTORY_URL_BYTES && !target.value.base.user
        && target.value.base.origin.Some? && target.value.base.origin == source.url.value.base.origin
    {
      if source == null || page != source || source.url.None? || target.None? {
        return false;
      }
      ok := 0 < |state| <= MAX_HISTORY_STATE_BYTES && wellFormed && |target.value.text| <= MAX_HISTORY_URL_BYTES
            && !target.value.base.user
            && target.value.base.origin.Some? && target.value.base.origin == source.url.value.base.origin;
    }

    /** `history.pushState`; `wellFormed` says whether the state is valid UTF-8 and JSON. */
    method PushHistoryState(source: Page?, target: Option<Address>, state: string, wellFormed: bool) returns (ok: bool)
      requires -1 <= history.index
      modifies history, page
      ensures ok <==> MayPush(old(View()), source, target, state, wellFormed)
      ensures ok <==>
        && MayEnter(old(View()), source, target, state, wellFormed)
        && old(history.index) + 1 < MAX_HISTORY_ENTRIES
        && |state| + StateBytes(Kept(old(history.View()))) <= MAX_HISTORY_SESSION_STATE_BYTES
      ensures ok ==>
        && source != null && page == source && page.url == target && target.Some? && page.historyState == state
        && 0 < |state| <= MAX_HISTORY_STATE_BYTES && wellFormed
        && |target.value.text| <= MAX_HISTORY_URL_BYTES && !target.value.base.user
        && old(page.url).Some? && target.value.base.origin.Some?
        && target.value.base.origin == old(page.url).value.base.origin
      ensures View() == if ok then StatePushed(old(View()), target.value, state) else old(View())
    {
      ok := CheckEntry(source, target, state, wellFormed);
      if !ok {
        return;
      }
      var bytes := history.StateBytesAfterPush(state);
      if history.index + 2 > MAX_HISTORY_ENTRIES || bytes > MAX_HISTORY_SESSION_STATE_BYTES {
        return false;
      }
      page.url := target;
      page.historyState := state;
      history.PushEntry(Some(Entry(target.value, state, true, page.historyID, page.scroll)));
    }

    /** `history.replaceState`. */
    method ReplaceHistoryState(source: Page?, target: Option<Address>, state: string, wellFormed: bool)
      returns (ok: bool)
      requires -1 <= history.index
      modifies history, page
      ensures ok <==> MayReplace(old(View()), source, target, state, wellFormed)
      ensures ok <==>
        && MayEnter(old(View()), source, target, state, wellFormed)
        && var entries, index := old(history.entries), old(history.index);
           |state| + StateBytes(entries) - (if 0 <= index < |entries| then |entries[index].state| else 0)
           <= MAX_HISTORY_SESSION_STATE_BYTES
      ensures ok ==>
        && source != null && page == source && page.url == target && target.Some? && page.historyState == state
        && 0 < |state| <= MAX_HISTORY_STATE_BYTES && wellFormed
        && |target.value.text| <= MAX_HISTORY_URL_BYTES && !target.value.base.user
        && old(page.url).Some? && target.value.base.origin.Some?
        && target.value.base.origin == old(page.url).value.base.origin
      ensures View() == if ok then StateReplaced(old(View()), target.value, state) else old(View())
    {
      ok := CheckEntry(source, target, state, wellFormed);
      if !ok {
        return;
      }
      var bytes := history.StateBytesAfterReplace(state);
      if bytes > MAX_HISTORY_SESSION_STATE_BYTES {
        return false;
      }
      page.url := target;
      page.historyState := state;
      history.ReplaceEntry(Some(Entry(target.value, state, true, page.historyID, page.scroll)));
    }

    method UpdateHistoryScroll(scroll: Scroll)
      modifies history, page
      ensures View() == if MayScroll(old(View())) then Scrolled(old(View()), scroll) else old(View())
      ensures var entries, index := old(history.entries), old(history.index);
        if page != null && 0 <= index < |entries| && entries[index].pageID == page.historyID then
          page.scroll == scroll && history.entries == entries[index := entries[index].(scroll := scroll)]
        else
          View() == old(View())
    {
      if page == null || history.index < 0 || history.index >= |history.entries| {
        return;
      }
      var entry := history.entries[history.index];
      if entry.pageID != page.historyID {
        return;
      }
      history.entries := history.entries[history.index := entry.(scroll := scroll)];
      page.scroll := scroll;
    }
  }

  function Picture(page: Page): Live
    reads page
  {
    Live(page, page.url, page.historyID, page.historyState, page.scroll)
  }
}
