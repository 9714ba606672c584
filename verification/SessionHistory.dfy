/** The session history of one tab: a bounded list of entries and the index of the current one. */
module SessionHistory {
  import opened Options

  const MAX_HISTORY_ENTRIES: nat := 1024
  const MAX_HISTORY_STATE_BYTES: nat := 0x1_0000
  const MAX_HISTORY_SESSION_STATE_BYTES: nat := 0x40_0000
  const MAX_HISTORY_URL_BYTES: nat := 0x2000

  /** A URL without its fragment: its text, its origin, if it has one, and whether it carries user
      information. */
  datatype Base = Base(text: string, origin: Option<string>, user: bool)

  /** A URL, as far as the history is concerned: its text, and what the text is made of.  The base
      alone determines the origin. */
  datatype Address = Address(text: string, base: Base, fragment: string)

  datatype Scroll = Scroll(first: int, offset: int)

  datatype Entry = Entry(url: Address, state: string, sameDocument: bool, pageID: nat, scroll: Scroll)

  datatype Hist = Hist(entries: seq<Entry>, index: int)

  const EMPTY: Hist := Hist([], -1)

  /** There is a current entry unless there are no entries. */
  predicate InRange(h: Hist) {
    if h.entries == [] then h.index == -1 else 0 <= h.index < |h.entries|
  }

  /** What survives a push: everything up to the current entry, or all entries when the index
      has gone stale. */
  function Kept(h: Hist): seq<Entry>
    requires -1 <= h.index
  {
    if h.index < |h.entries| then h.entries[..h.index + 1] else h.entries
  }

  /** The new entry follows the most recent of the kept ones and is current. */
  function Pushed(h: Hist, e: Entry): Hist
    requires -1 <= h.index
  {
    var recent := if |Kept(h)| < MAX_HISTORY_ENTRIES then Kept(h) else Kept(h)[1..];
    Hist(recent + [e], |recent|)
  }

  function Replaced(h: Hist, e: Entry): Hist
    requires -1 <= h.index
  {
    if 0 <= h.index < |h.entries| then h.(entries := h.entries[h.index := e]) else Pushed(h, e)
  }

  function Reowned(e: Entry, previous: nat, current: nat): Entry {
    if e.pageID == previous then e.(pageID := current) else e
  }

  function Rebound(h: Hist, previous: nat, current: nat): Hist {
    if previous == 0 || current == 0 then h else
      h.(entries := seq(|h.entries|, i requires 0 <= i < |h.entries| => Reowned(h.entries[i], previous, current)))
  }

  function StateBytes(s: seq<Entry>): nat {
    if s == [] then 0 else StateBytes(s[..|s| - 1]) + |s[|s| - 1].state|
  }

  class History {
    var entries: seq<Entry>
    var index: int

    ghost function View(): Hist
      reads this
    {
      Hist(entries, index)
    }

    constructor ()
      ensures View() == EMPTY
    {
      entries, index := [], -1;
    }

    method Clear()
      modifies this
      ensures View() == EMPTY
    {
      entries, index := [], -1;
    }

    /** Makes a new entry current; a missing entry, or one without a URL, is ignored. */
    method PushEntry(entry: Option<Entry>)
      requires -1 <= index
      modifies this
      ensures View() == if entry.None? then old(View()) else Pushed(old(View()), entry.value)
    {
      if entry.None? {
        return;
      }
      if index + 1 < |entries| {
        entries := entries[..index + 1];
      }
      if |entries| >= MAX_HISTORY_ENTRIES {
        entries := entries[1..];
        index := index - 1;
      }
      entries := entries + [entry.value];
      index := |entries| - 1;
    }

    method ReplaceEntry(entry: Option<Entry>)
      requires -1 <= index
      modifies this
      ensures View() == if entry.None? then old(View()) else Replaced(old(View()), entry.value)
    {
      if entry.None? {
        return;
      }
      if index < 0 || index >= |entries| {
        PushEntry(entry);
        return;
      }
      entries := entries[index := entry.value];
    }

    /** The entry `delta` steps away: there is one exactly when the index stays in range. */
    method TargetEntry(delta: int) returns (target: Option<Entry>, at: int)
      requires InRange(View())
      ensures target.Some? <==> 0 <= index + delta < |entries|
      ensures target.Some? ==> at == index + delta && target.value == entries[at]
      ensures target.None? ==> at == index
    {
      if delta > |entries| || delta < -|entries| {
        return None, index;
      }
      at := index + delta;
      if at < 0 || at >= |entries| {
        return None, index;
      }
      target := Some(entries[at]);
    }

    /** The state bytes a push would leave. */
    method StateBytesAfterPush(state: string) returns (total: nat)
      requires -1 <= index
      ensures total == |state| + StateBytes(Kept(View()))
    {
      total := |state|;
      var last := if index < |entries| - 1 then index else |entries| - 1;
      for i := 0 to last + 1
        invariant total == |state| + StateBytes(entries[..i])
      {
        assert entries[..i + 1][..i] == entries[..i];
        total := total + |entries[i].state|;
      }
      assert entries[..last + 1] == Kept(View());
    }

    /** The state bytes a replacement would leave. */
    method StateBytesAfterReplace(state: string) returns (total: nat)
      ensures 0 <= index < |entries| ==> total + |entries[index].state| == |state| + StateBytes(entries)
      ensures !(0 <= index < |entries|) ==> total == |state| + StateBytes(entries)
    {
      total := |state|;
      for i := 0 to |entries|
        invariant total + (if 0 <= index < i then |entries[index].state| else 0) == |state| + StateBytes(entries[..i])
      {
        assert entries[..i + 1][..i] == entries[..i];
        if i != index {
          total := total + |entries[i].state|;
        }
      }
      assert entries[..|entries|] == entries;
    }

    /** Hands the entries of one page over to another. */
    method RebindPage(previous: nat, current: nat)
      modifies this
      ensures View() == Rebound(old(View()), previous, current)
    {
      if previous == 0 || current == 0 || previous == current {
        assert entries == Rebound(View(), previous, current).entries;
        return;
      }
      for i := 0 to |entries|
        invariant |entries| == |old(entries)| && index == old(index)
        invariant forall k :: 0 <= k < i ==> entries[k] == Reowned(old(entries)[k], previous, current)
        invariant forall k :: i <= k < |entries| ==> entries[k] == old(entries)[k]
      {
        if entries[i].pageID == previous {
          entries := entries[i := entries[i].(pageID := current)];
        }
      }
      assert entries == Rebound(old(View()), previous, current).entries;
    }

    method Current() returns (entry: Option<Entry>)
      ensures entry == CurrentEntry(View())
    {
      if index < 0 || index >= |entries| {
        return None;
      }
      entry := Some(entries[index]);
    }

    /** Going back is possible exactly when the entry before the current one exists. */
    method CanBack() returns (ok: bool)
      requires InRange(View())
      ensures ok <==> 0 <= index - 1 < |entries|
    {
      ok := index > 0;
    }

    method CanForward() returns (ok: bool)
      requires InRange(View())
      ensures ok <==> 0 <= index + 1 < |entries|
    {
      ok := index >= 0 && index + 1 < |entries|;
    }
  }

  function CurrentEntry(h: Hist): Option<Entry> {
    if 0 <= h.index < |h.entries| then Some(h.entries[h.index]) else None
  }

  // ---------------------------------------------------------------- laws

  lemma {:induction false} StateBytesSplit(a: seq<Entry>, b: seq<Entry>)
    ensures StateBytes(a + b) == StateBytes(a) + StateBytes(b)
  {
    if b == [] {
      assert a + b == a;
    } else {
      assert (a + b)[..|a + b| - 1] == a + b[..|b| - 1];
      StateBytesSplit(a, b[..|b| - 1]);
    }
  }

  /** A pushed entry is current, nothing follows it, the cap holds, and what precedes it is the
      most recent part of what led up to the old position. */
  lemma PushKeeps(h: Hist, e: Entry)
    requires -1 <= h.index && |h.entries| <= MAX_HISTORY_ENTRIES
    ensures var g := Pushed(h, e);
            && InRange(g) && CurrentEntry(g) == Some(e) && g.index == |g.entries| - 1
            && |g.entries| <= MAX_HISTORY_ENTRIES
            && g.entries[..g.index] == Kept(h)[|Kept(h)| - g.index..]
            && (|Kept(h)| < MAX_HISTORY_ENTRIES ==> g.index == |Kept(h)|)
  {
    var kept, g := Kept(h), Pushed(h, e);
    assert g.entries[..g.index] == kept[|kept| - g.index..];
  }

  /** A push adds the bytes of the new entry to those of the kept ones, or fewer at the cap. */
  lemma PushBytes(h: Hist, e: Entry)
    requires -1 <= h.index && |h.entries| <= MAX_HISTORY_ENTRIES
    ensures StateBytes(Pushed(h, e).entries) <= StateBytes(Kept(h)) + |e.state| <= StateBytes(h.entries) + |e.state|
    ensures |Kept(h)| < MAX_HISTORY_ENTRIES ==> StateBytes(Pushed(h, e).entries) == StateBytes(Kept(h)) + |e.state|
  {
    var kept := Kept(h);
    var recent := if |kept| < MAX_HISTORY_ENTRIES then kept else kept[1..];
    StateBytesSplit(kept, h.entries[|kept|..]);
    assert kept + h.entries[|kept|..] == h.entries;
    assert (recent + [e])[..|recent|] == recent;
    if |kept| >= MAX_HISTORY_ENTRIES {
      StateBytesSplit(kept[..1], kept[1..]);
      assert kept == kept[..1] + kept[1..];
    }
  }

  /** Right after a push the entry one step back is the one that was current before. */
  lemma BackUndoesPush(h: Hist, e: Entry)
    requires InRange(h) && h.entries != [] && |h.entries| <= MAX_HISTORY_ENTRIES
    ensures var g := Pushed(h, e); 0 <= g.index - 1 && Some(g.entries[g.index - 1]) == CurrentEntry(h)
  {
  }

  /** A replacement touches the current entry only, unless the index has gone stale. */
  lemma ReplaceKeeps(h: Hist, e: Entry)
    requires -1 <= h.index && |h.entries| <= MAX_HISTORY_ENTRIES
    ensures var g := Replaced(h, e); InRange(g) && CurrentEntry(g) == Some(e) && |g.entries| <= MAX_HISTORY_ENTRIES
    ensures 0 <= h.index < |h.entries| ==>
      StateBytes(Replaced(h, e).entries) + |h.entries[h.index].state| == StateBytes(h.entries) + |e.state|
    ensures h.index >= |h.entries| ==> StateBytes(Replaced(h, e).entries) <= StateBytes(h.entries) + |e.state|
  {
    if 0 <= h.index < |h.entries| {
      var a, b, x := h.entries[..h.index], h.entries[h.index + 1..], h.entries[h.index];
      assert h.entries == a + [x] + b && h.entries[h.index := e] == a + [e] + b;
      StateBytesSplit(a + [x], b);
      StateBytesSplit(a + [e], b);
      StateBytesSplit(a, [x]);
      StateBytesSplit(a, [e]);
    } else {
      PushKeeps(h, e);
      PushBytes(h, e);
    }
  }

  lemma {:induction false} SameStates(a: seq<Entry>, b: seq<Entry>)
    requires |a| == |b| && forall i :: 0 <= i < |a| ==> a[i].state == b[i].state
    ensures StateBytes(a) == StateBytes(b)
  {
    if a != [] { SameStates(a[..|a| - 1], b[..|b| - 1]); }
  }

  /** Rebinding gives the entries of one page to the other, if both are pages, and changes nothing else. */
  lemma ReboundKeeps(h: Hist, previous: nat, current: nat)
    ensures var g := Rebound(h, previous, current);
            && |g.entries| == |h.entries| && g.index == h.index && StateBytes(g.entries) == StateBytes(h.entries)
            && forall i :: 0 <= i < |h.entries| ==>
                 && g.entries[i].(pageID := 0) == h.entries[i].(pageID := 0)
                 && g.entries[i].pageID == (if h.entries[i].pageID == previous && previous != 0 && current != 0
                                            then current else h.entries[i].pageID)
  {
    SameStates(Rebound(h, previous, current).entries, h.entries);
  }

  /** A traversal chosen before a push stays in range exactly when it aims no further than the
      entry after the one that was current at the push. */
  lemma PushInvalidates(h: Hist, e: Entry, target: nat)
    requires InRange(h) && |h.entries| <= MAX_HISTORY_ENTRIES && target < |h.entries|
    ensures target < |Pushed(h, e).entries| <==> target <= h.index + 1
  {
  }
}
