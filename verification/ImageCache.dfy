/** The image cache of one page: downloaded sources and resized surfaces under a shared entry and
    byte limit, with eviction of the least recently used completed object. */
module ImageCache {
  import opened Options

  datatype SurfaceKey = SurfaceKey(url: string, variant: string)

  /** A cached source or surface; `closed` says that its ready channel has been closed. */
  class Cached {
    var closed: bool
    var complete: bool
    var bytes: nat
    var lastUsed: nat

    constructor (lastUsed: nat)
      ensures !closed && !complete && bytes == 0 && this.lastUsed == lastUsed
    {
      closed, complete, bytes, this.lastUsed := false, false, 0, lastUsed;
    }
  }

  datatype Item = Item(obj: Cached, complete: bool, bytes: nat, lastUsed: nat)

  datatype State = State(
    entries: map<string, Item>, surfaces: map<SurfaceKey, Item>, bytes: int, tick: nat, maxBytes: int, maxEntries: int)

  datatype Ref = Source(url: string) | Surface(key: SurfaceKey)

  predicate Has(s: State, r: Ref) {
    match r
    case Source(url) => url in s.entries
    case Surface(key) => key in s.surfaces
  }

  function Get(s: State, r: Ref): Item
    requires Has(s, r)
  {
    match r
    case Source(url) => s.entries[url]
    case Surface(key) => s.surfaces[key]
  }

  function Size(s: State): nat {
    |s.entries| + |s.surfaces|
  }

  predicate Completed(s: State, r: Ref) {
    Has(s, r) && Get(s, r).complete
  }

  /** The least recently used completed object. */
  ghost predicate Oldest(s: State, r: Ref) {
    Completed(s, r) && forall q :: Completed(s, q) ==> Get(s, r).lastUsed <= Get(s, q).lastUsed
  }

  /** No two resident objects were last used at the same tick. */
  ghost predicate Distinct(s: State) {
    && (forall r :: Has(s, r) ==> Get(s, r).lastUsed <= s.tick)
    && (forall q, r :: Has(s, q) && Has(s, r) && q != r ==> Get(s, q).lastUsed != Get(s, r).lastUsed)
  }

  // ---------------------------------------------------------------- totals

  ghost function Total<K>(m: map<K, Item>): nat
    decreases |m|
  {
    if m == map[] then 0 else
      var k :| k in m;
      assert |m - {k}| < |m| by { assert (m - {k}).Keys == m.Keys - {k}; }
      m[k].bytes + Total(m - {k})
  }

  lemma {:induction false} TotalWithout<K>(m: map<K, Item>, k: K)
    requires k in m
    ensures Total(m) == m[k].bytes + Total(m - {k})
    decreases |m|
  {
    var j :| j in m && Total(m) == m[j].bytes + Total(m - {j});
    if j != k {
      assert (m - {j}).Keys == m.Keys - {j};
      TotalWithout(m - {j}, k);
      assert k in m - {j} && j in m - {k};
      assert (m - {k}).Keys == m.Keys - {k};
      TotalWithout(m - {k}, j);
      assert m - {j} - {k} == m - {k} - {j};
    }
  }

  lemma TotalPut<K>(m: map<K, Item>, k: K, x: Item)
    ensures Total(m[k := x]) == x.bytes + Total(m - {k})
    ensures k in m ==> Total(m[k := x]) == Total(m) - m[k].bytes + x.bytes
    ensures k !in m ==> Total(m[k := x]) == Total(m) + x.bytes
  {
    TotalWithout(m[k := x], k);
    assert m[k := x] - {k} == m - {k};
    if k in m { TotalWithout(m, k); } else { assert m - {k} == m; }
  }

  /** The bytes of everything resident. */
  ghost function Resident(s: State): nat {
    Total(s.entries) + Total(s.surfaces)
  }

  // ---------------------------------------------------------------- eviction

  predicate Over(s: State, targetBytes: int, reserve: nat) {
    || (targetBytes > 0 && s.bytes > targetBytes)
    || (s.maxEntries > 0 && Size(s) + reserve > s.maxEntries)
  }

  function OfSource(surfaces: map<SurfaceKey, Item>, url: string): map<SurfaceKey, Item> {
    map k | k in surfaces && k.url == url :: surfaces[k]
  }

  function OfOthers(surfaces: map<SurfaceKey, Item>, url: string): map<SurfaceKey, Item> {
    map k | k in surfaces && k.url != url :: surfaces[k]
  }

  /** The state without `r`; a source takes its surfaces with it. */
  ghost function Dropped(s: State, r: Ref): State
    requires Has(s, r)
  {
    match r
    case Source(url) =>
      s.(entries := s.entries - {url}, surfaces := OfOthers(s.surfaces, url),
         bytes := s.bytes - s.entries[url].bytes - Total(OfSource(s.surfaces, url)))
    case Surface(key) => s.(surfaces := s.surfaces - {key}, bytes := s.bytes - s.surfaces[key].bytes)
  }

  lemma DroppedSize(s: State, r: Ref)
    requires Has(s, r)
    ensures Size(Dropped(s, r)) < Size(s)
  {
    match r
    case Source(url) =>
      assert (s.entries - {url}).Keys == s.entries.Keys - {url};
      assert OfOthers(s.surfaces, url).Keys <= s.surfaces.Keys;
      Subset(OfOthers(s.surfaces, url).Keys, s.surfaces.Keys);
    case Surface(key) =>
      assert (s.surfaces - {key}).Keys == s.surfaces.Keys - {key};
  }

  lemma Subset<T>(a: set<T>, b: set<T>)
    requires a <= b
    ensures |a| <= |b|
  {
    assert b == a + (b - a);
  }

  /** Evicts, while a limit is exceeded, the least recently used completed object; a source with
      the empty URL stops the eviction. */
  ghost function Shrunk(s: State, targetBytes: int, reserve: nat): State
    decreases Size(s)
  {
    if !Over(s, targetBytes, reserve) || !(exists r :: Oldest(s, r)) then s else
      var r :| Oldest(s, r);
      DroppedSize(s, r);
      if r == Source("") then s else Shrunk(Dropped(s, r), targetBytes, reserve)
  }

  lemma OldestUnique(s: State, q: Ref, r: Ref)
    requires Distinct(s) && Oldest(s, q) && Oldest(s, r)
    ensures q == r
  {
  }

  lemma ShrunkStep(s: State, targetBytes: int, reserve: nat, r: Ref)
    requires Distinct(s) && Over(s, targetBytes, reserve) && Oldest(s, r)
    ensures Shrunk(s, targetBytes, reserve)
         == if r == Source("") then s else Shrunk(Dropped(s, r), targetBytes, reserve)
  {
    forall q | Oldest(s, q)
      ensures q == r
    { OldestUnique(s, q, r); }
  }

  lemma DroppedDistinct(s: State, r: Ref)
    requires Distinct(s) && Has(s, r)
    ensures Distinct(Dropped(s, r))
  {
    assert forall q :: Has(Dropped(s, r), q) ==> Has(s, q) && Get(Dropped(s, r), q) == Get(s, q);
  }

  /** Among the completed objects there is a least recently used one. */
  lemma {:induction false} OldestExists(s: State, rs: set<Ref>) returns (r: Ref)
    requires rs != {} && forall q | q in rs :: Completed(s, q)
    ensures r in rs && Completed(s, r)
    ensures forall q | q in rs :: Completed(s, q) && Get(s, r).lastUsed <= Get(s, q).lastUsed
    decreases |rs|
  {
    var q :| q in rs;
    if rs == {q} {
      r := q;
    } else {
      var p := OldestExists(s, rs - {q});
      r := if Get(s, p).lastUsed <= Get(s, q).lastUsed then p else q;
      assert forall x | x in rs :: x == q || x in rs - {q};
    }
  }

  /** Dropping an object takes its bytes off the counter and off the resident total alike. */
  lemma DroppedBytes(s: State, r: Ref)
    requires Has(s, r)
    ensures Dropped(s, r).bytes - Resident(Dropped(s, r)) == s.bytes - Resident(s)
  {
    match r
    case Source(url) =>
      TotalWithout(s.entries, url);
      TotalSplit(s.surfaces, url);
    case Surface(key) => TotalWithout(s.surfaces, key);
  }

  lemma OfMinus(m: map<SurfaceKey, Item>, k: SurfaceKey, url: string)
    ensures OfSource(m - {k}, url) == OfSource(m, url) - {k}
    ensures OfOthers(m - {k}, url) == OfOthers(m, url) - {k}
  {
  }

  lemma MinusNothing<K>(m: map<K, Item>, k: K)
    requires k !in m
    ensures m - {k} == m
  {
  }

  lemma {:induction false} TotalSplit(m: map<SurfaceKey, Item>, url: string)
    ensures Total(m) == Total(OfSource(m, url)) + Total(OfOthers(m, url))
    decreases |m|
  {
    if m == map[] {
      assert OfSource(m, url) == map[] && OfOthers(m, url) == map[];
    } else {
      var k :| k in m;
      assert (m - {k}).Keys == m.Keys - {k};
      TotalSplit(m - {k}, url);
      TotalWithout(m, k);
      OfMinus(m, k, url);
      if k.url == url {
        TotalWithout(OfSource(m, url), k);
        MinusNothing(OfOthers(m, url), k);
      } else {
        TotalWithout(OfOthers(m, url), k);
        MinusNothing(OfSource(m, url), k);
      }
    }
  }

  /** What eviction leaves: unchanged items of `s`, with every incomplete source and the slack of
      the byte counter kept. */
  ghost predicate Leaves(s: State, t: State) {
    && (forall r :: Has(t, r) ==> Has(s, r) && Get(t, r) == Get(s, r))
    && (forall url | url in s.entries && !s.entries[url].complete :: url in t.entries)
    && t.bytes - Resident(t) == s.bytes - Resident(s)
    && t.tick == s.tick && t.maxBytes == s.maxBytes && t.maxEntries == s.maxEntries && Size(t) <= Size(s)
  }

  lemma {:induction false} ShrunkLeaves(s: State, targetBytes: int, reserve: nat)
    requires Distinct(s)
    ensures Leaves(s, Shrunk(s, targetBytes, reserve)) && Distinct(Shrunk(s, targetBytes, reserve))
    decreases Size(s)
  {
    if Over(s, targetBytes, reserve) && exists r :: Oldest(s, r) {
      var r :| Oldest(s, r);
      ShrunkStep(s, targetBytes, reserve, r);
      if r != Source("") {
        DroppedSize(s, r);
        DroppedDistinct(s, r);
        DroppedLeaves(s, r);
        ShrunkLeaves(Dropped(s, r), targetBytes, reserve);
        LeavesTwice(s, Dropped(s, r), Shrunk(Dropped(s, r), targetBytes, reserve));
      }
    }
  }

  lemma DroppedLeaves(s: State, r: Ref)
    requires Completed(s, r)
    ensures Leaves(s, Dropped(s, r))
  {
    DroppedSize(s, r);
    DroppedBytes(s, r);
    forall q | Has(Dropped(s, r), q)
      ensures Has(s, q) && Get(Dropped(s, r), q) == Get(s, q)
    { DroppedKeeps(s, r, q); }
  }

  lemma LeavesTwice(s: State, t: State, u: State)
    requires Leaves(s, t) && Leaves(t, u)
    ensures Leaves(s, u)
  {
    forall url | url in s.entries && !s.entries[url].complete
      ensures url in u.entries
    { assert Has(t, Source(url)) && Get(t, Source(url)) == Get(s, Source(url)); }
  }

  /** Eviction is over: the state is within the limits, or nothing in it is completed. */
  ghost predicate Settled(s: State, targetBytes: int, reserve: nat) {
    !Over(s, targetBytes, reserve) || !(exists r :: Completed(s, r))
  }

  ghost function Completes(s: State): set<Ref> {
    (set url | url in s.entries && s.entries[url].complete :: Source(url))
    + (set key | key in s.surfaces && s.surfaces[key].complete :: Surface(key))
  }

  lemma SomeOldest(s: State)
    requires exists r :: Completed(s, r)
    ensures exists r :: Oldest(s, r)
  {
    var q :| Completed(s, q);
    assert q in Completes(s);
    var r := OldestExists(s, Completes(s));
    forall x | Completed(s, x) ensures Get(s, r).lastUsed <= Get(s, x).lastUsed {
      assert x in Completes(s);
    }
    assert Oldest(s, r);
  }

  /** Without a source under the empty URL eviction goes on until it has done its work. */
  lemma {:induction false} ShrunkSettles(s: State, targetBytes: int, reserve: nat)
    requires Distinct(s) && !Completed(s, Source(""))
    ensures Settled(Shrunk(s, targetBytes, reserve), targetBytes, reserve)
    decreases Size(s)
  {
    if Over(s, targetBytes, reserve) && exists r :: Completed(s, r) {
      SomeOldest(s);
      var r :| Oldest(s, r);
      ShrunkStep(s, targetBytes, reserve, r);
      DroppedSize(s, r);
      DroppedDistinct(s, r);
      ShrunkSettles(Dropped(s, r), targetBytes, reserve);
    }
  }

  lemma {:induction false} EmptyURLStays(s: State, targetBytes: int, reserve: nat)
    requires Distinct(s) && Completed(s, Source(""))
    ensures Completed(Shrunk(s, targetBytes, reserve), Source(""))
    decreases Size(s)
  {
    if Over(s, targetBytes, reserve) && exists r :: Oldest(s, r) {
      var r :| Oldest(s, r);
      ShrunkStep(s, targetBytes, reserve, r);
      if r != Source("") {
        DroppedSize(s, r);
        DroppedDistinct(s, r);
        EmptyURLStays(Dropped(s, r), targetBytes, reserve);
      }
    }
  }

  /** Eviction never adds to the counter. */
  lemma {:induction false} ShrunkBytes(s: State, targetBytes: int, reserve: nat)
    requires Distinct(s)
    ensures Shrunk(s, targetBytes, reserve).bytes <= s.bytes
    decreases Size(s)
  {
    if Over(s, targetBytes, reserve) && exists r :: Oldest(s, r) {
      var r :| Oldest(s, r);
      ShrunkStep(s, targetBytes, reserve, r);
      if r != Source("") {
        DroppedSize(s, r);
        DroppedDistinct(s, r);
        ShrunkBytes(Dropped(s, r), targetBytes, reserve);
      }
    }
  }

  lemma ShrunkLimits(s: State, targetBytes: int, reserve: nat)
    requires Distinct(s)
    ensures Shrunk(s, targetBytes, reserve).maxEntries == s.maxEntries
  {
    ShrunkLeaves(s, targetBytes, reserve);
  }

  /** Eviction always does its work exactly when no completed source has the empty URL, which
      the search for the oldest object takes for "none". */
  lemma ShrunkSettlesExactly(s: State)
    requires Distinct(s) && s.maxEntries > 0
    ensures (forall targetBytes: int, reserve: nat :: Settled(Shrunk(s, targetBytes, reserve), targetBytes, reserve))
       <==> !Completed(s, Source(""))
  {
    if Completed(s, Source("")) {
      var reserve := s.maxEntries + 1;
      EmptyURLStays(s, 0, reserve);
      ShrunkLimits(s, 0, reserve);
      assert !Settled(Shrunk(s, 0, reserve), 0, reserve);
    } else {
      forall targetBytes: int, reserve: nat
        ensures Settled(Shrunk(s, targetBytes, reserve), targetBytes, reserve)
      { ShrunkSettles(s, targetBytes, reserve); }
    }
  }

  /** `r` went because of its own age or along with its source. */
  ghost predicate WentWithSource(s: State, t: State, r: Ref) {
    r.Surface? && r.key.url in s.entries && r.key.url !in t.entries
  }

  /** Exactly the least recently used objects go: whatever left on its own account was used
      before every completed object that stays. */
  lemma {:induction false} ShrunkIsLRU(s: State, targetBytes: int, reserve: nat, r: Ref, q: Ref)
    requires Distinct(s)
    requires var t := Shrunk(s, targetBytes, reserve); Has(s, r) && !Has(t, r) && Completed(t, q) && Has(s, q)
    ensures WentWithSource(s, Shrunk(s, targetBytes, reserve), r) || Get(s, r).lastUsed < Get(s, q).lastUsed
    decreases Size(s)
  {
    var t := Shrunk(s, targetBytes, reserve);
    var o :| Oldest(s, o);
    ShrunkStep(s, targetBytes, reserve, o);
    DroppedSize(s, o);
    DroppedDistinct(s, o);
    ShrunkLeaves(Dropped(s, o), targetBytes, reserve);
    if Has(Dropped(s, o), r) {
      DroppedKeeps(s, o, q);
      ShrunkIsLRU(Dropped(s, o), targetBytes, reserve, r, q);
      if WentWithSource(Dropped(s, o), t, r) { DroppedKeeps(s, o, Source(r.key.url)); }
    } else {
      assert !Has(Dropped(s, o), o);
      assert r == o || WentWithSource(s, t, r);
    }
  }

  /** Eviction takes no more than it has to: before the last object went, a limit was exceeded. */
  lemma {:induction false} ShrunkNeeded(s: State, targetBytes: int, reserve: nat) returns (u: State, o: Ref)
    requires Distinct(s) && Shrunk(s, targetBytes, reserve) != s
    ensures Leaves(s, u) && Oldest(u, o) && Shrunk(s, targetBytes, reserve) == Dropped(u, o)
    ensures (targetBytes > 0 && u.bytes > targetBytes)
      || (s.maxEntries > 0 && |u.entries| + |u.surfaces| + reserve > s.maxEntries)
    decreases Size(s)
  {
    o :| Oldest(s, o);
    u := s;
    ShrunkStep(s, targetBytes, reserve, o);
    DroppedSize(s, o);
    DroppedDistinct(s, o);
    var d := Dropped(s, o);
    if Shrunk(d, targetBytes, reserve) != d {
      DroppedLeaves(s, o);
      u, o := ShrunkNeeded(d, targetBytes, reserve);
      LeavesTwice(s, d, u);
    }
  }

  /** A surface still being prepared goes exactly when its source goes. */
  lemma {:induction false} ShrunkKeepsPending(s: State, targetBytes: int, reserve: nat, key: SurfaceKey)
    requires Distinct(s) && key in s.surfaces && !s.surfaces[key].complete
    ensures var t := Shrunk(s, targetBytes, reserve); key in t.surfaces <==> !WentWithSource(s, t, Surface(key))
    decreases Size(s)
  {
    if Over(s, targetBytes, reserve) && exists r :: Oldest(s, r) {
      var o :| Oldest(s, o);
      ShrunkStep(s, targetBytes, reserve, o);
      if o != Source("") {
        var d, t := Dropped(s, o), Shrunk(Dropped(s, o), targetBytes, reserve);
        DroppedSize(s, o);
        DroppedDistinct(s, o);
        ShrunkLeaves(d, targetBytes, reserve);
        if o == Source(key.url) {
          assert !Has(d, o) && !Has(d, Surface(key));
          assert !Has(t, o) && !Has(t, Surface(key));
        } else {
          assert key in d.surfaces && (key.url in d.entries <==> key.url in s.entries);
          ShrunkKeepsPending(d, targetBytes, reserve, key);
        }
      }
    }
  }

  lemma DroppedKeeps(s: State, o: Ref, q: Ref)
    requires Has(s, o) && Has(Dropped(s, o), q)
    ensures Has(s, q) && Get(s, q) == Get(Dropped(s, o), q)
  {
  }

  // ---------------------------------------------------------------- single steps

  function Put(s: State, r: Ref, x: Item): State {
    match r
    case Source(url) => s.(entries := s.entries[url := x])
    case Surface(key) => s.(surfaces := s.surfaces[key := x])
  }

  function Ticked(s: State): State {
    s.(tick := s.tick + 1)
  }

  /** The object is used now. */
  function Touched(s: State, r: Ref): State
    requires Has(s, r)
  {
    Put(Ticked(s), r, Get(s, r).(lastUsed := s.tick + 1))
  }

  function Inserted(s: State, r: Ref, obj: Cached): State {
    Put(Ticked(s), r, Item(obj, false, 0, s.tick + 1))
  }

  /** The object is completed and its bytes are counted. */
  function Filled(s: State, r: Ref, size: nat): State
    requires Has(s, r)
  {
    Put(s.(bytes := s.bytes + size), r, Get(s, r).(complete := true, bytes := size))
  }

  predicate Full(s: State) {
    s.maxEntries <= 0 || Size(s) >= s.maxEntries
  }

  ghost predicate Resides(s: State, r: Ref, obj: Cached) {
    Has(s, r) && Get(s, r).obj == obj
  }

  /** Different places hold different objects. */
  ghost predicate Apart(s: State) {
    forall q, r :: Has(s, q) && Has(s, r) && q != r ==> Get(s, q).obj != Get(s, r).obj
  }

  function Picture(o: Cached): Item
    reads o
  {
    Item(o, o.complete, o.bytes, o.lastUsed)
  }

  datatype Answer = Hit(found: Cached) | Rejected | Created(made: Cached)

  /** What a request for `r` leads to, when a miss may be refused for other reasons too. */
  ghost function Requested(s: State, r: Ref, answer: Answer): State {
    if Has(s, r) then Touched(s, r)
    else if answer.Created? then Inserted(Shrunk(s, 0, 1), r, answer.made) else Shrunk(s, 0, 1)
  }

  /** Preparing a surface uses its source, when that is resident. */
  function Sourced(s: State, url: string): State {
    if url in s.entries then Touched(s, Source(url)) else Ticked(s)
  }

  function SizeOf(size: Option<nat>): nat {
    if size.Some? then size.value else 0
  }

  /** What the end of a download does: it counts only for the object that is still resident. */
  ghost function Fetched(s: State, url: string, obj: Cached, size: nat): State {
    if Resides(s, Source(url), obj) then Shrunk(Filled(s, Source(url), size), s.maxBytes, 0) else s
  }

  /** The end of a resize, up to the point where it is kept or cancelled: the bytes are counted
      whether or not the object is still resident. */
  ghost function Counted(s: State, key: SurfaceKey, obj: Cached, size: Option<nat>): State {
    if Resides(s, Surface(key), obj) then Filled(s, Surface(key), SizeOf(size)) else s.(bytes := s.bytes + SizeOf(size))
  }

  /** A cancelled resize takes its bytes back and removes whatever is resident under its key. */
  ghost function Prepared(s: State, key: SurfaceKey, obj: Cached, size: Option<nat>, canceled: bool): State {
    var t := Counted(s, key, obj, size);
    if canceled then t.(bytes := t.bytes - SizeOf(size), surfaces := t.surfaces - {key}) else Shrunk(t, s.maxBytes, 0)
  }

  function Cleared(s: State): State {
    State(map[], map[], 0, 0, s.maxBytes, s.maxEntries)
  }

  class Cache {
    var entries: map<string, Cached>
    var surfaces: map<SurfaceKey, Cached>
    var bytes: int
    var tick: nat
    const maxBytes: int
    const maxEntries: int

    ghost function View(): State
      reads this, entries.Values, surfaces.Values
    {
      State(map u | u in entries :: Picture(entries[u]), map k | k in surfaces :: Picture(surfaces[k]),
            bytes, tick, maxBytes, maxEntries)
    }

    constructor (maxBytes: int, maxEntries: int)
      ensures View() == State(map[], map[], 0, 0, maxBytes, maxEntries)
    {
      entries, surfaces, bytes, tick := map[], map[], 0, 0;
      this.maxBytes, this.maxEntries := maxBytes, maxEntries;
    }

    /** Looks at every source and then at every surface, in any order, for the completed object
        with the smallest tick.  The empty URL also stands for "none". */
    method FindOldest() returns (url: string, key: SurfaceKey, isSurface: bool)
      ensures isSurface ==> Oldest(View(), Surface(key))
      ensures !isSurface && url != "" ==> Oldest(View(), Source(url))
      ensures !isSurface && url == "" ==> Oldest(View(), Source("")) || !(exists r :: Completed(View(), r))
    {
      url, key, isSurface := "", SurfaceKey("", ""), false;
      var oldest := None;
      ghost var best := Source("");
      var rest := entries.Keys;
      while rest != {}
        invariant rest <= entries.Keys
        invariant oldest.Some? ==>
          best == Source(url) && Completed(View(), best) && Get(View(), best).lastUsed == oldest.value
        invariant oldest.None? ==> url == ""
        invariant forall u | u in entries && u !in rest :: Completed(View(), Source(u)) ==>
          oldest.Some? && oldest.value <= Get(View(), Source(u)).lastUsed
        decreases rest
      {
        var u :| u in rest;
        rest := rest - {u};
        if entries[u].complete && (oldest.None? || entries[u].lastUsed < oldest.value) {
          url, oldest, best := u, Some(entries[u].lastUsed), Source(u);
        }
      }
      var left := surfaces.Keys;
      while left != {}
        invariant left <= surfaces.Keys
        invariant oldest.Some? ==> best == (if isSurface then Surface(key) else Source(url))
        invariant oldest.Some? ==> Completed(View(), best) && Get(View(), best).lastUsed == oldest.value
        invariant oldest.None? ==> url == "" && !isSurface
        invariant forall u | u in entries :: Completed(View(), Source(u)) ==>
          oldest.Some? && oldest.value <= Get(View(), Source(u)).lastUsed
        invariant forall k | k in surfaces && k !in left :: Completed(View(), Surface(k)) ==>
          oldest.Some? && oldest.value <= Get(View(), Surface(k)).lastUsed
        decreases left
      {
        var k :| k in left;
        left := left - {k};
        if surfaces[k].complete && (oldest.None? || surfaces[k].lastUsed < oldest.value) {
          url, key, oldest, isSurface, best := "", k, Some(surfaces[k].lastUsed), true, Surface(k);
        }
      }
      forall q | Completed(View(), q)
        ensures oldest.Some? && oldest.value <= Get(View(), q).lastUsed
      {
        match q
        case Source(u) => assert u in entries;
        case Surface(k) => assert k in surfaces;
      }
    }

    method DropSurface(key: SurfaceKey)
      requires key in surfaces
      modifies `surfaces, `bytes
      ensures View() == Dropped(old(View()), Surface(key)) && surfaces == old(surfaces) - {key}
    {
      bytes := bytes - surfaces[key].bytes;
      surfaces := surfaces - {key};
      assert View().surfaces == Dropped(old(View()), Surface(key)).surfaces;
    }

    /** Drops, in any order, the surfaces made from a source. */
    method DropSurfacesOf(url: string)
      modifies `surfaces, `bytes
      ensures View() == old(View()).(surfaces := OfOthers(old(View()).surfaces, url), bytes := bytes)
      ensures bytes == old(bytes) - Total(OfSource(old(View()).surfaces, url))
      ensures surfaces.Keys <= old(surfaces.Keys)
    {
      ghost var s := View();
      var rest := surfaces.Keys;
      while rest != {}
        invariant rest <= surfaces.Keys <= old(surfaces.Keys)
          && View() == s.(surfaces := View().surfaces, bytes := bytes)
        invariant OfOthers(View().surfaces, url) == OfOthers(s.surfaces, url)
        invariant forall k | k in surfaces && k !in rest :: k.url != url
        invariant bytes - Total(OfSource(View().surfaces, url)) == s.bytes - Total(OfSource(s.surfaces, url))
        decreases rest
      {
        var k :| k in rest;
        rest := rest - {k};
        if k.url == url {
          DropStep(View(), k);
          DropSurface(k);
        }
      }
      assert OfSource(View().surfaces, url) == map[];
      assert View().surfaces == OfOthers(View().surfaces, url);
    }

    lemma DropStep(s: State, k: SurfaceKey)
      requires k in s.surfaces
      ensures var t := Dropped(s, Surface(k));
              && OfOthers(t.surfaces, k.url) == OfOthers(s.surfaces, k.url)
              && t.bytes - Total(OfSource(t.surfaces, k.url)) == s.bytes - Total(OfSource(s.surfaces, k.url))
    {
      TotalWithout(OfSource(s.surfaces, k.url), k);
      OfMinus(s.surfaces, k, k.url);
      MinusNothing(OfOthers(s.surfaces, k.url), k);
    }

    /** Drops a source together with its surfaces. */
    method DropSource(url: string)
      requires url in entries
      modifies `entries, `surfaces, `bytes
      ensures View() == Dropped(old(View()), Source(url))
      ensures entries == old(entries) - {url} && surfaces.Keys <= old(surfaces.Keys)
    {
      ghost var s := View();
      bytes := bytes - entries[url].bytes;
      entries := entries - {url};
      assert View() == s.(entries := s.entries - {url}, bytes := bytes);
      DropSurfacesOf(url);
    }

    /** One round of eviction: drops the least recently used completed object, if one is found. */
    method EvictOldest(ghost targetBytes: int, ghost reserve: nat) returns (found: bool)
      requires Distinct(View()) && Over(View(), targetBytes, reserve)
      modifies `entries, `surfaces, `bytes
      ensures Shrunk(View(), targetBytes, reserve) == Shrunk(old(View()), targetBytes, reserve)
      ensures Distinct(View()) && entries.Keys <= old(entries.Keys) && surfaces.Keys <= old(surfaces.Keys)
      ensures if found then Size(View()) < Size(old(View())) else View() == Shrunk(View(), targetBytes, reserve)
    {
      var url, key, isSurface := FindOldest();
      found := url != "" || isSurface;
      if !found {
        if Oldest(View(), Source("")) { ShrunkStep(View(), targetBytes, reserve, Source("")); }
        return;
      }
      ghost var r := if isSurface then Surface(key) else Source(url);
      ShrunkStep(View(), targetBytes, reserve, r);
      DroppedSize(View(), r);
      DroppedDistinct(View(), r);
      if isSurface {
        DropSurface(key);
      } else {
        DropSource(url);
      }
    }

    /** The eviction loop.  It stops within the limits or with nothing completed left. */
    method EvictLocked(targetBytes: int, reserve: nat)
      requires Distinct(View())
      modifies `entries, `surfaces, `bytes
      ensures View() == Shrunk(old(View()), targetBytes, reserve)
      ensures Distinct(View())
      ensures entries.Keys <= old(entries.Keys) && surfaces.Keys <= old(surfaces.Keys)
      ensures "" !in old(entries) ==> Settled(View(), targetBytes, reserve)
    {
      ghost var before := View();
      SizeOfView();
      while (targetBytes > 0 && bytes > targetBytes)
        || (maxEntries > 0 && |entries| + |surfaces| + reserve > maxEntries)
        invariant Distinct(View()) && entries.Keys <= old(entries.Keys) && surfaces.Keys <= old(surfaces.Keys)
        invariant Shrunk(View(), targetBytes, reserve) == Shrunk(before, targetBytes, reserve)
        invariant Size(View()) == |entries| + |surfaces|
        decreases Size(View())
      {
        var found := EvictOldest(targetBytes, reserve);
        SizeOfView();
        if !found {
          break;
        }
      }
      if "" !in old(entries) { ShrunkSettles(before, targetBytes, reserve); }
    }

    lemma SizeOfView()
      ensures Size(View()) == |entries| + |surfaces|
    {
      assert View().entries.Keys == entries.Keys && View().surfaces.Keys == surfaces.Keys;
    }

    /** The locked section of a load: a resident source is shared, complete or not; otherwise a
        new one is entered if there is room and the decode budget allows it (`claim`). */
    method Load(url: string, claim: bool) returns (answer: Answer)
      requires Distinct(View()) && Apart(View())
      modifies this, entries.Values`lastUsed
      ensures answer.Hit? <==> url in old(entries)
      ensures answer.Hit? ==> answer.found == old(entries)[url]
      ensures !answer.Hit? ==>
        var s := Shrunk(old(View()), 0, 1);
        answer.Created? <==> claim && 0 < s.maxEntries && |s.entries| + |s.surfaces| < s.maxEntries
      ensures answer.Created? ==> fresh(answer.made) && !answer.made.closed
      ensures View() == Requested(old(View()), Source(url), answer)
    {
      if url in entries {
        TouchSource(url);
        return Hit(entries[url]);
      }
      EvictLocked(0, 1);
      SizeOfView();
      if maxEntries <= 0 || |entries| + |surfaces| >= maxEntries || !claim {
        return Rejected;
      }
      var entry := EnterSource(url);
      answer := Created(entry);
    }

    method EnterSource(url: string) returns (entry: Cached)
      requires url !in entries
      modifies `tick, `entries
      ensures fresh(entry) && !entry.closed && View() == Inserted(old(View()), Source(url), entry)
    {
      ghost var s := View();
      tick := tick + 1;
      entry := new Cached(tick);
      entries := entries[url := entry];
      assert View().entries == s.entries[url := Picture(entry)];
      assert View().surfaces == s.surfaces;
    }

    method EnterSurface(key: SurfaceKey) returns (entry: Cached)
      requires key !in surfaces
      modifies `tick, `surfaces
      ensures fresh(entry) && !entry.closed && View() == Inserted(old(View()), Surface(key), entry)
    {
      ghost var s := View();
      tick := tick + 1;
      entry := new Cached(tick);
      surfaces := surfaces[key := entry];
      assert View().surfaces == s.surfaces[key := Picture(entry)];
      assert View().entries == s.entries;
    }

    /** No place but `r` holds the object at `r`. */
    lemma Alone(r: Ref)
      requires Apart(View()) && Has(View(), r)
      ensures forall u | u in entries && r != Source(u) :: entries[u] != Get(View(), r).obj
      ensures forall k | k in surfaces && r != Surface(k) :: surfaces[k] != Get(View(), r).obj
    {
      forall u | u in entries && r != Source(u)
        ensures entries[u] != Get(View(), r).obj
      { assert Has(View(), Source(u)) && Get(View(), Source(u)).obj == entries[u]; }
      forall k | k in surfaces && r != Surface(k)
        ensures surfaces[k] != Get(View(), r).obj
      { assert Has(View(), Surface(k)) && Get(View(), Surface(k)).obj == surfaces[k]; }
    }

    method TouchSource(url: string)
      requires Apart(View()) && url in entries
      modifies `tick, {entries[url]}`lastUsed
      ensures View() == Touched(old(View()), Source(url))
    {
      ghost var s := View();
      Alone(Source(url));
      tick := tick + 1;
      entries[url].lastUsed := tick;
      assert View().entries == Touched(s, Source(url)).entries;
      assert View().surfaces == s.surfaces;
    }

    method TouchSurface(key: SurfaceKey)
      requires Apart(View()) && key in surfaces
      modifies `tick, {surfaces[key]}`lastUsed
      ensures View() == Touched(old(View()), Surface(key))
    {
      ghost var s := View();
      Alone(Surface(key));
      tick := tick + 1;
      surfaces[key].lastUsed := tick;
      assert View().surfaces == Touched(s, Surface(key)).surfaces;
      assert View().entries == s.entries;
    }

    /** The section of `loadExisting`: like a load, but a miss changes nothing. */
    method LoadExisting(url: string) returns (found: Cached?)
      requires Apart(View())
      modifies `tick, entries.Values`lastUsed
      ensures found == (if url in old(entries) then old(entries)[url] else null)
      ensures View() == if url in old(entries) then Touched(old(View()), Source(url)) else old(View())
    {
      if url !in entries {
        return null;
      }
      TouchSource(url);
      found := entries[url];
    }

    /** The locked section that asks for a surface. */
    method Prepare(key: SurfaceKey) returns (answer: Answer)
      requires Distinct(View()) && Apart(View())
      modifies this, entries.Values`lastUsed, surfaces.Values`lastUsed
      ensures answer.Hit? <==> key in old(surfaces)
      ensures answer.Hit? ==> answer.found == old(surfaces)[key]
      ensures !answer.Hit? ==>
        var s := Shrunk(Sourced(old(View()), key.url), 0, 1);
        answer.Created? <==> 0 < s.maxEntries && |s.entries| + |s.surfaces| < s.maxEntries
      ensures answer.Created? ==> fresh(answer.made) && !answer.made.closed
      ensures View() == Requested(Sourced(old(View()), key.url), Surface(key), answer)
    {
      UseSource(key.url);
      SourcedKeeps(old(View()), key.url);
      if key in surfaces {
        TouchSurface(key);
        return Hit(surfaces[key]);
      }
      EvictLocked(0, 1);
      SizeOfView();
      if maxEntries <= 0 || |entries| + |surfaces| >= maxEntries {
        return Rejected;
      }
      var entry := EnterSurface(key);
      answer := Created(entry);
    }

    method UseSource(url: string)
      requires Apart(View())
      modifies `tick, entries.Values`lastUsed
      ensures View() == Sourced(old(View()), url)
    {
      if url in entries {
        TouchSource(url);
      } else {
        tick := tick + 1;
      }
    }

    /** The end of a download. */
    method FetchDone(url: string, entry: Cached, size: nat)
      requires Distinct(View()) && Apart(View()) && !entry.closed
      requires forall r :: Resides(View(), r, entry) ==> r == Source(url)
      modifies this, entry
      ensures entry.closed && entry.complete
      ensures View() == Fetched(old(View()), url, entry, size)
    {
      ghost var s := View();
      Away(Source(url), entry);
      if url !in entries || entries[url] != entry {
        entry.complete, entry.closed := true, true;
        assert View() == s;
        return;
      }
      entry.complete := true;
      entry.bytes := size;
      bytes := bytes + entry.bytes;
      entry.closed := true;
      assert View() == Filled(s, Source(url), size);
      FilledDistinct(s, Source(url), size);
      EvictLocked(maxBytes, 0);
    }

    /** No other place than `r` holds the object. */
    lemma Away(r: Ref, obj: Cached)
      requires forall q :: Resides(View(), q, obj) ==> q == r
      ensures forall u | u in entries && r != Source(u) :: entries[u] != obj
      ensures forall k | k in surfaces && r != Surface(k) :: surfaces[k] != obj
    {
      forall u | u in entries && r != Source(u)
        ensures entries[u] != obj
      { assert !Resides(View(), Source(u), obj); }
      forall k | k in surfaces && r != Surface(k)
        ensures surfaces[k] != obj
      { assert !Resides(View(), Surface(k), obj); }
    }

    /** The end of a resize; `size` is absent when it failed or needed no new pixels. */
    method PrepareDone(key: SurfaceKey, entry: Cached, size: Option<nat>, canceled: bool)
      requires Distinct(View()) && Apart(View()) && !entry.closed && entry.bytes == 0
      requires forall r :: Resides(View(), r, entry) ==> r == Surface(key)
      modifies this, entry
      ensures entry.closed && entry.complete
      ensures View() == Prepared(old(View()), key, entry, size, canceled)
    {
      CountSurface(key, entry, size);
      if canceled {
        bytes := bytes - entry.bytes;
        surfaces := surfaces - {key};
        assert View().surfaces == Counted(old(View()), key, entry, size).surfaces - {key};
      } else {
        CountedDistinct(old(View()), key, entry, size);
        EvictLocked(maxBytes, 0);
      }
    }

    method CountSurface(key: SurfaceKey, entry: Cached, size: Option<nat>)
      requires !entry.closed && entry.bytes == 0
      requires forall r :: Resides(View(), r, entry) ==> r == Surface(key)
      modifies `bytes, entry
      ensures entry.closed && entry.complete && entry.bytes == SizeOf(size)
      ensures View() == Counted(old(View()), key, entry, size)
    {
      ghost var s := View();
      Away(Surface(key), entry);
      entry.complete := true;
      if size.Some? {
        entry.bytes := size.value;
        bytes := bytes + entry.bytes;
      }
      entry.closed := true;
      assert View().entries == s.entries;
      assert View().surfaces == Counted(s, key, entry, size).surfaces;
    }

    method Clear()
      modifies this
      ensures View() == Cleared(old(View()))
    {
      entries, surfaces, bytes, tick := map[], map[], 0, 0;
    }
  }

  lemma SourcedKeeps(s: State, url: string)
    requires Distinct(s) && Apart(s)
    ensures Distinct(Sourced(s, url)) && Apart(Sourced(s, url))
    ensures forall r :: Has(Sourced(s, url), r) <==> Has(s, r)
  {
    var t := Sourced(s, url);
    forall r | Has(t, r)
      ensures Has(s, r) && Get(t, r) == (if r == Source(url) then Get(s, r).(lastUsed := s.tick + 1) else Get(s, r))
    { }
  }

  lemma FilledDistinct(s: State, r: Ref, size: nat)
    requires Distinct(s) && Has(s, r)
    ensures Distinct(Filled(s, r, size))
  {
    var t := Filled(s, r, size);
    forall q | Has(t, q)
      ensures Has(s, q) && Get(t, q).lastUsed == Get(s, q).lastUsed
    { }
  }

  lemma CountedDistinct(s: State, key: SurfaceKey, obj: Cached, size: Option<nat>)
    requires Distinct(s)
    ensures Distinct(Counted(s, key, obj, size))
  {
    if Resides(s, Surface(key), obj) {
      FilledDistinct(s, Surface(key), SizeOf(size));
    } else {
      assert forall q :: Has(Counted(s, key, obj, size), q) ==> Has(s, q);
    }
  }
}
