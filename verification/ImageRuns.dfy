/** Runs of the image cache: loads, downloads, resizes and clearing, interleaved at every section
    under the cache's lock. */
module ImageRuns {
  import opened ImageCache
  import opened Options

  /** Work under way outside the lock; a download remembers how often the cache had been cleared
      when it began. */
  datatype Job = Fetch(url: string, obj: Cached, gen: nat) | Resize(key: SurfaceKey, obj: Cached)

  datatype World = World(c: State, jobs: map<nat, Job>, made: set<Cached>, closed: set<Cached>, gen: nat)

  datatype Action =
    | Load(j: nat, url: string, obj: Cached, claim: bool)
    | LoadExisting(url: string)
    | FetchDone(j: nat, bytes: nat)
    | Prepare(j: nat, key: SurfaceKey, obj: Cached)
    | PrepareDone(j: nat, size: Option<nat>, canceled: bool)
    | Clear

  /** Only addresses with the scheme `http` or `https` are loaded, so none of them is empty. */
  predicate Enabled(w: World, a: Action) {
    match a
    case Load(j, url, obj, _) => j !in w.jobs && obj !in w.made && url != ""
    case LoadExisting(_) => true
    case FetchDone(j, _) => j in w.jobs && w.jobs[j].Fetch?
    case Prepare(j, _, obj) => j !in w.jobs && obj !in w.made
    case PrepareDone(j, _, _) => j in w.jobs && w.jobs[j].Resize?
    case Clear => true
  }

  function RefOf(k: Job): Ref {
    match k
    case Fetch(url, _, _) => Source(url)
    case Resize(key, _) => Surface(key)
  }

  /** A request that misses starts a job when there is room. */
  ghost function Asked(w: World, c: State, r: Ref, j: nat, job: Job, allowed: bool): World {
    if Has(c, r) then w.(c := Touched(c, r))
    else if allowed && !Full(Shrunk(c, 0, 1)) then
      w.(c := Inserted(Shrunk(c, 0, 1), r, job.obj), jobs := w.jobs[j := job], made := w.made + {job.obj})
    else w.(c := Shrunk(c, 0, 1))
  }

  function Finished(w: World, j: nat): World
    requires j in w.jobs
  {
    w.(jobs := w.jobs - {j}, closed := w.closed + {w.jobs[j].obj})
  }

  ghost function Do(w: World, a: Action): World
    requires Enabled(w, a)
  {
    match a
    case Load(j, url, obj, claim) => Asked(w, w.c, Source(url), j, Fetch(url, obj, w.gen), claim)
    case LoadExisting(url) => if url in w.c.entries then w.(c := Touched(w.c, Source(url))) else w
    case FetchDone(j, size) => Finished(w, j).(c := Fetched(w.c, w.jobs[j].url, w.jobs[j].obj, size))
    case Prepare(j, key, obj) => Asked(w, Sourced(w.c, key.url), Surface(key), j, Resize(key, obj), true)
    case PrepareDone(j, size, canceled) =>
      Finished(w, j).(c := Prepared(w.c, w.jobs[j].key, w.jobs[j].obj, size, canceled))
    case Clear => w.(c := Cleared(w.c), gen := w.gen + 1)
  }

  // ---------------------------------------------------------------- the invariant

  ghost predicate Busy(w: World, r: Ref)
    requires Has(w.c, r)
  {
    exists j: nat :: j in w.jobs && RefOf(w.jobs[j]) == r && w.jobs[j].obj == Get(w.c, r).obj
  }

  /** A resident object is known; complete means that its channel is closed, incomplete that it
      has no bytes yet and some job is at work on it. */
  ghost predicate Sound(w: World, r: Ref)
    requires Has(w.c, r)
  {
    var x := Get(w.c, r);
    x.obj in w.made && if x.complete then x.obj in w.closed else x.bytes == 0 && Busy(w, r)
  }

  /** A job's channel is still open; its object resides nowhere but at the job's own place; a
      download begun since the last clearing still finds it there. */
  ghost predicate Working(w: World, j: nat)
    requires j in w.jobs
  {
    var k := w.jobs[j];
    && k.obj in w.made && k.obj !in w.closed
    && (forall r :: Resides(w.c, r, k.obj) ==> r == RefOf(k))
    && (k.Fetch? ==> k.gen <= w.gen && (k.gen == w.gen ==> Resides(w.c, RefOf(k), k.obj)))
  }

  ghost predicate Inv(w: World) {
    && Size(w.c) <= (if w.c.maxEntries > 0 then w.c.maxEntries else 0)
    && Distinct(w.c) && Apart(w.c) && Resident(w.c) <= w.c.bytes
    && w.closed <= w.made
    && (forall r :: Has(w.c, r) ==> Sound(w, r))
    && (forall j | j in w.jobs :: Working(w, j))
    && (forall i, j | i in w.jobs && j in w.jobs && i != j :: w.jobs[i].obj != w.jobs[j].obj)
  }

  /** `v` is `w` with some items fewer. */
  ghost predicate Fewer(w: World, v: World) {
    v == w.(c := v.c) && forall q :: Has(v.c, q) ==> Has(w.c, q) && Get(v.c, q) == Get(w.c, q)
  }

  lemma FewerSound(w: World, v: World, q: Ref)
    requires Fewer(w, v) && Has(v.c, q) && Has(w.c, q) && Sound(w, q)
    ensures Sound(v, q)
  {
    if !Get(w.c, q).complete {
      var j: nat :| j in w.jobs && RefOf(w.jobs[j]) == q && w.jobs[j].obj == Get(w.c, q).obj;
      assert Busy(v, q);
    }
  }

  lemma FewerWorking(w: World, v: World, j: nat)
    requires Fewer(w, v) && j in w.jobs && Working(w, j)
    requires w.jobs[j].Fetch? && Resides(w.c, RefOf(w.jobs[j]), w.jobs[j].obj) ==> Has(v.c, RefOf(w.jobs[j]))
    ensures Working(v, j)
  {
    assert forall r :: Resides(v.c, r, w.jobs[j].obj) ==> Resides(w.c, r, w.jobs[j].obj);
  }

  lemma ShrunkInv(w: World, targetBytes: int, reserve: nat)
    requires Inv(w)
    ensures Inv(w.(c := Shrunk(w.c, targetBytes, reserve)))
  {
    var t := Shrunk(w.c, targetBytes, reserve);
    var v := w.(c := t);
    ShrunkLeaves(w.c, targetBytes, reserve);
    forall r | Has(t, r)
      ensures Sound(v, r)
    { FewerSound(w, v, r); }
    forall j | j in v.jobs
      ensures Working(v, j)
    {
      assert Working(w, j);
      if Resides(w.c, RefOf(w.jobs[j]), w.jobs[j].obj) { assert Sound(w, RefOf(w.jobs[j])); }
      FewerWorking(w, v, j);
    }
  }

  /** Only the tick of one item changes. */
  lemma TouchedInv(w: World, r: Ref)
    requires Inv(w) && Has(w.c, r)
    ensures Inv(w.(c := Touched(w.c, r)))
  {
    var t := Touched(w.c, r);
    var v := w.(c := t);
    SameItems(w.c, t, r);
    TouchedTotal(w.c, r);
    forall q | Has(t, q)
      ensures Sound(v, q)
    {
      assert Sound(w, q);
      if !Get(w.c, q).complete {
        var j: nat :| j in w.jobs && RefOf(w.jobs[j]) == q && w.jobs[j].obj == Get(w.c, q).obj;
        assert Busy(v, q);
      }
    }
    forall j | j in v.jobs
      ensures Working(v, j)
    {
      assert Working(w, j);
      assert forall q :: Resides(t, q, w.jobs[j].obj) <==> Resides(w.c, q, w.jobs[j].obj);
    }
  }

  lemma SameItems(s: State, t: State, r: Ref)
    requires Has(s, r) && t == Touched(s, r)
    ensures forall q :: Has(t, q) <==> Has(s, q)
    ensures forall q :: Has(s, q) ==> Get(t, q) == if q == r then Get(s, q).(lastUsed := s.tick + 1) else Get(s, q)
  {
  }

  lemma TouchedTotal(s: State, r: Ref)
    requires Has(s, r)
    ensures Resident(Touched(s, r)) == Resident(s) && Size(Touched(s, r)) == Size(s)
  {
    match r
    case Source(url) => TotalPut(s.entries, url, s.entries[url].(lastUsed := s.tick + 1));
    case Surface(key) => TotalPut(s.surfaces, key, s.surfaces[key].(lastUsed := s.tick + 1));
  }

  lemma TickedInv(w: World)
    requires Inv(w)
    ensures Inv(w.(c := Ticked(w.c)))
  {
    var v := w.(c := Ticked(w.c));
    forall r | Has(v.c, r)
      ensures Has(w.c, r) && Get(v.c, r) == Get(w.c, r) && Sound(v, r)
    {
      assert Sound(w, r);
      if !Get(w.c, r).complete { assert Busy(v, r); }
    }
    forall j | j in v.jobs
      ensures Working(v, j)
    {
      assert Working(w, j);
      assert forall r :: Resides(v.c, r, w.jobs[j].obj) <==> Resides(w.c, r, w.jobs[j].obj);
    }
  }

  lemma InsertedTotal(s: State, r: Ref, obj: Cached)
    requires !Has(s, r)
    ensures Resident(Inserted(s, r, obj)) == Resident(s) && Size(Inserted(s, r, obj)) == Size(s) + 1
  {
    match r
    case Source(url) => TotalPut(s.entries, url, Item(obj, false, 0, s.tick + 1));
    case Surface(key) => TotalPut(s.surfaces, key, Item(obj, false, 0, s.tick + 1));
  }

  lemma InsertedItems(s: State, r: Ref, obj: Cached)
    requires !Has(s, r)
    ensures forall q :: Has(Inserted(s, r, obj), q) <==> Has(s, q) || q == r
    ensures forall q :: Has(s, q) ==> Get(Inserted(s, r, obj), q) == Get(s, q)
    ensures Get(Inserted(s, r, obj), r) == Item(obj, false, 0, s.tick + 1)
  {
  }

  /** A new object is entered together with the job that will complete it. */
  lemma InsertedInv(w: World, r: Ref, j: nat, job: Job)
    requires Inv(w) && !Has(w.c, r) && !Full(w.c) && j !in w.jobs && job.obj !in w.made && RefOf(job) == r
    requires job.Fetch? ==> job.gen == w.gen
    ensures Inv(w.(c := Inserted(w.c, r, job.obj), jobs := w.jobs[j := job], made := w.made + {job.obj}))
  {
    var t := Inserted(w.c, r, job.obj);
    var v := w.(c := t, jobs := w.jobs[j := job], made := w.made + {job.obj});
    InsertedTotal(w.c, r, job.obj);
    InsertedItems(w.c, r, job.obj);
    forall q | Has(w.c, q)
      ensures Get(w.c, q).obj != job.obj
    { assert Sound(w, q); }
    forall q | Has(t, q)
      ensures Sound(v, q)
    {
      if q == r {
        assert j in v.jobs && RefOf(v.jobs[j]) == r && v.jobs[j].obj == Get(v.c, r).obj;
      } else {
        assert Sound(w, q);
        if !Get(w.c, q).complete {
          var i: nat :| i in w.jobs && RefOf(w.jobs[i]) == q && w.jobs[i].obj == Get(w.c, q).obj;
          assert i in v.jobs && v.jobs[i] == w.jobs[i];
        }
      }
    }
    forall i | i in v.jobs
      ensures Working(v, i)
    {
      if i == j {
        assert Resides(t, r, job.obj);
      } else {
        assert Working(w, i);
        assert forall q :: Resides(t, q, w.jobs[i].obj) <==> Resides(w.c, q, w.jobs[i].obj);
      }
    }
  }

  lemma FilledItems(s: State, r: Ref, size: nat)
    requires Has(s, r) && Get(s, r).bytes == 0
    ensures forall q :: Has(Filled(s, r, size), q) <==> Has(s, q)
    ensures forall q :: Has(s, q) ==>
      Get(Filled(s, r, size), q) == if q == r then Get(s, q).(complete := true, bytes := size) else Get(s, q)
    ensures Resident(Filled(s, r, size)) == Resident(s) + size && Size(Filled(s, r, size)) == Size(s)
  {
    match r
    case Source(url) => TotalPut(s.entries, url, s.entries[url].(complete := true, bytes := size));
    case Surface(key) => TotalPut(s.surfaces, key, s.surfaces[key].(complete := true, bytes := size));
  }

  lemma JobItem(w: World, j: nat)
    requires Inv(w) && j in w.jobs && Resides(w.c, RefOf(w.jobs[j]), w.jobs[j].obj)
    ensures !Get(w.c, RefOf(w.jobs[j])).complete && Get(w.c, RefOf(w.jobs[j])).bytes == 0
  {
    assert Working(w, j) && Sound(w, RefOf(w.jobs[j]));
  }

  /** A job ends on an object that is still resident. */
  lemma FilledInv(w: World, j: nat, size: nat)
    requires Inv(w) && j in w.jobs && Resides(w.c, RefOf(w.jobs[j]), w.jobs[j].obj)
    ensures Inv(Finished(w, j).(c := Filled(w.c, RefOf(w.jobs[j]), size)))
  {
    var r := RefOf(w.jobs[j]);
    var t := Filled(w.c, r, size);
    var v := Finished(w, j).(c := t);
    JobItem(w, j);
    FilledItems(w.c, r, size);
    FilledDistinct(w.c, r, size);
    assert Apart(t);
    forall q | Has(t, q)
      ensures Sound(v, q)
    { EndSound(w, v, j, q); }
    forall i | i in v.jobs
      ensures Working(v, i)
    { EndWorking(w, v, j, i); }
  }

  /** The items of `v` are those of `w`, except that the object of job `j` may be complete. */
  ghost predicate Ended(w: World, v: World, j: nat)
    requires j in w.jobs
  {
    && v.jobs == w.jobs - {j} && v.closed == w.closed + {w.jobs[j].obj} && v.made == w.made && v.gen == w.gen
    && (forall q :: Has(v.c, q) <==> Has(w.c, q))
    && (forall q :: Has(w.c, q) ==> Get(v.c, q).obj == Get(w.c, q).obj)
    && (forall q :: Has(w.c, q) && Get(w.c, q).obj != w.jobs[j].obj ==> Get(v.c, q) == Get(w.c, q))
    && (forall q :: Has(w.c, q) && Get(w.c, q).obj == w.jobs[j].obj ==> Get(v.c, q).complete)
  }

  lemma EndSound(w: World, v: World, j: nat, q: Ref)
    requires Inv(w) && j in w.jobs && Ended(w, v, j) && Has(v.c, q)
    ensures Sound(v, q)
  {
    assert Sound(w, q);
    if Get(w.c, q).obj != w.jobs[j].obj && !Get(w.c, q).complete {
      var i: nat :| i in w.jobs && RefOf(w.jobs[i]) == q && w.jobs[i].obj == Get(w.c, q).obj;
      assert i in v.jobs && v.jobs[i] == w.jobs[i] && Get(v.c, q) == Get(w.c, q);
    }
  }

  lemma EndWorking(w: World, v: World, j: nat, i: nat)
    requires Inv(w) && j in w.jobs && Ended(w, v, j) && i in v.jobs
    ensures Working(v, i)
  {
    assert Working(w, i) && i != j && w.jobs[i].obj != w.jobs[j].obj;
    assert forall q :: Resides(v.c, q, w.jobs[i].obj) <==> Resides(w.c, q, w.jobs[i].obj);
  }

  /** A job ends on an object that is not resident any more. */
  lemma OrphanInv(w: World, j: nat, size: nat)
    requires Inv(w) && j in w.jobs && !Resides(w.c, RefOf(w.jobs[j]), w.jobs[j].obj)
    ensures Inv(Finished(w, j).(c := w.c.(bytes := w.c.bytes + size)))
  {
    var t := w.c.(bytes := w.c.bytes + size);
    var v := Finished(w, j).(c := t);
    assert Working(w, j);
    assert forall q :: Has(t, q) ==> Has(w.c, q) && Get(t, q) == Get(w.c, q);
    forall q | Has(w.c, q)
      ensures Get(w.c, q).obj != w.jobs[j].obj
    { if Get(w.c, q).obj == w.jobs[j].obj { assert Resides(w.c, q, w.jobs[j].obj); } }
    forall q | Has(t, q)
      ensures Sound(v, q)
    { EndSound(w, v, j, q); }
    forall i | i in v.jobs
      ensures Working(v, i)
    { EndWorking(w, v, j, i); }
  }

  lemma RemovedFewer(w: World, key: SurfaceKey, bytes: int)
    ensures Fewer(w, w.(c := w.c.(surfaces := w.c.surfaces - {key}, bytes := bytes)))
  {
    var t := w.c.(surfaces := w.c.surfaces - {key}, bytes := bytes);
    forall q | Has(t, q)
      ensures Has(w.c, q) && Get(t, q) == Get(w.c, q)
    { }
  }

  /** Removing what is resident under a surface key leaves its job, if any, an orphan. */
  lemma RemovedInv(w: World, key: SurfaceKey, bytes: int)
    requires Inv(w) && Total(w.c.entries) + Total(w.c.surfaces - {key}) <= bytes
    ensures Inv(w.(c := w.c.(surfaces := w.c.surfaces - {key}, bytes := bytes)))
  {
    var t := w.c.(surfaces := w.c.surfaces - {key}, bytes := bytes);
    var v := w.(c := t);
    assert (w.c.surfaces - {key}).Keys == w.c.surfaces.Keys - {key};
    Subset(t.surfaces.Keys, w.c.surfaces.Keys);
    RemovedFewer(w, key, bytes);
    forall q | Has(t, q)
      ensures Sound(v, q)
    { FewerSound(w, v, q); }
    forall i | i in v.jobs
      ensures Working(v, i)
    { FewerWorking(w, v, i); }
  }

  lemma ClearedInv(w: World)
    requires Inv(w)
    ensures Inv(w.(c := Cleared(w.c), gen := w.gen + 1))
  {
    var v := w.(c := Cleared(w.c), gen := w.gen + 1);
    assert forall r :: !Has(v.c, r);
    forall i | i in v.jobs
      ensures Working(v, i)
    { assert Working(w, i); }
  }

  lemma AskedInv(w: World, c: State, r: Ref, j: nat, job: Job, allowed: bool)
    requires Inv(w.(c := c)) && j !in w.jobs && job.obj !in w.made && RefOf(job) == r
    requires job.Fetch? ==> job.gen == w.gen
    ensures Inv(Asked(w, c, r, j, job, allowed))
  {
    var v := w.(c := c);
    if Has(c, r) {
      TouchedInv(v, r);
    } else {
      ShrunkLeaves(c, 0, 1);
      ShrunkInv(v, 0, 1);
      if allowed && !Full(Shrunk(c, 0, 1)) { InsertedInv(v.(c := Shrunk(c, 0, 1)), r, j, job); }
    }
  }

  lemma SourcedInv(w: World, url: string)
    requires Inv(w)
    ensures Inv(w.(c := Sourced(w.c, url)))
  {
    if url in w.c.entries { TouchedInv(w, Source(url)); } else { TickedInv(w); }
  }

  lemma CountedInv(w: World, j: nat, size: Option<nat>)
    requires Inv(w) && j in w.jobs && w.jobs[j].Resize?
    ensures Inv(Finished(w, j).(c := Counted(w.c, w.jobs[j].key, w.jobs[j].obj, size)))
  {
    if Resides(w.c, RefOf(w.jobs[j]), w.jobs[j].obj) {
      FilledInv(w, j, SizeOf(size));
    } else {
      OrphanInv(w, j, SizeOf(size));
    }
  }

  /** A cancelled resize never takes the counter below the resident total. */
  lemma CanceledTotal(w: World, j: nat, size: Option<nat>)
    requires Inv(w) && j in w.jobs && w.jobs[j].Resize?
    ensures var t := Counted(w.c, w.jobs[j].key, w.jobs[j].obj, size);
            Total(t.entries) + Total(t.surfaces - {w.jobs[j].key}) <= t.bytes - SizeOf(size)
  {
    var key, obj := w.jobs[j].key, w.jobs[j].obj;
    if Resides(w.c, Surface(key), obj) {
      JobItem(w, j);
      FilledItems(w.c, Surface(key), SizeOf(size));
      TotalWithout(Filled(w.c, Surface(key), SizeOf(size)).surfaces, key);
    } else if key in w.c.surfaces {
      TotalWithout(w.c.surfaces, key);
    } else {
      MinusNothing(w.c.surfaces, key);
    }
  }

  lemma PreparedInv(w: World, j: nat, size: Option<nat>, canceled: bool)
    requires Inv(w) && j in w.jobs && w.jobs[j].Resize?
    ensures Inv(Finished(w, j).(c := Prepared(w.c, w.jobs[j].key, w.jobs[j].obj, size, canceled)))
  {
    CountedInv(w, j, size);
    CanceledTotal(w, j, size);
    WithdrawOrShrink(w, Finished(w, j).(c := Counted(w.c, w.jobs[j].key, w.jobs[j].obj, size)), j, size, canceled);
  }

  lemma WithdrawOrShrink(w: World, v: World, j: nat, size: Option<nat>, canceled: bool)
    requires j in w.jobs && w.jobs[j].Resize? && Inv(v)
    requires v == Finished(w, j).(c := Counted(w.c, w.jobs[j].key, w.jobs[j].obj, size))
    requires Total(v.c.entries) + Total(v.c.surfaces - {w.jobs[j].key}) <= v.c.bytes - SizeOf(size)
    ensures Inv(Finished(w, j).(c := Prepared(w.c, w.jobs[j].key, w.jobs[j].obj, size, canceled)))
  {
    hide Inv, Total, Shrunk, Counted, Finished, SizeOf;
    if canceled {
      RemovedInv(v, w.jobs[j].key, v.c.bytes - SizeOf(size));
    } else {
      ShrunkInv(v, w.c.maxBytes, 0);
    }
  }

  lemma FetchedInv(w: World, j: nat, size: nat)
    requires Inv(w) && j in w.jobs && w.jobs[j].Fetch?
    ensures Inv(Finished(w, j).(c := Fetched(w.c, w.jobs[j].url, w.jobs[j].obj, size)))
  {
    if Resides(w.c, RefOf(w.jobs[j]), w.jobs[j].obj) {
      FilledInv(w, j, size);
      ShrunkInv(Finished(w, j).(c := Filled(w.c, RefOf(w.jobs[j]), size)), w.c.maxBytes, 0);
    } else {
      OrphanInv(w, j, 0);
      assert w.c.(bytes := w.c.bytes + 0) == w.c;
    }
  }

  lemma StepInv(w: World, a: Action)
    requires Inv(w) && Enabled(w, a)
    ensures Inv(Do(w, a))
  {
    match a
    case Load(j, url, obj, claim) =>
      assert w.(c := w.c) == w;
      AskedInv(w, w.c, Source(url), j, Fetch(url, obj, w.gen), claim);
    case LoadExisting(url) => if url in w.c.entries { TouchedInv(w, Source(url)); }
    case FetchDone(j, size) => FetchedInv(w, j, size);
    case Prepare(j, key, obj) =>
      SourcedInv(w, key.url);
      AskedInv(w, Sourced(w.c, key.url), Surface(key), j, Resize(key, obj), true);
    case PrepareDone(j, size, canceled) => PreparedInv(w, j, size, canceled);
    case Clear => ClearedInv(w);
  }

  /** No source is ever kept under the empty URL. */
  predicate Named(s: State) {
    "" !in s.entries
  }

  lemma ShrunkNamed(s: State, targetBytes: int, reserve: nat)
    requires Distinct(s) && Named(s)
    ensures Named(Shrunk(s, targetBytes, reserve))
  {
    ShrunkLeaves(s, targetBytes, reserve);
    assert !Has(Shrunk(s, targetBytes, reserve), Source(""));
  }

  lemma StepNamed(w: World, a: Action)
    requires Inv(w) && Named(w.c) && Enabled(w, a)
    ensures Named(Do(w, a).c)
  {
    match a
    case Load(_, _, _, _) => ShrunkNamed(w.c, 0, 1);
    case LoadExisting(_) =>
    case FetchDone(j, size) =>
      var k := w.jobs[j];
      if Resides(w.c, RefOf(k), k.obj) {
        JobItem(w, j);
        FilledDistinct(w.c, RefOf(k), size);
        ShrunkNamed(Filled(w.c, RefOf(k), size), w.c.maxBytes, 0);
      }
    case Prepare(_, key, _) =>
      SourcedKeeps(w.c, key.url);
      ShrunkNamed(Sourced(w.c, key.url), 0, 1);
    case PrepareDone(j, size, _) =>
      var k := w.jobs[j];
      CountedDistinct(w.c, k.key, k.obj, size);
      ShrunkNamed(Counted(w.c, k.key, k.obj, size), w.c.maxBytes, 0);
    case Clear =>
  }

  // ---------------------------------------------------------------- the byte limit

  /** The counter is within the byte limit, if there is one, or nothing resident is completed. */
  ghost predicate Bounded(s: State) {
    s.maxBytes > 0 && s.bytes > s.maxBytes ==> forall r :: Has(s, r) ==> !Get(s, r).complete
  }

  /** Neither the counter nor what is completed has grown. */
  ghost predicate NoMore(s: State, t: State) {
    && t.maxBytes == s.maxBytes && t.bytes <= s.bytes
    && forall r :: Has(t, r) && Get(t, r).complete ==> Has(s, r) && Get(s, r).complete
  }

  lemma BoundedKept(s: State, t: State)
    requires Bounded(s) && NoMore(s, t)
    ensures Bounded(t)
  {
  }

  lemma ShrunkNoMore(s: State, targetBytes: int, reserve: nat)
    requires Distinct(s)
    ensures NoMore(s, Shrunk(s, targetBytes, reserve))
  {
    ShrunkLeaves(s, targetBytes, reserve);
    ShrunkBytes(s, targetBytes, reserve);
  }

  /** Eviction down to the byte limit reaches it. */
  lemma ShrunkBounded(s: State)
    requires Distinct(s) && Named(s)
    ensures Bounded(Shrunk(s, s.maxBytes, 0))
  {
    ShrunkSettles(s, s.maxBytes, 0);
    ShrunkLeaves(s, s.maxBytes, 0);
    var t := Shrunk(s, s.maxBytes, 0);
    assert forall r :: Has(t, r) && Get(t, r).complete ==> Completed(t, r);
  }

  lemma AskedNoMore(w: World, c: State, r: Ref, j: nat, job: Job, allowed: bool)
    requires Distinct(c)
    ensures NoMore(c, Asked(w, c, r, j, job, allowed).c)
  {
    if Has(c, r) { SameItems(c, Touched(c, r), r); } else { ShrunkNoMore(c, 0, 1); }
  }

  lemma StepBounded(w: World, a: Action)
    requires Inv(w) && Named(w.c) && Bounded(w.c) && Enabled(w, a)
    ensures Bounded(Do(w, a).c)
  {
    match a
    case Load(j, url, obj, claim) =>
      AskedNoMore(w, w.c, Source(url), j, Fetch(url, obj, w.gen), claim);
      BoundedKept(w.c, Do(w, a).c);
    case LoadExisting(url) =>
      if url in w.c.entries { SameItems(w.c, Touched(w.c, Source(url)), Source(url)); }
    case Prepare(j, key, obj) =>
      var c := Sourced(w.c, key.url);
      SourcedKeeps(w.c, key.url);
      AskedNoMore(w, c, Surface(key), j, Resize(key, obj), true);
      BoundedKept(w.c, Do(w, a).c);
    case Clear =>
    case _ => DoneBounded(w, a);
  }

  /** The end of a download or of a resize. */
  lemma DoneBounded(w: World, a: Action)
    requires Inv(w) && Named(w.c) && Bounded(w.c) && Enabled(w, a) && (a.FetchDone? || a.PrepareDone?)
    ensures Bounded(Do(w, a).c)
  {
    hide Shrunk, Bounded, Sound, Working, Total;
    var k := w.jobs[a.j];
    match a
    case FetchDone(j, size) =>
      if Resides(w.c, RefOf(k), k.obj) {
        JobItem(w, j);
        FilledDistinct(w.c, RefOf(k), size);
        ShrunkBounded(Filled(w.c, RefOf(k), size));
      }
    case PrepareDone(j, size, canceled) =>
      CountedDistinct(w.c, k.key, k.obj, size);
      if canceled {
        BoundedKept(w.c, Do(w, a).c);
      } else {
        ShrunkBounded(Counted(w.c, k.key, k.obj, size));
      }
  }

  lemma StepLimits(w: World, a: Action)
    requires Inv(w) && Enabled(w, a)
    ensures Do(w, a).c.maxBytes == w.c.maxBytes && Do(w, a).c.maxEntries == w.c.maxEntries
  {
    match a
    case Load(_, _, _, _) => ShrunkLeaves(w.c, 0, 1);
    case FetchDone(j, size) =>
      var k := w.jobs[j];
      if Resides(w.c, RefOf(k), k.obj) {
        JobItem(w, j);
        FilledDistinct(w.c, RefOf(k), size);
        ShrunkLeaves(Filled(w.c, RefOf(k), size), w.c.maxBytes, 0);
      }
    case Prepare(_, key, _) =>
      SourcedKeeps(w.c, key.url);
      ShrunkLeaves(Sourced(w.c, key.url), 0, 1);
    case PrepareDone(j, size, _) =>
      var k := w.jobs[j];
      CountedDistinct(w.c, k.key, k.obj, size);
      ShrunkLeaves(Counted(w.c, k.key, k.obj, size), w.c.maxBytes, 0);
    case _ =>
  }

  // ---------------------------------------------------------------- runs

  ghost predicate Runs(w: World, actions: seq<Action>)
    decreases |actions|
  {
    actions == [] || (Enabled(w, actions[0]) && Runs(Do(w, actions[0]), actions[1..]))
  }

  ghost function After(w: World, actions: seq<Action>): World
    requires Runs(w, actions)
    decreases |actions|
  {
    if actions == [] then w else After(Do(w, actions[0]), actions[1..])
  }

  function Initial(maxBytes: int, maxEntries: int): World {
    World(State(map[], map[], 0, 0, maxBytes, maxEntries), map[], {}, {}, 0)
  }

  lemma InitialInv(maxBytes: int, maxEntries: int)
    ensures var w := Initial(maxBytes, maxEntries);
            Inv(w) && Accounted(w) && Named(w.c) && Bounded(w.c) && Resident(w.c) == w.c.bytes && w.jobs == map[]
  {
  }

  lemma {:induction false} RunInv(w: World, actions: seq<Action>)
    requires Inv(w) && Accounted(w) && Named(w.c) && Bounded(w.c) && Runs(w, actions)
    ensures var v := After(w, actions); Inv(v) && Accounted(v) && Named(v.c) && Bounded(v.c)
    ensures var v := After(w, actions); v.c.maxBytes == w.c.maxBytes && v.c.maxEntries == w.c.maxEntries
    decreases |actions|
  {
    if actions != [] {
      StepInv(w, actions[0]);
      StepAccounted(w, actions[0]);
      StepNamed(w, actions[0]);
      StepBounded(w, actions[0]);
      StepLimits(w, actions[0]);
      RunInv(Do(w, actions[0]), actions[1..]);
    }
  }

  /** What holds in every state the cache can reach. */
  lemma Reachable(maxBytes: int, maxEntries: int, actions: seq<Action>)
    requires Runs(Initial(maxBytes, maxEntries), actions)
    ensures var w := After(Initial(maxBytes, maxEntries), actions);
            && Size(w.c) <= (if maxEntries > 0 then maxEntries else 0)
            && Distinct(w.c) && Resident(w.c) <= w.c.bytes
            && (maxBytes > 0 && w.c.bytes > maxBytes ==> forall r :: Has(w.c, r) ==> !Get(w.c, r).complete)
            && (forall r :: Has(w.c, r) ==> Sound(w, r))
            && (forall i, j | i in w.jobs && j in w.jobs && SameDownload(w, i, j) :: i == j)
            && (forall o | o in w.made :: o in w.closed <==> !(exists j :: At(w, j, o)))
            && (forall target: int, reserve: nat :: Settled(Shrunk(w.c, target, reserve), target, reserve))
  {
    var w := After(Initial(maxBytes, maxEntries), actions);
    InitialInv(maxBytes, maxEntries);
    RunInv(Initial(maxBytes, maxEntries), actions);
    forall target: int, reserve: nat
      ensures Settled(Shrunk(w.c, target, reserve), target, reserve)
    { ShrunkSettles(w.c, target, reserve); }
    forall i, j | i in w.jobs && j in w.jobs && SameDownload(w, i, j)
      ensures i == j
    { OneDownload(w, i, j); }
    forall o | o in w.made
      ensures o in w.closed <==> !(exists j :: At(w, j, o))
    {
      if j :| At(w, j, o) { assert Working(w, j); }
    }
  }

  /** Two downloads of one URL, neither begun before the last clearing. */
  predicate SameDownload(w: World, i: nat, j: nat)
    requires i in w.jobs && j in w.jobs
  {
    w.jobs[i].Fetch? && w.jobs[j].Fetch? && w.jobs[i].gen == w.gen == w.jobs[j].gen && w.jobs[i].url == w.jobs[j].url
  }

  lemma OneDownload(w: World, i: nat, j: nat)
    requires Inv(w) && i in w.jobs && j in w.jobs && SameDownload(w, i, j)
    ensures i == j
  {
    assert Working(w, i) && Working(w, j);
  }

  predicate At(w: World, j: nat, o: Cached) {
    j in w.jobs && w.jobs[j].obj == o
  }

  /** Every object ever made has been completed and its channel closed, or a job will do so. */
  ghost predicate Accounted(w: World) {
    forall o | o in w.made :: o in w.closed || exists j :: At(w, j, o)
  }

  lemma StepAccounted(w: World, a: Action)
    requires Enabled(w, a) && Accounted(w)
    ensures Accounted(Do(w, a))
  {
    var v := Do(w, a);
    forall o | o in v.made
      ensures o in v.closed || exists j :: At(v, j, o)
    {
      if o in w.made {
        if o !in v.closed {
          var j :| At(w, j, o);
          assert At(v, j, o);
        }
      } else {
        assert At(v, a.j, o);
      }
    }
  }

  /** A channel is closed by the job that ends, it was open until then, and no other is. */
  lemma ClosesOnce(w: World, a: Action)
    requires Inv(w) && Enabled(w, a)
    ensures a.FetchDone? || a.PrepareDone? ==>
      w.jobs[a.j].obj !in w.closed && Do(w, a).closed == w.closed + {w.jobs[a.j].obj}
    ensures !(a.FetchDone? || a.PrepareDone?) ==> Do(w, a).closed == w.closed
  {
    if a.FetchDone? || a.PrepareDone? { assert Working(w, a.j); }
  }

  /** Whoever waits for a resident object to become ready then finds it complete. */
  lemma ReadyIsComplete(w: World, r: Ref)
    requires Inv(w) && Has(w.c, r)
    ensures Get(w.c, r).obj in w.closed <==> Get(w.c, r).complete
  {
    assert Sound(w, r);
    if !Get(w.c, r).complete {
      var j: nat :| j in w.jobs && RefOf(w.jobs[j]) == r && w.jobs[j].obj == Get(w.c, r).obj;
      assert Working(w, j);
    }
  }

  // ---------------------------------------------------------------- recency

  /** The action uses the object at `r`: preparing a surface uses its source, too. */
  predicate Uses(a: Action, r: Ref) {
    match a
    case Load(_, url, _, _) => r == Source(url)
    case LoadExisting(url) => r == Source(url)
    case Prepare(_, key, _) => r == Surface(key) || r == Source(key.url)
    case _ => false
  }

  /** Until the cache is cleared, an object that is used gets a newer tick than all there were,
      and any other that stays keeps its own. */
  ghost predicate Dated(s: State, t: State, r: Ref, used: bool) {
    && s.tick <= t.tick
    && (Has(t, r) ==>
          if used then Get(t, r).lastUsed > s.tick else Has(s, r) && Get(t, r).lastUsed == Get(s, r).lastUsed)
  }

  lemma AskedDated(w: World, c: State, r: Ref, j: nat, job: Job, allowed: bool, q: Ref)
    requires Distinct(c)
    ensures Dated(c, Asked(w, c, r, j, job, allowed).c, q, q == r)
  {
    if Has(c, r) { SameItems(c, Touched(c, r), r); } else {
      ShrunkLeaves(c, 0, 1);
      assert !Has(Shrunk(c, 0, 1), r);
      InsertedItems(Shrunk(c, 0, 1), r, job.obj);
    }
  }

  lemma StepDated(w: World, a: Action, r: Ref)
    requires Inv(w) && Enabled(w, a) && !a.Clear?
    ensures Dated(w.c, Do(w, a).c, r, Uses(a, r))
  {
    match a
    case Load(j, url, obj, claim) => AskedDated(w, w.c, Source(url), j, Fetch(url, obj, w.gen), claim, r);
    case LoadExisting(url) =>
      if url in w.c.entries { SameItems(w.c, Touched(w.c, Source(url)), Source(url)); }
    case FetchDone(j, size) =>
      var k := w.jobs[j];
      if Resides(w.c, RefOf(k), k.obj) {
        JobItem(w, j);
        FilledDistinct(w.c, RefOf(k), size);
        FilledItems(w.c, RefOf(k), size);
        ShrunkLeaves(Filled(w.c, RefOf(k), size), w.c.maxBytes, 0);
      }
    case Prepare(j, key, obj) =>
      var c := Sourced(w.c, key.url);
      SourcedKeeps(w.c, key.url);
      AskedDated(w, c, Surface(key), j, Resize(key, obj), true, r);
    case PrepareDone(j, size, canceled) =>
      var k := w.jobs[j];
      CountedDistinct(w.c, k.key, k.obj, size);
      if Resides(w.c, RefOf(k), k.obj) {
        JobItem(w, j);
        FilledItems(w.c, RefOf(k), SizeOf(size));
      }
      ShrunkLeaves(Counted(w.c, k.key, k.obj, size), w.c.maxBytes, 0);
  }

  predicate Unused(actions: seq<Action>, r: Ref) {
    forall i :: 0 <= i < |actions| ==> !Uses(actions[i], r)
  }

  predicate NoClear(actions: seq<Action>) {
    forall i :: 0 <= i < |actions| ==> !actions[i].Clear?
  }

  /** What is resident after actions that do not use it was there before, and with the same tick. */
  lemma {:induction false} UnusedStays(w: World, actions: seq<Action>, r: Ref)
    requires Inv(w) && Runs(w, actions) && Unused(actions, r) && Has(After(w, actions).c, r)
    ensures NoClear(actions) && Has(w.c, r) && Get(After(w, actions).c, r).lastUsed == Get(w.c, r).lastUsed
    decreases |actions|
  {
    if actions != [] {
      var a := actions[0];
      StepInv(w, a);
      UnusedStays(Do(w, a), actions[1..], r);
      if !a.Clear? { StepDated(w, a, r); }
      assert forall i :: 1 <= i < |actions| ==> actions[i] == actions[1..][i - 1];
    }
  }

  /** What has been used after the tick `t` stays newer than it. */
  lemma {:induction false} NewerStays(w: World, actions: seq<Action>, r: Ref, t: nat)
    requires Inv(w) && Runs(w, actions) && NoClear(actions) && t <= w.c.tick
    requires (Has(w.c, r) ==> Get(w.c, r).lastUsed > t) && Has(After(w, actions).c, r)
    ensures Get(After(w, actions).c, r).lastUsed > t
    decreases |actions|
  {
    if actions != [] {
      StepInv(w, actions[0]);
      StepDated(w, actions[0], r);
      NewerStays(Do(w, actions[0]), actions[1..], r, t);
    }
  }

  /** Ticks tell the order of use: of two resident objects the one whose last use came later has
      the newer tick. */
  lemma LaterUse(w: World, a: Action, actions: seq<Action>, q: Ref, r: Ref)
    requires Inv(w) && Enabled(w, a) && Runs(Do(w, a), actions)
    requires Uses(a, r) && !Uses(a, q) && Unused(actions, q)
    requires var c := After(Do(w, a), actions).c; Has(c, q) && Has(c, r)
    ensures var c := After(Do(w, a), actions).c; Get(c, q).lastUsed < Get(c, r).lastUsed
  {
    var v := Do(w, a);
    StepInv(w, a);
    UnusedStays(v, actions, q);
    StepDated(w, a, q);
    StepDated(w, a, r);
    NewerStays(v, actions, r, w.c.tick);
  }

  /** So eviction goes by use: an object used later than a completed one that stays does not go,
      except along with its source. */
  lemma EvictsByUse(w: World, a: Action, actions: seq<Action>, q: Ref, r: Ref, targetBytes: int, reserve: nat)
    requires Inv(w) && Enabled(w, a) && Runs(Do(w, a), actions)
    requires Uses(a, r) && !Uses(a, q) && Unused(actions, q)
    requires var c := After(Do(w, a), actions).c;
             Completed(c, q) && Has(c, r) && Has(Shrunk(c, targetBytes, reserve), q)
    ensures var c := After(Do(w, a), actions).c;
            Has(Shrunk(c, targetBytes, reserve), r) || WentWithSource(c, Shrunk(c, targetBytes, reserve), r)
  {
    var v := After(Do(w, a), actions);
    StepInv(w, a);
    RunKeepsInv(Do(w, a), actions);
    LaterUse(w, a, actions, q, r);
    ShrunkLeaves(v.c, targetBytes, reserve);
    if !Has(Shrunk(v.c, targetBytes, reserve), r) { ShrunkIsLRU(v.c, targetBytes, reserve, r, q); }
  }

  lemma {:induction false} RunKeepsInv(w: World, actions: seq<Action>)
    requires Inv(w) && Runs(w, actions)
    ensures Inv(After(w, actions))
    decreases |actions|
  {
    if actions != [] {
      StepInv(w, actions[0]);
      RunKeepsInv(Do(w, actions[0]), actions[1..]);
    }
  }

  // ---------------------------------------------------------------- the byte counter

  ghost function Slack(s: State): int {
    s.bytes - Resident(s)
  }

  /** The resize whose surface has been dropped or replaced in the meantime. */
  ghost predicate Orphan(w: World, j: nat) {
    j in w.jobs && w.jobs[j].Resize? && !Resides(w.c, RefOf(w.jobs[j]), w.jobs[j].obj)
  }

  /** What the counter keeps too much after an action: the bytes of an orphaned resize, or, when
      that is cancelled, those of the surface it removes in place of its own. */
  ghost function Leak(w: World, a: Action): nat
    requires Enabled(w, a)
  {
    if a.PrepareDone? && Orphan(w, a.j) then
      (if !a.canceled then SizeOf(a.size)
       else if w.jobs[a.j].key in w.c.surfaces then w.c.surfaces[w.jobs[a.j].key].bytes else 0)
    else 0
  }

  lemma AskedSlack(w: World, c: State, r: Ref, j: nat, job: Job, allowed: bool)
    requires Distinct(c) && RefOf(job) == r
    ensures Slack(Asked(w, c, r, j, job, allowed).c) == Slack(c)
  {
    if Has(c, r) {
      TouchedTotal(c, r);
    } else {
      ShrunkLeaves(c, 0, 1);
      InsertedTotal(Shrunk(c, 0, 1), r, job.obj);
    }
  }

  lemma PreparedSlack(w: World, j: nat, size: Option<nat>, canceled: bool)
    requires Inv(w) && j in w.jobs && w.jobs[j].Resize?
    ensures Slack(Prepared(w.c, w.jobs[j].key, w.jobs[j].obj, size, canceled))
      == Slack(w.c) + Leak(w, PrepareDone(j, size, canceled))
  {
    var key, obj := w.jobs[j].key, w.jobs[j].obj;
    var t := Counted(w.c, key, obj, size);
    if Resides(w.c, Surface(key), obj) {
      JobItem(w, j);
      FilledItems(w.c, Surface(key), SizeOf(size));
    }
    if canceled {
      if key in t.surfaces { TotalWithout(t.surfaces, key); } else { MinusNothing(t.surfaces, key); }
    } else {
      CountedDistinct(w.c, key, obj, size);
      ShrunkLeaves(t, w.c.maxBytes, 0);
    }
  }

  /** An action adds to the excess of the counter over the resident total exactly what an orphaned
      resize leaves; clearing ends it. */
  lemma StepSlack(w: World, a: Action)
    requires Inv(w) && Enabled(w, a)
    ensures Slack(Do(w, a).c) == if a.Clear? then 0 else Slack(w.c) + Leak(w, a)
  {
    match a
    case Load(j, url, obj, claim) => AskedSlack(w, w.c, Source(url), j, Fetch(url, obj, w.gen), claim);
    case LoadExisting(url) => if url in w.c.entries { TouchedTotal(w.c, Source(url)); }
    case FetchDone(j, size) =>
      if Resides(w.c, Source(w.jobs[j].url), w.jobs[j].obj) {
        JobItem(w, j);
        FilledItems(w.c, Source(w.jobs[j].url), size);
        FilledDistinct(w.c, Source(w.jobs[j].url), size);
        ShrunkLeaves(Filled(w.c, Source(w.jobs[j].url), size), w.c.maxBytes, 0);
      }
    case Prepare(j, key, obj) =>
      SourcedKeeps(w.c, key.url);
      if key.url in w.c.entries { TouchedTotal(w.c, Source(key.url)); }
      AskedSlack(w, Sourced(w.c, key.url), Surface(key), j, Resize(key, obj), true);
    case PrepareDone(j, size, canceled) => PreparedSlack(w, j, size, canceled);
    case Clear =>
  }

  /** The resize under way is for a surface that is still resident. */
  ghost predicate Attached(s: State, k: Job) {
    k.Resize? && Resides(s, RefOf(k), k.obj) && !Get(s, RefOf(k)).complete
  }

  predicate SourceLeft(s: State, t: State, k: Job)
    requires k.Resize?
  {
    k.key.url in s.entries && k.key.url !in t.entries
  }

  lemma ShrunkDetaches(s: State, targetBytes: int, reserve: nat, k: Job)
    requires Distinct(s) && Attached(s, k)
    ensures var t := Shrunk(s, targetBytes, reserve);
            && (Resides(t, RefOf(k), k.obj) <==> !SourceLeft(s, t, k))
            && (Resides(t, RefOf(k), k.obj) ==> Attached(t, k))
  {
    ShrunkKeepsPending(s, targetBytes, reserve, k.key);
    ShrunkLeaves(s, targetBytes, reserve);
    assert Has(s, RefOf(k));
  }

  lemma AskedDetaches(w: World, c: State, r: Ref, j: nat, job: Job, allowed: bool, k: Job)
    requires Distinct(c) && Attached(c, k) && RefOf(job) == r
    ensures var t := Asked(w, c, r, j, job, allowed).c; Resides(t, RefOf(k), k.obj) <==> !SourceLeft(c, t, k)
  {
    if !Has(c, r) {
      ShrunkDetaches(c, 0, 1, k);
      ShrunkLeaves(c, 0, 1);
      assert Has(c, RefOf(k)) && RefOf(k) != r;
    }
  }

  lemma PreparedDetaches(w: World, j: nat, size: Option<nat>, canceled: bool, i: nat)
    requires Inv(w) && j in w.jobs && Attached(w.c, w.jobs[j]) && i in w.jobs && Attached(w.c, w.jobs[i]) && i != j
    ensures var t := Prepared(w.c, w.jobs[j].key, w.jobs[j].obj, size, canceled);
            Resides(t, RefOf(w.jobs[i]), w.jobs[i].obj) <==> !SourceLeft(w.c, t, w.jobs[i])
  {
    var k := w.jobs[i];
    var t := Counted(w.c, w.jobs[j].key, w.jobs[j].obj, size);
    assert RefOf(w.jobs[i]) != RefOf(w.jobs[j]);
    assert Attached(t, k) && t.entries == w.c.entries;
    if !canceled {
      CountedDistinct(w.c, w.jobs[j].key, w.jobs[j].obj, size);
      ShrunkDetaches(t, w.c.maxBytes, 0, k);
    }
  }

  lemma FetchedDetaches(w: World, j: nat, size: nat, k: Job)
    requires Inv(w) && j in w.jobs && w.jobs[j].Fetch? && Attached(w.c, k)
    ensures var t := Fetched(w.c, w.jobs[j].url, w.jobs[j].obj, size);
            Resides(t, RefOf(k), k.obj) <==> !SourceLeft(w.c, t, k)
  {
    if Resides(w.c, Source(w.jobs[j].url), w.jobs[j].obj) {
      JobItem(w, j);
      FilledDistinct(w.c, Source(w.jobs[j].url), size);
      assert Attached(Filled(w.c, Source(w.jobs[j].url), size), k);
      ShrunkDetaches(Filled(w.c, Source(w.jobs[j].url), size), w.c.maxBytes, 0, k);
    }
  }

  /** While no resize is orphaned, an action orphans one that goes on exactly when it clears the
      cache or evicts the source of that resize. */
  lemma OrphanedBy(w: World, a: Action, i: nat)
    requires Inv(w) && Enabled(w, a) && (forall j | j in w.jobs :: !Orphan(w, j))
    requires i in w.jobs && w.jobs[i].Resize? && i in Do(w, a).jobs
    ensures Orphan(Do(w, a), i) <==> a.Clear? || SourceLeft(w.c, Do(w, a).c, w.jobs[i])
  {
    var k := w.jobs[i];
    assert !Orphan(w, i);
    JobItem(w, i);
    match a
    case Load(j, url, obj, claim) => AskedDetaches(w, w.c, Source(url), j, Fetch(url, obj, w.gen), claim, k);
    case LoadExisting(url) =>
    case FetchDone(j, size) => FetchedDetaches(w, j, size, k);
    case Prepare(j, key, obj) =>
      SourcedKeeps(w.c, key.url);
      AskedDetaches(w, Sourced(w.c, key.url), Surface(key), j, Resize(key, obj), true, k);
    case PrepareDone(j, size, canceled) =>
      assert !Orphan(w, j);
      JobItem(w, j);
      PreparedDetaches(w, j, size, canceled, i);
    case Clear =>
  }

  // ---------------------------------------------------------------- the byte counter over runs

  /** What orphaned resizes have left on the counter since the last clearing; `sofar` before the run. */
  ghost function Leaked(w: World, actions: seq<Action>, sofar: int): int
    requires Runs(w, actions)
    decreases |actions|
  {
    if actions == [] then sofar
    else Leaked(Do(w, actions[0]), actions[1..], if actions[0].Clear? then 0 else sofar + Leak(w, actions[0]))
  }

  lemma {:induction false} SlackIsLeaked(w: World, actions: seq<Action>)
    requires Inv(w) && Runs(w, actions)
    ensures Slack(After(w, actions).c) == Leaked(w, actions, Slack(w.c))
    decreases |actions|
  {
    if actions != [] {
      StepInv(w, actions[0]);
      StepSlack(w, actions[0]);
      SlackIsLeaked(Do(w, actions[0]), actions[1..]);
    }
  }

  /** In every reachable state the counter exceeds the resident bytes by exactly that. */
  lemma CounterExactly(maxBytes: int, maxEntries: int, actions: seq<Action>)
    requires Runs(Initial(maxBytes, maxEntries), actions)
    ensures var w := After(Initial(maxBytes, maxEntries), actions);
            w.c.bytes == Resident(w.c) + Leaked(Initial(maxBytes, maxEntries), actions, 0)
  {
    hide Inv, Do, After, Runs, Leaked;
    InitialInv(maxBytes, maxEntries);
    SlackIsLeaked(Initial(maxBytes, maxEntries), actions);
  }

  ghost predicate NoOrphans(w: World) {
    forall j | j in w.jobs :: !Orphan(w, j)
  }

  /** The action clears the cache, or evicts a source, while a resize that goes on is at work on it. */
  ghost predicate Disturbs(w: World, a: Action)
    requires Enabled(w, a)
  {
    exists i :: i in w.jobs && w.jobs[i].Resize? && i in Do(w, a).jobs
      && (a.Clear? || SourceLeft(w.c, Do(w, a).c, w.jobs[i]))
  }

  ghost predicate Undisturbed(w: World, actions: seq<Action>)
    requires Runs(w, actions)
    decreases |actions|
  {
    actions == [] || (!Disturbs(w, actions[0]) && Undisturbed(Do(w, actions[0]), actions[1..]))
  }

  /** An action leaves some resize without its surface exactly when it disturbs one. */
  lemma OrphansAppear(w: World, a: Action)
    requires Inv(w) && Enabled(w, a) && NoOrphans(w)
    ensures NoOrphans(Do(w, a)) <==> !Disturbs(w, a)
  {
    hide SourceLeft, Inv;
    var v := Do(w, a);
    forall i | i in v.jobs && i in w.jobs && w.jobs[i].Resize?
      ensures Orphan(v, i) <==> a.Clear? || SourceLeft(w.c, v.c, w.jobs[i])
    { OrphanedBy(w, a, i); }
    assert forall i | i in v.jobs && i in w.jobs :: v.jobs[i] == w.jobs[i];
    forall i | i in v.jobs && i !in w.jobs
      ensures !Orphan(v, i)
    { StartedAttached(w, a, i); }
    if Disturbs(w, a) {
      var i :| i in w.jobs && w.jobs[i].Resize? && i in v.jobs && (a.Clear? || SourceLeft(w.c, v.c, w.jobs[i]));
      assert Orphan(v, i);
    }
  }

  /** A resize begins on a surface that is resident. */
  lemma StartedAttached(w: World, a: Action, i: nat)
    requires Inv(w) && Enabled(w, a) && i in Do(w, a).jobs && i !in w.jobs
    ensures !Orphan(Do(w, a), i)
  {
  }

  /** As long as no resize is disturbed, the counter is the number of resident bytes. */
  lemma {:induction false} UndisturbedExact(w: World, actions: seq<Action>)
    requires Inv(w) && NoOrphans(w) && Slack(w.c) == 0 && Runs(w, actions) && Undisturbed(w, actions)
    ensures NoOrphans(After(w, actions)) && Slack(After(w, actions).c) == 0
    decreases |actions|
  {
    if actions != [] {
      StepInv(w, actions[0]);
      StepSlack(w, actions[0]);
      OrphansAppear(w, actions[0]);
      UndisturbedExact(Do(w, actions[0]), actions[1..]);
    }
  }

  lemma CounterUntilDisturbed(maxBytes: int, maxEntries: int, actions: seq<Action>)
    requires Runs(Initial(maxBytes, maxEntries), actions) && Undisturbed(Initial(maxBytes, maxEntries), actions)
    ensures var c := After(Initial(maxBytes, maxEntries), actions).c; c.bytes == Resident(c)
  {
    InitialInv(maxBytes, maxEntries);
    UndisturbedExact(Initial(maxBytes, maxEntries), actions);
  }

  /** An action that has room to spare evicts nothing. */
  lemma NothingShrunk(s: State, targetBytes: int, reserve: nat)
    requires !Over(s, targetBytes, reserve)
    ensures Shrunk(s, targetBytes, reserve) == s
  {
  }

  lemma {:induction false} RunsMore(w: World, xs: seq<Action>, a: Action)
    requires Runs(w, xs) && Enabled(After(w, xs), a)
    ensures Runs(w, xs + [a]) && After(w, xs + [a]) == Do(After(w, xs), a)
    decreases |xs|
  {
    if xs == [] {
      assert (xs + [a])[1..] == [];
    } else {
      assert (xs + [a])[1..] == xs[1..] + [a];
      RunsMore(Do(w, xs[0]), xs[1..], a);
    }
  }

  /** An image has been loaded and its resize begun. */
  lemma ResizeBegun(w: World, url: string, a: Cached, b: Cached) returns (actions: seq<Action>)
    requires w == Initial(100, 10) && url != "" && a != b
    ensures Runs(w, actions) && After(w, actions).jobs == map[1 := Resize(SurfaceKey(url, ""), b)]
    ensures var c := After(w, actions).c; c.maxBytes == 100 && c.maxEntries == 10
  {
    var w1 := Do(w, Load(0, url, a, true));
    NothingShrunk(w.c, 0, 1);
    assert w1.jobs == map[0 := Fetch(url, a, 0)] && w1.c.entries == map[url := Item(a, false, 0, 1)];
    RunsMore(w, [], Load(0, url, a, true));
    var w2 := Do(w1, FetchDone(0, 8));
    var c2 := Filled(w1.c, Source(url), 8);
    assert Size(c2) == 1 && c2.bytes == 8;
    NothingShrunk(c2, 100, 0);
    assert w2.jobs == map[];
    RunsMore(w, [Load(0, url, a, true)], FetchDone(0, 8));
    var c3 := Sourced(w2.c, url);
    assert Size(c3) == 1;
    NothingShrunk(c3, 0, 1);
    actions := [Load(0, url, a, true), FetchDone(0, 8), Prepare(1, SurfaceKey(url, ""), b)];
    RunsMore(w, [Load(0, url, a, true), FetchDone(0, 8)], Prepare(1, SurfaceKey(url, ""), b));
  }

  /** An image is loaded, its resize begins, the cache is cleared, and the resize ends: the cache
      is empty and its counter is not. */
  lemma CounterCanLeak(url: string, a: Cached, b: Cached) returns (actions: seq<Action>)
    requires url != "" && a != b
    ensures Runs(Initial(100, 10), actions)
    ensures var c := After(Initial(100, 10), actions).c; Resident(c) == 0 && c.bytes == 4
  {
    var w := Initial(100, 10);
    var begun := ResizeBegun(w, url, a, b);
    RunsMore(w, begun, Clear);
    var w4 := After(w, begun + [Clear]);
    var c5 := w4.c.(bytes := 4);
    assert w4.jobs == map[1 := Resize(SurfaceKey(url, ""), b)] && Size(c5) == 0;
    NothingShrunk(c5, 100, 0);
    RunsMore(w, begun + [Clear], PrepareDone(1, Some(4), false));
    actions := begun + [Clear] + [PrepareDone(1, Some(4), false)];
  }
}
