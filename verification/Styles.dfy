/** The stylesheet loader: what a page's sheets and their imports come to, over any import graph. */
module Styles {
  import opened Options

  type Url = string

  datatype Rule = Rule(body: string, order: nat, media: seq<seq<string>>, layer: string)

  datatype Import = Import(href: string, media: seq<string>, layered: bool, layer: string)

  /** What the parser makes of a sheet's text, resource addresses already resolved. */
  datatype Parsed = Broken | Parsed(imports: seq<Import>, rules: seq<Rule>)

  /** acceptable: a success status and a CSS content type. */
  datatype Reply = NoReply | Reply(final: Option<Url>, acceptable: bool, body: string)

  /** The parser, the address rules and the network; get's first argument numbers the request. */
  datatype Web = Web(
    parse: (string, Url) -> Parsed,
    resolve: (Url, string) -> Option<Url>,
    allowed: Url -> bool,
    bare: Url -> Url,
    get: (nat, Url) -> Reply)

  const MAX_DEPTH: nat := 8
  const MAX_FETCHES: nat := 32
  const MAX_BYTES: nat := 0x100_0000
  const MAX_RULES: nat := 100_000

  // ---------------------------------------------------------------- rules

  function Join(parent: string, child: string): string {
    if parent == "" then child
    else if child == "" then parent
    else parent + "." + child
  }

  function LayerOf(i: Import): string {
    if i.layered then i.layer else ""
  }

  function MediaOf(i: Import): seq<seq<string>> {
    if i.media == [] then [] else [i.media]
  }

  function UnderRule(media: seq<seq<string>>, layer: string, r: Rule): Rule {
    r.(media := media + r.media, layer := Join(layer, r.layer))
  }

  function Under(media: seq<seq<string>>, layer: string, rules: seq<Rule>): (rs: seq<Rule>)
    ensures |rs| == |rules|
    ensures forall i :: 0 <= i < |rs| ==> rs[i] == UnderRule(media, layer, rules[i])
  {
    seq(|rules|, i requires 0 <= i < |rules| => UnderRule(media, layer, rules[i]))
  }

  /** The rules that survive the cap, each numbered by its position. */
  function Capped(rules: seq<Rule>): (rs: seq<Rule>)
    ensures |rs| == if |rules| < MAX_RULES then |rules| else MAX_RULES
    ensures forall i :: 0 <= i < |rs| ==> rs[i] == rules[i].(order := i)
  {
    seq(if |rules| < MAX_RULES then |rules| else MAX_RULES, i requires 0 <= i < |rules| => rules[i].(order := i))
  }

  function Appended(rules: seq<Rule>, other: seq<Rule>): (rs: seq<Rule>)
    ensures |rules| <= MAX_RULES ==>
      |rs| == if |rules| + |other| < MAX_RULES then |rules| + |other| else MAX_RULES
    ensures |rules| <= |rs| && rs[..|rules|] == rules
    ensures forall i :: |rules| <= i < |rs| ==> i - |rules| < |other| && rs[i] == other[i - |rules|].(order := i)
    decreases |other|
  {
    if other == [] || |rules| >= MAX_RULES then
      rules
    else
      Appended(rules + [other[0].(order := |rules|)], other[1..])
  }

  /** Capping what is appended first, or not at all, makes no difference to the whole. */
  lemma AppendCapped(x: seq<Rule>, y: seq<Rule>)
    ensures Appended(Capped(x), Capped(y)) == Capped(x + y)
    ensures Appended(Capped(x), y) == Capped(x + y)
  {
    var a, b, c := Capped(x), Appended(Capped(x), Capped(y)), Appended(Capped(x), y);
    assert forall i :: 0 <= i < |a| ==> b[i] == b[..|a|][i] && c[i] == c[..|a|][i];
  }

  lemma UnderCapped(media: seq<seq<string>>, layer: string, x: seq<Rule>)
    ensures Under(media, layer, Capped(x)) == Capped(Under(media, layer, x))
  {
  }

  lemma JoinAssociative(a: string, b: string, c: string)
    ensures Join(Join(a, b), c) == Join(a, Join(b, c))
  {
    if a != "" && b != "" && c != "" {
      assert (a + "." + b) + "." + c == a + "." + (b + "." + c);
    }
  }

  lemma UnderTwice(m: seq<seq<string>>, k: string, n: seq<seq<string>>, l: string, rules: seq<Rule>)
    ensures Under(m, k, Under(n, l, rules)) == Under(m + n, Join(k, l), rules)
  {
    forall i | 0 <= i < |rules|
      ensures UnderRule(m, k, UnderRule(n, l, rules[i])) == UnderRule(m + n, Join(k, l), rules[i])
    {
      JoinAssociative(k, l, rules[i].layer);
      assert m + (n + rules[i].media) == m + n + rules[i].media;
    }
  }

  lemma UnderJoin(m: seq<seq<string>>, k: string, x: seq<Rule>, y: seq<Rule>)
    ensures Under(m, k, x + y) == Under(m, k, x) + Under(m, k, y)
  {
  }

  lemma UnderNothing(x: seq<Rule>)
    ensures Under([], "", x) == x
  {
    forall i | 0 <= i < |x| ensures UnderRule([], "", x[i]) == x[i] {
      assert [] + x[i].media == x[i].media;
    }
  }

  // ---------------------------------------------------------------- the tree of loaded sheets

  /** Skipped: never requested; Barren: requested, with nothing to show for it. */
  datatype Tree = Skipped | Barren(url: Url, size: nat) | Loaded(url: Url, final: Url, size: nat, page: Page)

  datatype Page = Page(kids: Kids, rules: seq<Rule>)

  datatype Kids = NoKids | Kid(through: Import, tree: Tree, rest: Kids)

  function Requests(t: Tree): nat {
    match t
    case Skipped => 0
    case Barren(_, _) => 1
    case Loaded(_, _, _, page) => 1 + KidsRequests(page.kids)
  }

  function KidsRequests(k: Kids): nat {
    match k
    case NoKids => 0
    case Kid(_, tree, rest) => Requests(tree) + KidsRequests(rest)
  }

  function Bytes(t: Tree): nat {
    match t
    case Skipped => 0
    case Barren(_, size) => size
    case Loaded(_, _, size, page) => size + KidsBytes(page.kids)
  }

  function KidsBytes(k: Kids): nat {
    match k
    case NoKids => 0
    case Kid(_, tree, rest) => Bytes(tree) + KidsBytes(rest)
  }

  function Height(t: Tree): nat {
    match t
    case Skipped => 0
    case Barren(_, _) => 1
    case Loaded(_, _, _, page) => 1 + KidsHeight(page.kids)
  }

  function KidsHeight(k: Kids): nat {
    match k
    case NoKids => 0
    case Kid(_, tree, rest) => if Height(tree) < KidsHeight(rest) then KidsHeight(rest) else Height(tree)
  }

  /** The rules of a sheet after those of its imports, each import's under its conditions. */
  function Flatten(t: Tree): seq<Rule> {
    match t
    case Skipped => []
    case Barren(_, _) => []
    case Loaded(_, _, _, page) => FlattenKids(page.kids) + page.rules
  }

  function FlattenKids(k: Kids): seq<Rule> {
    match k
    case NoKids => []
    case Kid(through, tree, rest) => Under(MediaOf(through), LayerOf(through), Flatten(tree)) + FlattenKids(rest)
  }

  /** The same rules from the top down, carrying along the conditions of the imports passed through. */
  function Inlined(t: Tree, media: seq<seq<string>>, layer: string): seq<Rule> {
    match t
    case Skipped => []
    case Barren(_, _) => []
    case Loaded(_, _, _, page) => InlinedKids(page.kids, media, layer) + Under(media, layer, page.rules)
  }

  function InlinedKids(k: Kids, media: seq<seq<string>>, layer: string): seq<Rule> {
    match k
    case NoKids => []
    case Kid(through, tree, rest) =>
      Inlined(tree, media + MediaOf(through), Join(layer, LayerOf(through))) + InlinedKids(rest, media, layer)
  }

  /** A rule carries the conditions of every import above it, the outermost first. */
  lemma {:induction false} FlattenIsInlined(t: Tree, media: seq<seq<string>>, layer: string)
    ensures Inlined(t, media, layer) == Under(media, layer, Flatten(t))
    decreases t
  {
    if t.Loaded? {
      FlattenKidsIsInlined(t.page.kids, media, layer);
      UnderJoin(media, layer, FlattenKids(t.page.kids), t.page.rules);
    }
  }

  lemma {:induction false} FlattenKidsIsInlined(k: Kids, media: seq<seq<string>>, layer: string)
    ensures InlinedKids(k, media, layer) == Under(media, layer, FlattenKids(k))
    decreases k
  {
    if k.Kid? {
      var m, l := MediaOf(k.through), LayerOf(k.through);
      FlattenIsInlined(k.tree, media + m, Join(layer, l));
      UnderTwice(media, layer, m, l, Flatten(k.tree));
      FlattenKidsIsInlined(k.rest, media, layer);
      UnderJoin(media, layer, Under(m, l, Flatten(k.tree)), FlattenKids(k.rest));
    }
  }

  // ---------------------------------------------------------------- what a rule carries

  /** The imports passed through on the way down t to a sheet. */
  ghost predicate Leads(t: Tree, through: seq<Import>, page: Page)
    decreases t
  {
    t.Loaded? && if through == [] then page == t.page else LeadsDown(t.page.kids, through, page)
  }

  ghost predicate LeadsDown(k: Kids, through: seq<Import>, page: Page)
    requires through != []
    decreases k
  {
    k.Kid? && ((k.through == through[0] && Leads(k.tree, through[1..], page)) || LeadsDown(k.rest, through, page))
  }

  /** The names of the layers, outermost first, with dots between them; an import without one adds nothing. */
  function LayerPath(through: seq<Import>, own: string): string {
    if through == [] then
      own
    else
      var inner := LayerPath(through[1..], own);
      if !through[0].layered || through[0].layer == "" then inner
      else if inner == "" then through[0].layer
      else through[0].layer + "." + inner
  }

  /** The media lists, outermost first, that are not empty. */
  function MediaPath(through: seq<Import>): seq<seq<string>> {
    if through == [] then
      []
    else if through[0].media == [] then
      MediaPath(through[1..])
    else
      [through[0].media] + MediaPath(through[1..])
  }

  function Carried(through: seq<Import>, own: Rule): Rule {
    own.(media := MediaPath(through) + own.media, layer := LayerPath(through, own.layer))
  }

  lemma CarriedFurther(i: Import, through: seq<Import>, own: Rule)
    ensures UnderRule(MediaOf(i), LayerOf(i), Carried(through, own)) == Carried([i] + through, own)
  {
    assert ([i] + through)[1..] == through;
    assert [i.media] + (MediaPath(through) + own.media) == [i.media] + MediaPath(through) + own.media;
  }

  /** A rule stands in some sheet and carries the conditions of exactly the imports that lead there. */
  lemma {:induction false} CarriesPath(t: Tree, r: Rule) returns (through: seq<Import>, page: Page, own: Rule)
    requires r in Flatten(t)
    ensures Leads(t, through, page) && own in page.rules && r == Carried(through, own)
    decreases t
  {
    if r in t.page.rules {
      through, page, own := [], t.page, r;
      assert [] + r.media == r.media;
    } else {
      through, page, own := KidsCarryPath(t.page.kids, r);
    }
  }

  lemma {:induction false} KidsCarryPath(k: Kids, r: Rule) returns (through: seq<Import>, page: Page, own: Rule)
    requires r in FlattenKids(k)
    ensures through != [] && LeadsDown(k, through, page) && own in page.rules && r == Carried(through, own)
    decreases k
  {
    var first := Flatten(k.tree);
    var under := Under(MediaOf(k.through), LayerOf(k.through), first);
    if r in under {
      var i :| 0 <= i < |under| && under[i] == r;
      through, page, own := CarriesPath(k.tree, first[i]);
      CarriedFurther(k.through, through, own);
      assert ([k.through] + through)[1..] == through;
      through := [k.through] + through;
    } else {
      through, page, own := KidsCarryPath(k.rest, r);
    }
  }

  /** And every rule of every sheet is there. */
  lemma {:induction false} PathCarries(t: Tree, through: seq<Import>, page: Page, own: Rule)
    requires Leads(t, through, page) && own in page.rules
    ensures Carried(through, own) in Flatten(t)
    decreases t
  {
    if through == [] {
      assert [] + own.media == own.media;
    } else {
      PathCarriesDown(t.page.kids, through, page, own);
    }
  }

  lemma {:induction false} PathCarriesDown(k: Kids, through: seq<Import>, page: Page, own: Rule)
    requires through != [] && LeadsDown(k, through, page) && own in page.rules
    ensures Carried(through, own) in FlattenKids(k)
    decreases k
  {
    if k.through == through[0] && Leads(k.tree, through[1..], page) {
      PathCarries(k.tree, through[1..], page, own);
      CarriedFurther(k.through, through[1..], own);
      assert [through[0]] + through[1..] == through;
      var first, inner := Flatten(k.tree), Carried(through[1..], own);
      var i :| 0 <= i < |first| && first[i] == inner;
      assert Under(MediaOf(k.through), LayerOf(k.through), first)[i] == Carried(through, own);
    } else {
      PathCarriesDown(k.rest, through, page, own);
    }
  }

  // ---------------------------------------------------------------- loading, with the active addresses passed down

  datatype Meter = Meter(fetches: nat, bytes: nat)

  predicate Within(m: Meter) {
    m.fetches <= MAX_FETCHES && m.bytes <= MAX_BYTES
  }

  function Consumed(m: Meter, size: nat): (r: Option<Meter>)
    ensures r.Some? <==> m.bytes + size <= MAX_BYTES
  {
    if size > MAX_BYTES - m.bytes then None else Some(m.(bytes := m.bytes + size))
  }

  function Finally(r: Reply, url: Url): Url
    requires r.Reply?
  {
    if r.final.Some? then r.final.value else url
  }

  function Visit(web: Web, active: set<Url>, url: Url, depth: nat, m: Meter): (Tree, Meter)
    decreases if depth > MAX_DEPTH then 0 else MAX_DEPTH + 1 - depth, 1, 0
  {
    if depth > MAX_DEPTH || m.fetches >= MAX_FETCHES || !web.allowed(url) || web.bare(url) in active then
      (Skipped, m)
    else
      var key := web.bare(url);
      Receive(web, active, key, depth, web.get(m.fetches, key), m.(fetches := m.fetches + 1))
  }

  /** What becomes of the reply to a request for key. */
  function Receive(web: Web, active: set<Url>, key: Url, depth: nat, reply: Reply, m: Meter): (Tree, Meter)
    requires depth <= MAX_DEPTH
    decreases MAX_DEPTH + 1 - depth, 0, 1, 0
  {
    if reply.NoReply? || !reply.acceptable || !web.allowed(Finally(reply, key)) || Consumed(m, |reply.body|).None? then
      (Barren(key, 0), m)
    else
      var final, paid := Finally(reply, key), Consumed(m, |reply.body|).value;
      if final != key && final in active then
        (Barren(key, |reply.body|), paid)
      else
        match web.parse(reply.body, final)
        case Broken => (Barren(key, |reply.body|), paid)
        case Parsed(imports, rules) =>
          var (kids, rest) := VisitAll(web, active + {key, final}, final, imports, depth, paid);
          (Loaded(key, final, |reply.body|, Page(kids, rules)), rest)
  }

  function VisitAll(web: Web, active: set<Url>, base: Url, imports: seq<Import>, depth: nat, m: Meter): (Kids, Meter)
    requires depth <= MAX_DEPTH
    decreases MAX_DEPTH + 1 - depth, 0, 0, |imports|
  {
    if imports == [] then
      (NoKids, m)
    else
      var (tree, after) := VisitOne(web, active, base, imports[0], depth, m);
      var (rest, end) := VisitAll(web, active, base, imports[1..], depth, after);
      (Kid(imports[0], tree, rest), end)
  }

  function VisitOne(web: Web, active: set<Url>, base: Url, i: Import, depth: nat, m: Meter): (Tree, Meter)
    requires depth <= MAX_DEPTH
    decreases MAX_DEPTH - depth, 2
  {
    match web.resolve(base, i.href)
    case None => (Skipped, m)
    case Some(url) => Visit(web, active, url, depth + 1, m)
  }

  /** Each request and each byte is in the tree, and the limits hold. */
  lemma {:induction false} VisitMetered(web: Web, active: set<Url>, url: Url, depth: nat, m: Meter)
    requires Within(m)
    ensures var (t, end) := Visit(web, active, url, depth, m);
      Within(end) && end == Meter(m.fetches + Requests(t), m.bytes + Bytes(t))
      && Height(t) <= if depth > MAX_DEPTH then 0 else MAX_DEPTH + 1 - depth
    decreases if depth > MAX_DEPTH then 0 else MAX_DEPTH + 1 - depth, 1, 0
  {
    if !(depth > MAX_DEPTH || m.fetches >= MAX_FETCHES || !web.allowed(url) || web.bare(url) in active) {
      var key := web.bare(url);
      var reply := web.get(m.fetches, key);
      var asked := m.(fetches := m.fetches + 1);
      if Receive(web, active, key, depth, reply, asked).0.Loaded? {
        var final := Finally(reply, key);
        var parsed := web.parse(reply.body, final);
        VisitAllMetered(web, active + {key, final}, final, parsed.imports, depth, Consumed(asked, |reply.body|).value);
      }
    }
  }

  lemma {:induction false} VisitAllMetered(web: Web, active: set<Url>, base: Url, imports: seq<Import>, depth: nat,
                                           m: Meter)
    requires depth <= MAX_DEPTH && Within(m)
    ensures var (k, end) := VisitAll(web, active, base, imports, depth, m);
      Within(end) && end == Meter(m.fetches + KidsRequests(k), m.bytes + KidsBytes(k))
      && KidsHeight(k) <= MAX_DEPTH - depth
    decreases MAX_DEPTH + 1 - depth, 0, |imports|
  {
    if imports != [] {
      var resolved := web.resolve(base, imports[0].href);
      if resolved.Some? {
        VisitMetered(web, active, resolved.value, depth + 1, m);
      }
      var after := VisitOne(web, active, base, imports[0], depth, m).1;
      VisitAllMetered(web, active, base, imports[1..], depth, after);
    }
  }

  /** What is loaded was asked for once, at the bare address, and is what came back from an allowed
      address in an acceptable reply; its imports and rules are those of the parsed text. */
  lemma LoadedFrom(web: Web, active: set<Url>, url: Url, depth: nat, m: Meter)
    requires Visit(web, active, url, depth, m).0.Loaded?
    ensures var t, reply := Visit(web, active, url, depth, m).0, web.get(m.fetches, web.bare(url));
      && web.allowed(url) && t.url == web.bare(url) && reply.Reply? && reply.acceptable
      && t.final == (match reply.final case Some(other) => other case None => t.url)
      && web.allowed(t.final) && t.size == |reply.body|
      && var parsed := web.parse(reply.body, t.final);
         parsed.Parsed? && parsed.rules == t.page.rules && Through(t.page.kids) == parsed.imports
  {
    var key := web.bare(url);
    var reply, asked := web.get(m.fetches, key), m.(fetches := m.fetches + 1);
    var final := Finally(reply, key);
    var paid, parsed := Consumed(asked, |reply.body|).value, web.parse(reply.body, final);
    VisitAllThrough(web, active + {key, final}, final, parsed.imports, depth, paid);
  }

  function Through(k: Kids): seq<Import> {
    match k
    case NoKids => []
    case Kid(through, _, rest) => [through] + Through(rest)
  }

  lemma {:induction false} VisitAllThrough(web: Web, active: set<Url>, base: Url, imports: seq<Import>, depth: nat,
                                           m: Meter)
    requires depth <= MAX_DEPTH
    ensures Through(VisitAll(web, active, base, imports, depth, m).0) == imports
    decreases |imports|
  {
    if imports != [] {
      VisitAllThrough(web, active, base, imports[1..], depth, VisitOne(web, active, base, imports[0], depth, m).1);
    }
  }

  // ---------------------------------------------------------------- chains of imports

  /** One sheet on the way down: the address asked for and the one that answered. */
  datatype Stop = Stop(url: Url, final: Url)

  /** p goes down t from its top. */
  predicate Chain(t: Tree, p: seq<Stop>)
    decreases t
  {
    || p == []
    || (t.Barren? && p == [Stop(t.url, t.url)])
    || (t.Loaded? && p[0] == Stop(t.url, t.final) && ChainThrough(t.page.kids, p[1..]))
  }

  predicate ChainThrough(k: Kids, p: seq<Stop>)
    decreases k
  {
    p == [] || (k.Kid? && (Chain(k.tree, p) || ChainThrough(k.rest, p)))
  }

  /** No address occurs twice down p, nor anywhere in active. */
  predicate Fresh(p: seq<Stop>, active: set<Url>) {
    && (forall i :: 0 <= i < |p| ==> p[i].url !in active && p[i].final !in active)
    && (forall i, j :: 0 <= i < j < |p| ==> {p[i].url, p[i].final} !! {p[j].url, p[j].final})
  }

  lemma FreshBelow(s: Stop, p: seq<Stop>, active: set<Url>)
    requires s.url !in active && s.final !in active && Fresh(p, active + {s.url, s.final})
    ensures Fresh([s] + p, active)
  {
    var q := [s] + p;
    forall i, j | 0 <= i < j < |q| ensures {q[i].url, q[i].final} !! {q[j].url, q[j].final} {
      assert q[j] == p[j - 1];
      if i > 0 {
        assert q[i] == p[i - 1];
      }
    }
  }

  /** No address, compared as a string, occurs twice down a chain, as requested or as redirected. */
  lemma {:induction false} ChainsRepeatNothing(web: Web, active: set<Url>, url: Url, depth: nat, m: Meter, p: seq<Stop>)
    requires Chain(Visit(web, active, url, depth, m).0, p)
    ensures Fresh(p, active) && |p| <= if depth > MAX_DEPTH then 0 else MAX_DEPTH + 1 - depth
    decreases if depth > MAX_DEPTH then 0 else MAX_DEPTH + 1 - depth, 1, 0
  {
    var t := Visit(web, active, url, depth, m).0;
    if p != [] && !t.Skipped? {
      var key := web.bare(url);
      var reply := web.get(m.fetches, key);
      assert t == Receive(web, active, key, depth, reply, m.(fetches := m.fetches + 1)).0;
      if t.Barren? {
        return;
      }
      var paid := Consumed(m.(fetches := m.fetches + 1), |reply.body|).value;
      var parsed := web.parse(reply.body, t.final);
      ChainsBelow(web, active + {key, t.final}, t.final, parsed.imports, depth, paid, p[1..]);
      FreshBelow(p[0], p[1..], active);
      assert p == [p[0]] + p[1..];
    }
  }

  lemma {:induction false} ChainsBelow(web: Web, active: set<Url>, base: Url, imports: seq<Import>, depth: nat,
                                       m: Meter,
                                       p: seq<Stop>)
    requires depth <= MAX_DEPTH
    requires ChainThrough(VisitAll(web, active, base, imports, depth, m).0, p)
    ensures Fresh(p, active) && |p| <= MAX_DEPTH - depth
    decreases MAX_DEPTH + 1 - depth, 0, |imports|
  {
    if p != [] {
      var resolved := web.resolve(base, imports[0].href);
      var (tree, after) := VisitOne(web, active, base, imports[0], depth, m);
      if Chain(tree, p) {
        ChainsRepeatNothing(web, active, resolved.value, depth + 1, m, p);
      } else {
        ChainsBelow(web, active, base, imports[1..], depth, after, p);
      }
    }
  }

  // ---------------------------------------------------------------- the whole graph

  /** The network answers the same request in the same way at any time. */
  ghost predicate Steady(web: Web) {
    forall n, url :: web.get(n, url) == web.get(0, url)
  }

  /** t is the import graph below url unfolded without limit, cut only where it would come back to an active address. */
  ghost predicate Unfolds(web: Web, active: set<Url>, url: Url, t: Tree)
    decreases t
  {
    if !web.allowed(url) || web.bare(url) in active then
      t == Skipped
    else
      var key := web.bare(url);
      var reply := web.get(0, key);
      if reply.NoReply? || !reply.acceptable || !web.allowed(Finally(reply, key)) then
        t == Barren(key, 0)
      else
        var final := Finally(reply, key);
        var parsed := web.parse(reply.body, final);
        if (final != key && final in active) || parsed.Broken? then
          t == Barren(key, |reply.body|)
        else
          && t.Loaded?
          && t == Loaded(key, final, |reply.body|, Page(t.page.kids, parsed.rules))
          && UnfoldsAll(web, active + {key, final}, final, parsed.imports, t.page.kids)
  }

  ghost predicate UnfoldsAll(web: Web, active: set<Url>, base: Url, imports: seq<Import>, k: Kids)
    decreases k
  {
    if imports == [] then
      k == NoKids
    else
      && k.Kid?
      && k.through == imports[0]
      && UnfoldsAll(web, active, base, imports[1..], k.rest)
      && match web.resolve(base, imports[0].href)
         case None => k.tree == Skipped
         case Some(url) => Unfolds(web, active, url, k.tree)
  }

  predicate Affordable(requests: nat, bytes: nat, height: nat, depth: nat, m: Meter) {
    && m.fetches + requests <= MAX_FETCHES
    && m.bytes + bytes <= MAX_BYTES
    && depth + height <= MAX_DEPTH + 1
  }

  /** On a steady network the loader returns the whole unfolding exactly when the limits leave room for it. */
  lemma WholeGraphExactly(web: Web, active: set<Url>, url: Url, depth: nat, m: Meter, t: Tree)
    requires Steady(web) && Within(m) && Unfolds(web, active, url, t) && depth <= MAX_DEPTH + 1
    ensures Visit(web, active, url, depth, m).0 == t <==> Affordable(Requests(t), Bytes(t), Height(t), depth, m)
  {
    VisitMetered(web, active, url, depth, m);
    if Affordable(Requests(t), Bytes(t), Height(t), depth, m) {
      WholeGraph(web, active, url, depth, m, t);
    }
  }

  lemma {:induction false} WholeGraph(web: Web, active: set<Url>, url: Url, depth: nat, m: Meter, t: Tree)
    requires Steady(web) && Unfolds(web, active, url, t)
    requires Affordable(Requests(t), Bytes(t), Height(t), depth, m)
    ensures Visit(web, active, url, depth, m) == (t, Meter(m.fetches + Requests(t), m.bytes + Bytes(t)))
    decreases t
  {
    if web.allowed(url) && web.bare(url) !in active {
      var key := web.bare(url);
      var reply := web.get(m.fetches, key);
      assert reply == web.get(0, key);
      assert Requests(t) >= 1 && Height(t) >= 1;
      if t.Loaded? {
        var parsed := web.parse(reply.body, t.final);
        var paid := Meter(m.fetches + 1, m.bytes + |reply.body|);
        WholeGraphBelow(web, active + {key, t.final}, t.final, parsed.imports, depth, paid, t.page.kids);
      }
    }
  }

  lemma {:induction false} WholeGraphBelow(web: Web, active: set<Url>, base: Url, imports: seq<Import>, depth: nat,
                                           m: Meter, k: Kids)
    requires Steady(web) && UnfoldsAll(web, active, base, imports, k) && depth <= MAX_DEPTH
    requires Affordable(KidsRequests(k), KidsBytes(k), KidsHeight(k), depth + 1, m)
    ensures VisitAll(web, active, base, imports, depth, m)
      == (k, Meter(m.fetches + KidsRequests(k), m.bytes + KidsBytes(k)))
    decreases k
  {
    if imports != [] {
      var resolved := web.resolve(base, imports[0].href);
      if resolved.Some? {
        WholeGraph(web, active, resolved.value, depth + 1, m, k.tree);
      }
      var after := Meter(m.fetches + Requests(k.tree), m.bytes + Bytes(k.tree));
      WholeGraphBelow(web, active, base, imports[1..], depth, after, k.rest);
    }
  }

  /** Sheets named by a number of letters, each of them importing the one with a letter less. */
  function Tower(): Web {
    Web((body: string, base: Url) => if |body| <= 1 then Parsed([], []) else Parsed([Below(body)], []),
        (base: Url, href: string) => Some(href),
        (url: Url) => true,
        (url: Url) => url,
        (n: nat, url: Url) => Reply(None, true, url))
  }

  function Below(body: string): Import
    requires |body| > 0
  {
    Import(body[1..], [], false, "")
  }

  function Storeys(url: Url): Tree
    requires url != ""
    decreases |url|
  {
    if |url| == 1 then Loaded(url, url, 1, Page(NoKids, []))
    else Loaded(url, url, |url|, Page(Kid(Below(url), Storeys(url[1..]), NoKids), []))
  }

  lemma {:induction false} StoreysHeight(url: Url)
    requires url != ""
    ensures Height(Storeys(url)) == |url|
    decreases |url|
  {
    if |url| > 1 {
      StoreysHeight(url[1..]);
      var below := Kid(Below(url), Storeys(url[1..]), NoKids);
      assert KidsHeight(NoKids) == 0 && KidsHeight(below) == |url| - 1;
    } else {
      assert KidsHeight(NoKids) == 0;
    }
  }

  lemma {:induction false} TowerUnfolds(active: set<Url>, url: Url)
    requires url != "" && forall a | a in active :: |a| > |url|
    ensures Unfolds(Tower(), active, url, Storeys(url))
    decreases |url|
  {
    if |url| > 1 {
      TowerUnfolds(active + {url, url}, url[1..]);
      assert [Below(url)][1..] == [];
    }
  }

  /** Ten sheets, each importing the next, are one too many: the last is missing. */
  lemma TowerTooHigh(url: Url)
    requires |url| > MAX_DEPTH + 1
    ensures Unfolds(Tower(), {}, url, Storeys(url))
    ensures Visit(Tower(), {}, url, 0, Meter(0, 0)).0 != Storeys(url)
  {
    StoreysHeight(url);
    TowerUnfolds({}, url);
    WholeGraphExactly(Tower(), {}, url, 0, Meter(0, 0), Storeys(url));
  }

  // ---------------------------------------------------------------- a page's sheets

  datatype Source = Inline(content: string) | Link(href: string)

  /** end: what the page's sheets have used up. */
  datatype Outcome = Failed | Styled(pages: seq<Page>, end: Meter)

  function FlattenAll(pages: seq<Page>): seq<Rule> {
    if pages == [] then
      []
    else
      FlattenKids(pages[0].kids) + pages[0].rules + FlattenAll(pages[1..])
  }

  function InlinedAll(pages: seq<Page>): seq<Rule> {
    if pages == [] then
      []
    else
      InlinedKids(pages[0].kids, [], "") + pages[0].rules + InlinedAll(pages[1..])
  }

  lemma {:induction false} FlattenAllIsInlined(pages: seq<Page>)
    ensures FlattenAll(pages) == InlinedAll(pages)
  {
    if pages != [] {
      FlattenKidsIsInlined(pages[0].kids, [], "");
      UnderNothing(FlattenKids(pages[0].kids));
      FlattenAllIsInlined(pages[1..]);
    }
  }

  /** What a source adds: None when its own text cannot be parsed, which fails the whole page. */
  function SourcePage(web: Web, base: Url, source: Source, m: Meter): (Option<Page>, Meter) {
    var nothing := Page(NoKids, []);
    match source
    case Inline(content) =>
      (match Consumed(m, |content|)
       case None => (Some(nothing), m)
       case Some(paid) =>
         match web.parse(content, base)
         case Broken => (None, paid)
         case Parsed(imports, rules) =>
           var (kids, end) := VisitAll(web, {}, base, imports, 0, paid);
           (Some(Page(kids, rules)), end))
    case Link(href) =>
      match web.resolve(base, href)
      case None => (Some(nothing), m)
      case Some(url) =>
        var (t, end) := Visit(web, {}, url, 0, m);
        (Some(if t.Loaded? then t.page else nothing), end)
  }

  function PageSheets(web: Web, base: Url, sources: seq<Source>, m: Meter): Outcome {
    if sources == [] then
      Styled([], m)
    else
      var (page, after) := SourcePage(web, base, sources[0], m);
      if page.None? then
        Failed
      else
        match PageSheets(web, base, sources[1..], after)
        case Failed => Failed
        case Styled(pages, end) => Styled([page.value] + pages, end)
  }

  /** What the sources have used up. */
  function SpentBy(web: Web, base: Url, sources: seq<Source>, m: Meter): Meter {
    if sources == [] then m else SpentBy(web, base, sources[1..], SourcePage(web, base, sources[0], m).1)
  }

  /** The sheet cannot be parsed, and there are bytes left to try. */
  predicate Breaks(web: Web, base: Url, sources: seq<Source>, m: Meter, k: nat)
    requires k < |sources|
  {
    && sources[k].Inline? && web.parse(sources[k].content, base).Broken?
    && SpentBy(web, base, sources[..k], m).bytes + |sources[k].content| <= MAX_BYTES
  }

  /** A page fails exactly when some sheet in its own text breaks; a linked sheet never fails it. */
  lemma {:induction false} PageFailsExactly(web: Web, base: Url, sources: seq<Source>, m: Meter)
    ensures PageSheets(web, base, sources, m).Failed?
      <==> exists k: nat :: k < |sources| && Breaks(web, base, sources, m, k)
    ensures var outcome := PageSheets(web, base, sources, m);
      outcome.Styled? ==> |outcome.pages| == |sources| && outcome.end == SpentBy(web, base, sources, m)
    decreases |sources|
  {
    if sources != [] {
      var (page, after) := SourcePage(web, base, sources[0], m);
      PageFailsExactly(web, base, sources[1..], after);
      assert Breaks(web, base, sources, m, 0) <==> page.None?;
      forall k: nat | 0 < k < |sources|
        ensures Breaks(web, base, sources, m, k) <==> Breaks(web, base, sources[1..], after, k - 1)
      {
        assert sources[..k][1..] == sources[1..][..k - 1];
      }
      if k: nat :| k < |sources[1..]| && Breaks(web, base, sources[1..], after, k) {
        assert Breaks(web, base, sources, m, k + 1);
      }
    }
  }

  /** The sheets come in the order of their sources: a linked one as it is loaded, or empty, and one in
      the page's own text with its own rules and imports. */
  lemma {:induction false} SheetsInOrder(web: Web, base: Url, sources: seq<Source>, m: Meter, k: nat)
    requires k < |sources| && PageSheets(web, base, sources, m).Styled?
    ensures |PageSheets(web, base, sources, m).pages| == |sources|
    ensures var p, spent := PageSheets(web, base, sources, m).pages[k], SpentBy(web, base, sources[..k], m);
      match sources[k]
      case Inline(content) =>
        if spent.bytes + |content| <= MAX_BYTES then
          var parsed := web.parse(content, base);
          parsed.Parsed? && p.rules == parsed.rules && Through(p.kids) == parsed.imports
        else
          p == Page(NoKids, [])
      case Link(href) =>
        match web.resolve(base, href)
        case Some(url) =>
          var t := Visit(web, {}, url, 0, spent).0;
          p == if t.Loaded? then t.page else Page(NoKids, [])
        case None =>
          p == Page(NoKids, [])
    decreases |sources|
  {
    PageFailsExactly(web, base, sources, m);
    var after := SourcePage(web, base, sources[0], m).1;
    if k > 0 {
      SheetsInOrder(web, base, sources[1..], after, k - 1);
      assert sources[..k][1..] == sources[1..][..k - 1];
    } else if sources[0].Inline? && Consumed(m, |sources[0].content|).Some? {
      var content := sources[0].content;
      VisitAllThrough(web, {}, base, web.parse(content, base).imports, 0, Consumed(m, |content|).value);
    }
  }

  /** What an import adds to the sheet that names it. */
  function Conditioned(i: Import, t: Tree): (rules: seq<Rule>)
    ensures !t.Loaded? ==> rules == []
  {
    Under(MediaOf(i), LayerOf(i), Flatten(t))
  }

  /** How the imports still to come complete the rules of those already appended. */
  ghost predicate KidsComplete(web: Web, active: set<Url>, base: Url, rest: seq<Import>, depth: nat, m: Meter,
                               done: seq<Rule>, whole: (Kids, Meter))
    requires depth <= MAX_DEPTH
  {
    var (kids, end) := VisitAll(web, active, base, rest, depth, m);
    end == whole.1 && done + FlattenKids(kids) == FlattenKids(whole.0)
  }

  lemma KidsCompleteNext(web: Web, active: set<Url>, base: Url, imports: seq<Import>, k: nat, depth: nat, m: Meter,
                         done: seq<Rule>, whole: (Kids, Meter))
    requires depth <= MAX_DEPTH && k < |imports|
    requires KidsComplete(web, active, base, imports[k..], depth, m, done, whole)
    ensures var (tree, after) := VisitOne(web, active, base, imports[k], depth, m);
      KidsComplete(web, active, base, imports[k + 1..], depth, after, done + Conditioned(imports[k], tree), whole)
  {
    var (tree, after) := VisitOne(web, active, base, imports[k], depth, m);
    var rest := VisitAll(web, active, base, imports[k + 1..], depth, after).0;
    assert imports[k..][1..] == imports[k + 1..];
    assert done + Conditioned(imports[k], tree) + FlattenKids(rest)
      == done + (Conditioned(imports[k], tree) + FlattenKids(rest));
  }

  // ---------------------------------------------------------------- the loader

  class Stylesheet {
    var rules: seq<Rule>

    constructor (rules: seq<Rule>)
      ensures this.rules == rules
    {
      this.rules := rules;
    }

    method Append(other: Stylesheet)
      requires other != this
      modifies this
      ensures rules == Appended(old(rules), other.rules)
    {
      var k := 0;
      while k < |other.rules| && |rules| < MAX_RULES
        invariant k <= |other.rules|
        invariant Appended(rules, other.rules[k..]) == Appended(old(rules), other.rules)
      {
        rules := rules + [other.rules[k].(order := |rules|)];
        k := k + 1;
      }
    }

    method AddMedia(media: seq<string>)
      modifies this
      ensures rules == Under([media], "", old(rules))
    {
      var k := 0;
      while k < |rules|
        invariant k <= |rules| == |old(rules)|
        invariant forall i :: 0 <= i < k ==> rules[i] == UnderRule([media], "", old(rules)[i])
        invariant forall i :: k <= i < |rules| ==> rules[i] == old(rules)[i]
      {
        rules := rules[k := rules[k].(media := [media] + rules[k].media)];
        k := k + 1;
      }
    }

    method NestUnderLayer(parent: string)
      modifies this
      ensures rules == Under([], parent, old(rules))
    {
      UnderNothing(rules);
      if parent != "" {
        var k := 0;
        while k < |rules|
          invariant k <= |rules| == |old(rules)|
          invariant forall i :: 0 <= i < k ==> rules[i] == UnderRule([], parent, old(rules)[i])
          invariant forall i :: k <= i < |rules| ==> rules[i] == old(rules)[i]
        {
          assert [] + rules[k].media == rules[k].media;
          if rules[k].layer == "" {
            rules := rules[k := rules[k].(layer := parent)];
          } else {
            rules := rules[k := rules[k].(layer := parent + "." + rules[k].layer)];
          }
          k := k + 1;
        }
      }
    }

    method PutUnder(i: Import)
      modifies this
      ensures rules == Under(MediaOf(i), LayerOf(i), old(rules))
    {
      UnderNothing(rules);
      UnderTwice([], LayerOf(i), MediaOf(i), "", rules);
      assert [] + MediaOf(i) == MediaOf(i);
      if i.media != [] {
        AddMedia(i.media);
      }
      if i.layered {
        NestUnderLayer(i.layer);
      } else {
        UnderNothing(rules);
      }
    }
  }

  class Loader {
    const web: Web
    var active: set<Url>
    var fetches: nat
    var totalBytes: nat

    constructor (web: Web)
      ensures this.web == web && active == {} && fetches == 0 && totalBytes == 0
    {
      this.web := web;
      active, fetches, totalBytes := {}, 0, 0;
    }

    function Spent(): Meter
      reads this
    {
      Meter(fetches, totalBytes)
    }

    method ConsumeBytes(size: nat) returns (fits: bool)
      modifies this`totalBytes
      ensures fits == Consumed(old(Spent()), size).Some?
      ensures Spent() == if fits then Consumed(old(Spent()), size).value else old(Spent())
    {
      fits := size <= MAX_BYTES - totalBytes;
      if fits {
        totalBytes := totalBytes + size;
      }
    }

    /** A sheet's imports, one at a time, and then its own rules. */
    method LoadContent(content: string, base: Url, depth: nat) returns (sheet: Stylesheet, parsed: bool)
      requires depth <= MAX_DEPTH
      modifies this
      ensures fresh(sheet) && active == old(active)
      ensures parsed == web.parse(content, base).Parsed?
      ensures !parsed ==> Spent() == old(Spent()) && sheet.rules == []
      ensures parsed ==>
        var p := web.parse(content, base);
        var (kids, end) := VisitAll(web, old(active), base, p.imports, depth, old(Spent()));
        Spent() == end && sheet.rules == Capped(FlattenKids(kids) + p.rules)
      decreases MAX_DEPTH + 1 - depth, 0, 1
    {
      var p := web.parse(content, base);
      parsed := p.Parsed?;
      if !parsed {
        sheet := new Stylesheet([]);
        return;
      }
      ghost var kids := VisitAll(web, active, base, p.imports, depth, Spent()).0;
      sheet := LoadImports(p.imports, base, depth);
      AppendCapped(FlattenKids(kids), p.rules);
      var own := new Stylesheet(p.rules);
      sheet.Append(own);
    }

    method LoadImports(imports: seq<Import>, base: Url, depth: nat) returns (sheet: Stylesheet)
      requires depth <= MAX_DEPTH
      modifies this
      ensures fresh(sheet) && active == old(active)
      ensures var (kids, end) := VisitAll(web, old(active), base, imports, depth, old(Spent()));
        Spent() == end && sheet.rules == Capped(FlattenKids(kids))
      decreases MAX_DEPTH + 1 - depth, 0, 0
    {
      sheet := new Stylesheet([]);
      ghost var whole := VisitAll(web, active, base, imports, depth, Spent());
      ghost var done: seq<Rule> := [];
      assert imports[0..] == imports;
      var k := 0;
      while k < |imports|
        invariant k <= |imports| && fresh(sheet) && active == old(active)
        invariant KidsComplete(web, active, base, imports[k..], depth, Spent(), done, whole)
        invariant sheet.rules == Capped(done)
      {
        ghost var tree := VisitOne(web, active, base, imports[k], depth, Spent()).0;
        KidsCompleteNext(web, active, base, imports, k, depth, Spent(), done, whole);
        LoadImport(imports[k], base, depth, sheet);
        AppendCapped(done, Conditioned(imports[k], tree));
        done := done + Conditioned(imports[k], tree);
        k := k + 1;
      }
    }

    /** The body of the import loop: load, put under the import's conditions, append. */
    method LoadImport(i: Import, base: Url, depth: nat, sheet: Stylesheet)
      requires depth <= MAX_DEPTH
      modifies this, sheet
      ensures active == old(active)
      ensures var (tree, after) := VisitOne(web, old(active), base, i, depth, old(Spent()));
        Spent() == after && sheet.rules == Appended(old(sheet.rules), Capped(Conditioned(i, tree)))
      decreases MAX_DEPTH - depth, 3
    {
      var url := web.resolve(base, i.href);
      if url.None? {
        return;
      }
      ghost var tree := Visit(web, active, url.value, depth + 1, Spent()).0;
      var imported, loaded := LoadExternal(url.value, depth + 1);
      if !loaded {
        return;
      }
      imported.PutUnder(i);
      UnderCapped(MediaOf(i), LayerOf(i), Flatten(tree));
      sheet.Append(imported);
    }

    method LoadExternal(url: Url, depth: nat) returns (sheet: Stylesheet, loaded: bool)
      modifies this
      ensures fresh(sheet) && active == old(active)
      ensures var (tree, end) := Visit(web, old(active), url, depth, old(Spent()));
        Spent() == end && sheet.rules == Capped(Flatten(tree)) && (!loaded ==> !tree.Loaded?)
      decreases if depth > MAX_DEPTH then 0 else MAX_DEPTH + 1 - depth, 2
    {
      if depth > MAX_DEPTH || fetches >= MAX_FETCHES || !web.allowed(url) {
        sheet := new Stylesheet([]);
        return sheet, true;
      }
      var key := web.bare(url);
      if key in active {
        sheet := new Stylesheet([]);
        return sheet, true;
      }
      ghost var above := active;
      active := active + {key};
      fetches := fetches + 1;
      sheet, loaded := TakeReply(above, key, depth, web.get(fetches - 1, key));
      active := active - {key};
    }

    /** The rest of the load, from the reply on; above holds the addresses active before the request. */
    method TakeReply(ghost above: set<Url>, key: Url, depth: nat, reply: Reply)
      returns (sheet: Stylesheet, loaded: bool)
      requires depth <= MAX_DEPTH && key !in above && active == above + {key}
      modifies this
      ensures fresh(sheet) && active == old(active)
      ensures var (tree, end) := Receive(web, above, key, depth, reply, old(Spent()));
        Spent() == end && sheet.rules == Capped(Flatten(tree)) && (!loaded ==> !tree.Loaded?)
      decreases MAX_DEPTH + 1 - depth, 1
    {
      sheet := new Stylesheet([]);
      if reply.NoReply? {
        return sheet, false;
      }
      var final := Finally(reply, key);
      if !reply.acceptable || !web.allowed(final) {
        return sheet, true;
      }
      var fits := ConsumeBytes(|reply.body|);
      if !fits {
        return sheet, true;
      }
      if final != key {
        if final in active {
          return sheet, true;
        }
        active := active + {final};
        assert active == above + {key, final};
        sheet, loaded := LoadContent(reply.body, final, depth);
        active := active - {final};
      } else {
        assert active == above + {key, final};
        sheet, loaded := LoadContent(reply.body, final, depth);
      }
    }

    /** The body of the loop over a page's sheets. */
    method LoadSource(source: Source, base: Url, combined: Stylesheet) returns (parsed: bool)
      requires active == {}
      modifies this, combined
      ensures active == {}
      ensures var (page, after) := SourcePage(web, base, source, old(Spent()));
        && Spent() == after
        && parsed == page.Some?
        && (parsed ==>
              combined.rules
              == Appended(old(combined.rules), Capped(FlattenKids(page.value.kids) + page.value.rules)))
    {
      parsed := true;
      match source {
        case Inline(content) =>
          var fits := ConsumeBytes(|content|);
          if fits {
            var sheet;
            sheet, parsed := LoadContent(content, base, 0);
            if parsed {
              combined.Append(sheet);
            }
          }
        case Link(href) =>
          var url := web.resolve(base, href);
          if url.Some? {
            var sheet, loaded := LoadExternal(url.value, 0);
            if loaded {
              combined.Append(sheet);
            }
          }
      }
    }
  }

  lemma SourceWithin(web: Web, base: Url, source: Source, m: Meter)
    requires Within(m)
    ensures Within(SourcePage(web, base, source, m).1)
  {
    match source {
      case Inline(content) =>
        var paid := Consumed(m, |content|);
        if paid.Some? && web.parse(content, base).Parsed? {
          VisitAllMetered(web, {}, base, web.parse(content, base).imports, 0, paid.value);
        }
      case Link(href) =>
        var url := web.resolve(base, href);
        if url.Some? {
          VisitMetered(web, {}, url.value, 0, m);
        }
    }
  }

  /** How the sheets of the sources from the k-th on complete those already combined. */
  ghost predicate Completes(web: Web, base: Url, rest: seq<Source>, m: Meter, done: seq<Rule>, whole: Outcome) {
    match PageSheets(web, base, rest, m)
    case Failed => whole == Failed
    case Styled(pages, end) =>
      whole.Styled? && end == whole.end && done + FlattenAll(pages) == FlattenAll(whole.pages)
  }

  lemma CompletesNext(web: Web, base: Url, rest: seq<Source>, m: Meter, done: seq<Rule>, whole: Outcome)
    requires rest != [] && Completes(web, base, rest, m, done, whole)
    ensures var (page, after) := SourcePage(web, base, rest[0], m);
      if page.None? then
        whole == Failed
      else
        Completes(web, base, rest[1..], after, done + (FlattenKids(page.value.kids) + page.value.rules), whole)
  {
    var (page, after) := SourcePage(web, base, rest[0], m);
    if page.Some? {
      var pages := PageSheets(web, base, rest[1..], after);
      if pages.Styled? {
        assert ([page.value] + pages.pages)[1..] == pages.pages;
        assert done + (FlattenKids(page.value.kids) + page.value.rules) + FlattenAll(pages.pages)
          == done + FlattenAll([page.value] + pages.pages);
      }
    }
  }

  /** The rules of a page's sheets, inlined depth first up to the cap, each numbered by its position. */
  method LoadStyles(web: Web, base: Url, sources: seq<Source>) returns (loaded: bool, sheet: Stylesheet, spent: Meter)
    ensures Within(spent)
    ensures var outcome := PageSheets(web, base, sources, Meter(0, 0));
      && loaded == outcome.Styled?
      && (loaded ==> spent == outcome.end && sheet.rules == Capped(InlinedAll(outcome.pages)))
  {
    var state := new Loader(web);
    sheet := new Stylesheet([]);
    ghost var whole := PageSheets(web, base, sources, Meter(0, 0));
    ghost var done: seq<Rule> := [];
    assert sources[0..] == sources;
    var k := 0;
    while k < |sources|
      invariant k <= |sources| && fresh(state) && fresh(sheet) && state.web == web && state.active == {}
      invariant Within(state.Spent()) && sheet.rules == Capped(done)
      invariant Completes(web, base, sources[k..], state.Spent(), done, whole)
    {
      ghost var rest, m := sources[k..], state.Spent();
      ghost var (page, after) := SourcePage(web, base, sources[k], m);
      assert rest[0] == sources[k] && rest[1..] == sources[k + 1..];
      CompletesNext(web, base, rest, m, done, whole);
      SourceWithin(web, base, sources[k], m);
      var parsed := state.LoadSource(sources[k], base, sheet);
      if !parsed {
        return false, sheet, state.Spent();
      }
      ghost var more := FlattenKids(page.value.kids) + page.value.rules;
      AppendCapped(done, more);
      done := done + more;
      k := k + 1;
    }
    FlattenAllIsInlined(whole.pages);
    return true, sheet, state.Spent();
  }
}
