/** Routing decisions: which rule applies, and in which order the candidates of a model are tried. */
module Routing {
  import opened Prelude
  import opened Ordering
  import opened Engine

  datatype Provider = Provider(id: nat, slug: string, enabled: bool, priority: int, weight: int)

  datatype Model = Model(id: nat, provider: nat, name: string, enabled: bool,
                         inputPrice: Option<real>, outputPrice: Option<real>)

  datatype Candidate = Candidate(provider: Provider, model: Model, credential: nat) {
    /** The identity the engine works with. */
    function Key(): string {
      provider.slug + ":" + model.name
    }
  }

  datatype Signal = Signal(status: Health, latency: Option<int>)

  // ----- Candidate keys ----------------------------------------------------------------------

  /** The catalogue: provider slugs are unique, which registering one keeps, and so is a model's name within its
      provider. */
  datatype Catalogue = Catalogue(providers: seq<Provider>, models: seq<Model>) {
    ghost predicate Valid() {
      && Distinct(Slugs(providers))
      && (forall i, j :: 0 <= i < j < |models| ==>
            models[i].provider != models[j].provider || models[i].name != models[j].name)
      && forall p, q :: p in providers && q in providers && p.id == q.id ==> p == q
    }
  }

  function Slugs(ps: seq<Provider>): (r: seq<string>)
    ensures |r| == |ps| && forall i :: 0 <= i < |ps| ==> r[i] == ps[i].slug
  {
    seq(|ps|, i requires 0 <= i < |ps| => ps[i].slug)
  }

  /** Candidates for one model name: each joins an enabled model to its enabled provider, and no model is
      listed twice. */
  ghost predicate Resolved(db: Catalogue, name: string, cs: seq<Candidate>) {
    && (forall c :: c in cs ==>
          && c.provider in db.providers && c.model in db.models && c.model.provider == c.provider.id
          && c.model.name == name && c.model.enabled && c.provider.enabled)
    && forall i, j :: 0 <= i < j < |cs| ==> cs[i].model != cs[j].model
  }

  ghost predicate DistinctCandidateKeys(cs: seq<Candidate>) {
    forall i, j :: 0 <= i < j < |cs| ==> cs[i].Key() != cs[j].Key()
  }

  lemma SlugIdentifiesProvider(db: Catalogue, p: Provider, q: Provider)
    requires db.Valid() && p in db.providers && q in db.providers && p.slug == q.slug
    ensures p == q
  {
    var i :| 0 <= i < |db.providers| && db.providers[i] == p;
    var j :| 0 <= j < |db.providers| && db.providers[j] == q;
    assert Slugs(db.providers)[i] == Slugs(db.providers)[j];
  }

  lemma NameIdentifiesModel(db: Catalogue, m: Model, n: Model)
    requires db.Valid() && m in db.models && n in db.models && m.provider == n.provider && m.name == n.name
    ensures m == n
  {
    var i :| 0 <= i < |db.models| && db.models[i] == m;
    var j :| 0 <= j < |db.models| && db.models[j] == n;
  }

  lemma SameKeySameSlug(c: Candidate, d: Candidate)
    requires c.model.name == d.model.name && c.Key() == d.Key()
    ensures c.provider.slug == d.provider.slug
  {
    var n := |c.provider.slug|;
    assert |c.Key()| == n + 1 + |c.model.name| && |d.Key()| == |d.provider.slug| + 1 + |d.model.name|;
    assert c.Key()[..n] == c.provider.slug && d.Key()[..n] == d.provider.slug;
  }

  /** Keys are injective on the candidates of one model name. */
  lemma CandidateKeysAreDistinct(db: Catalogue, name: string, cs: seq<Candidate>)
    requires db.Valid() && Resolved(db, name, cs)
    ensures DistinctCandidateKeys(cs)
  {
    forall i, j | 0 <= i < j < |cs| ensures cs[i].Key() != cs[j].Key() {
      var c, d := cs[i], cs[j];
      assert c in cs && d in cs;
      if c.Key() == d.Key() {
        SameKeySameSlug(c, d);
        SlugIdentifiesProvider(db, c.provider, d.provider);
        NameIdentifiesModel(db, c.model, d.model);
      }
    }
  }

  // ----- Rules -------------------------------------------------------------------------------

  /** The "model" entry of a rule's match conditions. */
  datatype Pattern = Absent | Text(text: string) | NonText(truthy: bool)

  datatype Rule = Rule(name: string, enabled: bool, priority: int, createdAt: int, strategy: Strategy,
                       targets: seq<nat>, pattern: Pattern, chain: seq<nat>)

  /** A rule matches by model id, by name pattern, or, when it names neither, everything. */
  predicate RuleMatches(rule: Rule, name: string, id: nat, glob: (string, string) -> bool) {
    if id in rule.targets then true
    else if rule.pattern.Text? && rule.pattern.text != ""
    then glob(name, rule.pattern.text) || rule.pattern.text == name
    else rule.targets == [] && (rule.pattern.NonText? ==> !rule.pattern.truthy)
  }

  predicate Applies(rule: Rule, name: string, id: nat, glob: (string, string) -> bool) {
    rule.enabled && RuleMatches(rule, name, id, glob)
  }

  /** No applicable rule has a smaller priority, or the same one and is older. */
  ghost predicate RuleChosen(rules: seq<Rule>, rule: Option<Rule>, name: string, id: nat,
                             glob: (string, string) -> bool)
  {
    match rule
    case None => forall r :: r in rules ==> !Applies(r, name, id, glob)
    case Some(found) =>
      && found in rules && Applies(found, name, id, glob)
      && forall r :: r in rules && Applies(r, name, id, glob) ==>
           found.priority < r.priority || (found.priority == r.priority && found.createdAt <= r.createdAt)
  }

  /** A rule with what the query orders it by. */
  function Dated(r: Rule): Numbered<Rule> {
    Numbered(r.priority, r.createdAt, r)
  }

  /** The enabled rules, in table order. */
  function Enabled(rules: seq<Rule>): seq<Numbered<Rule>> {
    if rules == [] then []
    else if rules[0].enabled
    then [Dated(rules[0])] + Enabled(rules[1..])
    else Enabled(rules[1..])
  }

  lemma {:induction false} EnabledMembers(rules: seq<Rule>, r: Rule)
    ensures r in rules && r.enabled <==> Dated(r) in Enabled(rules)
    ensures forall x :: x in Enabled(rules) ==> x == Dated(x.item)
  {
    if rules != [] {
      EnabledMembers(rules[1..], r);
      assert rules == [rules[0]] + rules[1..];
    }
  }

  lemma EnabledListed(rules: seq<Rule>, r: Rule) returns (j: nat)
    requires r in rules && r.enabled
    ensures j < |SortNumbered(Enabled(rules))| && SortNumbered(Enabled(rules))[j] == Dated(r)
  {
    EnabledMembers(rules, r);
    assert Dated(r) in multiset(SortNumbered(Enabled(rules)));
    j :| j < |SortNumbered(Enabled(rules))| && SortNumbered(Enabled(rules))[j] == Dated(r);
  }

  /** An applicable rule is found at k or later, where it does not sort before the rule at k. */
  lemma AppliesFromK(rules: seq<Rule>, k: nat, r: Rule, name: string, id: nat, glob: (string, string) -> bool)
    requires k <= |SortNumbered(Enabled(rules))| && r in rules && Applies(r, name, id, glob)
    requires forall j :: 0 <= j < k ==> !RuleMatches(SortNumbered(Enabled(rules))[j].item, name, id, glob)
    ensures k < |SortNumbered(Enabled(rules))| && !Before(Dated(r), SortNumbered(Enabled(rules))[k])
  {
    SortNumberedSorts(Enabled(rules));
    var j := EnabledListed(rules, r);
  }

  /** The first match in order of priority and age is the one that should apply. */
  lemma FirstMatchIsChosen(rules: seq<Rule>, k: nat, name: string, id: nat, glob: (string, string) -> bool)
    requires k < |SortNumbered(Enabled(rules))| && RuleMatches(SortNumbered(Enabled(rules))[k].item, name, id, glob)
    requires forall j :: 0 <= j < k ==> !RuleMatches(SortNumbered(Enabled(rules))[j].item, name, id, glob)
    ensures RuleChosen(rules, Some(SortNumbered(Enabled(rules))[k].item), name, id, glob)
  {
    var rows := SortNumbered(Enabled(rules));
    assert rows[k] in multiset(Enabled(rules));
    EnabledMembers(rules, rows[k].item);
    forall r | r in rules && Applies(r, name, id, glob) ensures !Before(Dated(r), rows[k]) {
      AppliesFromK(rules, k, r, name, id, glob);
    }
  }

  lemma NoMatchIsChosen(rules: seq<Rule>, name: string, id: nat, glob: (string, string) -> bool)
    requires forall j :: 0 <= j < |SortNumbered(Enabled(rules))| ==>
      !RuleMatches(SortNumbered(Enabled(rules))[j].item, name, id, glob)
    ensures RuleChosen(rules, None, name, id, glob)
  {
    forall r | r in rules ensures !Applies(r, name, id, glob) {
      if r.enabled {
        var j := EnabledListed(rules, r);
        assert !RuleMatches(SortNumbered(Enabled(rules))[j].item, name, id, glob);
      }
    }
  }

  /** Queries the enabled rules by priority and age, and takes the first that matches. */
  method MatchingRule(rules: seq<Rule>, name: string, id: nat, glob: (string, string) -> bool)
    returns (rule: Option<Rule>)
    ensures RuleChosen(rules, rule, name, id, glob)
  {
    var rows := SortNumbered(Enabled(rules));
    for i := 0 to |rows|
      invariant forall j :: 0 <= j < i ==> !RuleMatches(rows[j].item, name, id, glob)
    {
      if RuleMatches(rows[i].item, name, id, glob) {
        FirstMatchIsChosen(rules, i, name, id, glob);
        return Some(rows[i].item);
      }
    }
    NoMatchIsChosen(rules, name, id, glob);
    return None;
  }

  method StrategyFor(rules: seq<Rule>, name: string, id: nat, requested: Option<Strategy>,
                     glob: (string, string) -> bool)
    returns (s: Strategy, rule: Option<Rule>)
    ensures requested.Some? ==> s == requested.value && rule == None
    ensures requested.None? ==> RuleChosen(rules, rule, name, id, glob)
    ensures requested.None? ==> s == if rule.Some? then rule.value.strategy else Priority
  {
    if requested.Some? {
      return requested.value, None;
    }
    rule := MatchingRule(rules, name, id, glob);
    s := if rule.Some? then rule.value.strategy else Priority;
  }

  // ----- The decided order ---------------------------------------------------------------------

  function IndexOf(xs: seq<nat>, x: nat): (k: nat)
    requires x in xs
    ensures k < |xs| && xs[k] == x && x !in xs[..k]
  {
    if xs[0] == x then 0 else
      var k := 1 + IndexOf(xs[1..], x);
      assert xs[..k] == [xs[0]] + xs[1..][..k - 1];
      k
  }

  function ByChain(cs: seq<Candidate>, chain: seq<nat>): (r: seq<Numbered<Candidate>>)
    ensures |r| == |cs|
    ensures forall i :: 0 <= i < |cs| ==> r[i].item == cs[i]
  {
    seq(|cs|, i requires 0 <= i < |cs| =>
      if cs[i].model.id in chain then Numbered(0, IndexOf(chain, cs[i].model.id), cs[i]) else Numbered(1, 0, cs[i]))
  }

  /** Chain members first, in chain order; the others keep their order. */
  function ChainSorted(cs: seq<Candidate>, rule: Option<Rule>): seq<Candidate> {
    if rule.None? || rule.value.chain == [] then cs else Unnumbered(SortNumbered(ByChain(cs, rule.value.chain)))
  }

  lemma ChainSortPermutes(cs: seq<Candidate>, rule: Option<Rule>)
    ensures multiset(ChainSorted(cs, rule)) == multiset(cs) && |ChainSorted(cs, rule)| == |cs|
  {
    if rule.Some? && rule.value.chain != [] {
      var tagged := ByChain(cs, rule.value.chain);
      var item := (x: Numbered<Candidate>) => x.item;
      MapPermutes(item, SortNumbered(tagged), tagged);
      assert Map(item, tagged) == cs && Map(item, SortNumbered(tagged)) == ChainSorted(cs, rule);
    }
  }

  function ChainPlace(c: Candidate, chain: seq<nat>): nat {
    if c.model.id in chain then IndexOf(chain, c.model.id) else |chain|
  }

  /** The chain's candidates come first, in the order of the chain. */
  lemma ChainComesFirst(cs: seq<Candidate>, rule: Rule, i: nat, j: nat)
    requires rule.chain != [] && i < j < |ChainSorted(cs, Some(rule))|
    ensures var sorted := ChainSorted(cs, Some(rule));
            ChainPlace(sorted[i], rule.chain) <= ChainPlace(sorted[j], rule.chain)
  {
    var tagged := ByChain(cs, rule.chain);
    var sorted := SortNumbered(tagged);
    SortNumberedSorts(tagged);
    assert sorted[i] in multiset(tagged) && sorted[j] in multiset(tagged);
    ChainTag(cs, rule.chain, sorted[i]);
    ChainTag(cs, rule.chain, sorted[j]);
    assert !Before(sorted[j], sorted[i]);
  }

  lemma ChainTag(cs: seq<Candidate>, chain: seq<nat>, x: Numbered<Candidate>)
    requires x in ByChain(cs, chain)
    ensures if x.major == 0 then x.minor == ChainPlace(x.item, chain) < |chain|
            else x.major == 1 && x.minor == 0 && ChainPlace(x.item, chain) == |chain|
  {
  }

  /** Prices of 1M input and 1M output tokens together. */
  function PriceOf(m: Model): Option<real> {
    if m.inputPrice.None? && m.outputPrice.None? then None else Some(m.inputPrice.Or(0.0) + m.outputPrice.Or(0.0))
  }

  function FactsOf(c: Candidate, signals: map<nat, Signal>): Facts {
    if c.provider.id in signals
    then var signal := signals[c.provider.id];
      Facts(c.Key(), Some(signal.status), signal.latency, PriceOf(c.model),
            Some(c.provider.priority), Some(c.provider.weight))
    else Facts(c.Key(), None, None, PriceOf(c.model), Some(c.provider.priority), Some(c.provider.weight))
  }

  function EntryOf(c: Candidate, signals: map<nat, Signal>): Entry<Candidate> {
    Entry(FactsOf(c, signals), InService(FactsOf(c, signals)), c)
  }

  function Entries(cs: seq<Candidate>, signals: map<nat, Signal>): (es: seq<Entry<Candidate>>)
    ensures |es| == |cs| && forall i :: 0 <= i < |cs| ==> es[i] == EntryOf(cs[i], signals)
  {
    seq(|cs|, i requires 0 <= i < |cs| => EntryOf(cs[i], signals))
  }

  /** The candidates in the order in which they will be tried. */
  function DecidedOrder(cs: seq<Candidate>, signals: map<nat, Signal>, s: Strategy, offset: int): seq<Candidate> {
    Items(Arrange(Entries(cs, signals), s, offset))
  }

  lemma EntriesPermute(a: seq<Candidate>, b: seq<Candidate>, signals: map<nat, Signal>)
    requires multiset(a) == multiset(b)
    ensures multiset(Entries(a, signals)) == multiset(Entries(b, signals))
  {
    var entry := (c: Candidate) => EntryOf(c, signals);
    MapPermutes(entry, a, b);
    assert Map(entry, a) == Entries(a, signals) && Map(entry, b) == Entries(b, signals);
  }

  /** A decision loses no candidate and invents none. */
  lemma DecisionLosesNothing(cs: seq<Candidate>, signals: map<nat, Signal>, s: Strategy, offset: int)
    ensures multiset(DecidedOrder(cs, signals, s, offset)) == multiset(cs)
  {
    var es := Entries(cs, signals);
    ArrangePermutes(es, s, offset);
    var item := (e: Entry<Candidate>) => e.item;
    MapPermutes(item, Arrange(es, s, offset), es);
    assert Map(item, es) == cs && Map(item, Arrange(es, s, offset)) == DecidedOrder(cs, signals, s, offset);
  }

  predicate Preferred(c: Candidate, signals: map<nat, Signal>) {
    InService(FactsOf(c, signals))
  }

  lemma ArrangedEntries(cs: seq<Candidate>, signals: map<nat, Signal>, s: Strategy, offset: int)
    ensures Arrange(Entries(cs, signals), s, offset) == Entries(DecidedOrder(cs, signals, s, offset), signals)
  {
    var es := Entries(cs, signals);
    var r := Arrange(es, s, offset);
    ArrangePermutes(es, s, offset);
    forall i | 0 <= i < |r| ensures r[i] == EntryOf(r[i].item, signals) {
      assert r[i] in multiset(es);
    }
  }

  /** Candidates that are down come last, under every strategy. */
  lemma DownComesLast(cs: seq<Candidate>, signals: map<nat, Signal>, s: Strategy, offset: int, i: nat, j: nat)
    requires i < j < |DecidedOrder(cs, signals, s, offset)|
    requires Preferred(DecidedOrder(cs, signals, s, offset)[j], signals)
    ensures Preferred(DecidedOrder(cs, signals, s, offset)[i], signals)
  {
    ArrangedEntries(cs, signals, s, offset);
    NewScoresEligibleFirst(Entries(cs, signals), s, offset);
  }

  lemma EntriesIdentify(cs: seq<Candidate>, signals: map<nat, Signal>)
    requires DistinctCandidateKeys(cs)
    ensures KeysIdentify(Entries(cs, signals))
  {
    var es := Entries(cs, signals);
    forall d, e | d in es && e in es && d.facts.key == e.facts.key ensures d == e {
      var i :| 0 <= i < |es| && es[i] == d;
      var j :| 0 <= j < |es| && es[j] == e;
      assert cs[i].Key() == cs[j].Key();
    }
  }

  /** A rule's fallback chain changes nothing except under ROUND_ROBIN. */
  lemma ChainMattersOnlyUnderRoundRobin(cs: seq<Candidate>, rule: Option<Rule>, signals: map<nat, Signal>,
                                        s: Strategy, offset: int)
    requires DistinctCandidateKeys(cs) && !s.RoundRobin?
    ensures DecidedOrder(ChainSorted(cs, rule), signals, s, offset) == DecidedOrder(cs, signals, s, offset)
  {
    ChainSortPermutes(cs, rule);
    EntriesPermute(cs, ChainSorted(cs, rule), signals);
    EntriesIdentify(cs, signals);
    OrderIsCanonical(Entries(cs, signals), Entries(ChainSorted(cs, rule), signals), s);
  }

  // ----- What the chain does under ROUND_ROBIN -----------------------------------------------------

  /** The candidates that are (or are not) down, in order. */
  function Those(cs: seq<Candidate>, signals: map<nat, Signal>, preferred: bool): seq<Candidate> {
    if cs == [] then []
    else if Preferred(cs[0], signals) == preferred then [cs[0]] + Those(cs[1..], signals, preferred)
    else Those(cs[1..], signals, preferred)
  }

  lemma {:induction false} WhereEntries(cs: seq<Candidate>, signals: map<nat, Signal>, preferred: bool)
    ensures Where(Entries(cs, signals), preferred) == Entries(Those(cs, signals, preferred), signals)
  {
    if cs != [] {
      WhereEntries(cs[1..], signals, preferred);
      assert Entries(cs, signals)[1..] == Entries(cs[1..], signals);
    }
  }

  /** Preferred candidates rotate, the others follow in order. */
  lemma RoundRobinOrder(cs: seq<Candidate>, signals: map<nat, Signal>, offset: int)
    ensures DecidedOrder(cs, signals, RoundRobin, offset)
         == Rotated(Those(cs, signals, true), offset) + Those(cs, signals, false)
  {
    var front, back := Those(cs, signals, true), Those(cs, signals, false);
    WhereEntries(cs, signals, true);
    WhereEntries(cs, signals, false);
    ItemsRotated(front, signals, offset);
    ItemsConcat(Rotated(Entries(front, signals), offset), Entries(back, signals));
    assert Items(Entries(back, signals)) == back;
  }

  /** Whether candidate c is tried first at an offset. */
  ghost function FirstAt(cs: seq<Candidate>, signals: map<nat, Signal>, c: Candidate): int -> bool {
    t => Leads(c, DecidedOrder(cs, signals, RoundRobin, t))
  }

  lemma {:induction false} ThoseMembers(cs: seq<Candidate>, signals: map<nat, Signal>, preferred: bool)
    ensures forall c :: c in Those(cs, signals, preferred) <==> c in cs && Preferred(c, signals) == preferred
    ensures Distinct(cs) ==> Distinct(Those(cs, signals, preferred))
  {
    if cs != [] {
      ThoseMembers(cs[1..], signals, preferred);
      assert forall c :: c in cs <==> c == cs[0] || c in cs[1..];
      if Distinct(cs) { assert cs[0] !in cs[1..]; }
    }
  }

  /** Over m consecutive offsets, each of n preferred candidates is tried first floor(m/n) or ceil(m/n) times. */
  lemma DecisionIsFair(cs: seq<Candidate>, signals: map<nat, Signal>, c: Candidate, o: int, m: nat)
    requires DistinctCandidateKeys(cs) && c in cs && Preferred(c, signals)
    ensures FairShare(Count(FirstAt(cs, signals, c), o, m), m, |Those(cs, signals, true)|)
  {
    var front := Those(cs, signals, true);
    ThoseMembers(cs, signals, true);
    var i :| 0 <= i < |front| && front[i] == c;
    forall t: int ensures FrontsAt(front, i, FirstAt(cs, signals, c), t) {
      RoundRobinOrder(cs, signals, t);
    }
    RotationIsFair(front, i, FirstAt(cs, signals, c), o, m);
  }

  lemma ItemsConcat<T>(a: seq<Entry<T>>, b: seq<Entry<T>>)
    ensures Items(a + b) == Items(a) + Items(b)
  {
  }

  lemma ItemsRotated(cs: seq<Candidate>, signals: map<nat, Signal>, offset: int)
    ensures Items(Rotated(Entries(cs, signals), offset)) == Rotated(cs, offset)
  {
    if cs != [] { ItemsSwapped(cs, signals, offset % |cs|); }
  }

  lemma ItemsSwapped(cs: seq<Candidate>, signals: map<nat, Signal>, p: nat)
    requires p <= |cs|
    ensures Items(Entries(cs, signals)[p..] + Entries(cs, signals)[..p]) == cs[p..] + cs[..p]
  {
  }

  lemma {:induction false} PickByChain(cs: seq<Candidate>, chain: seq<nat>, signals: map<nat, Signal>, preferred: bool)
    ensures Pick(ByChain(cs, chain), c => Preferred(c, signals) == preferred)
         == ByChain(Those(cs, signals, preferred), chain)
  {
    if cs != [] {
      PickByChain(cs[1..], chain, signals, preferred);
      assert ByChain(cs, chain)[1..] == ByChain(cs[1..], chain);
    }
  }

  lemma {:induction false} PickUnnumbered(xs: seq<Numbered<Candidate>>, signals: map<nat, Signal>, preferred: bool)
    ensures Unnumbered(Pick(xs, c => Preferred(c, signals) == preferred)) == Those(Unnumbered(xs), signals, preferred)
  {
    if xs != [] {
      PickUnnumbered(xs[1..], signals, preferred);
      assert Unnumbered(xs)[1..] == Unnumbered(xs[1..]);
    }
  }

  /** The chain sorts the preferred candidates and the others each among themselves. */
  lemma ThoseChainSorted(cs: seq<Candidate>, rule: Option<Rule>, signals: map<nat, Signal>, preferred: bool)
    ensures Those(ChainSorted(cs, rule), signals, preferred) == ChainSorted(Those(cs, signals, preferred), rule)
  {
    if rule.Some? && rule.value.chain != [] {
      var tagged := ByChain(cs, rule.value.chain);
      PickUnnumbered(SortNumbered(tagged), signals, preferred);
      PickSorted(tagged, c => Preferred(c, signals) == preferred);
      PickByChain(cs, rule.value.chain, signals, preferred);
    }
  }

  /** Under ROUND_ROBIN the preferred candidates rotate in chain order and the others follow in chain order; at
      offset 0 the chain's preferred candidates are tried first. */
  lemma ChainLeadsRoundRobin(cs: seq<Candidate>, rule: Option<Rule>, signals: map<nat, Signal>, offset: int)
    ensures DecidedOrder(ChainSorted(cs, rule), signals, RoundRobin, offset)
         == Rotated(ChainSorted(Those(cs, signals, true), rule), offset) + ChainSorted(Those(cs, signals, false), rule)
    ensures DecidedOrder(ChainSorted(cs, rule), signals, RoundRobin, 0)
         == ChainSorted(Those(cs, signals, true), rule) + ChainSorted(Those(cs, signals, false), rule)
  {
    RoundRobinOrder(ChainSorted(cs, rule), signals, offset);
    RoundRobinOrder(ChainSorted(cs, rule), signals, 0);
    ThoseChainSorted(cs, rule, signals, true);
    ThoseChainSorted(cs, rule, signals, false);
    RotatedByZero(ChainSorted(Those(cs, signals, true), rule));
  }

  lemma RotatedByZero<T>(xs: seq<T>)
    ensures Rotated(xs, 0) == xs
  {
    if xs != [] { assert 0 % |xs| == 0; }
  }

  /** The candidates stand in the order of the chain already, those outside it last. */
  ghost predicate InChainOrder(cs: seq<Candidate>, chain: seq<nat>) {
    forall i, j :: 0 <= i < j < |cs| ==> ChainPlace(cs[i], chain) <= ChainPlace(cs[j], chain)
  }

  lemma ChainSortStaysIff(cs: seq<Candidate>, rule: Rule)
    requires rule.chain != []
    ensures ChainSorted(cs, Some(rule)) == cs <==> InChainOrder(cs, rule.chain)
  {
    if InChainOrder(cs, rule.chain) {
      var tagged := ByChain(cs, rule.chain);
      forall i, j | 0 <= i < j < |tagged| ensures !Before(tagged[j], tagged[i]) {
        ChainTag(cs, rule.chain, tagged[i]);
        ChainTag(cs, rule.chain, tagged[j]);
      }
      SortNumberedStays(tagged);
    } else {
      var i, j :| 0 <= i < j < |cs| && ChainPlace(cs[i], rule.chain) > ChainPlace(cs[j], rule.chain);
      ChainSortPermutes(cs, Some(rule));
      ChainComesFirst(cs, rule, i, j);
    }
  }

  lemma RotatedInjective<T>(a: seq<T>, b: seq<T>, offset: int)
    requires |a| == |b| && Rotated(a, offset) == Rotated(b, offset)
    ensures a == b
  {
    forall i | 0 <= i < |a| ensures a[i] == b[i] {
      RotationPosition(a, offset, i);
      RotationPosition(b, offset, i);
    }
  }

  lemma ConcatInjective<T>(a: seq<T>, b: seq<T>, c: seq<T>, d: seq<T>)
    requires |a| == |c| && a + b == c + d
    ensures a == c && b == d
  {
    assert (a + b)[..|a|] == a && (c + d)[..|a|] == c;
    assert (a + b)[|a|..] == b && (c + d)[|a|..] == d;
  }

  /** The chain leaves a ROUND_ROBIN decision as it is exactly if the preferred candidates and those that are down
      stand in chain order, each among themselves. */
  lemma ChainChangesRoundRobinIff(cs: seq<Candidate>, rule: Rule, signals: map<nat, Signal>, offset: int)
    requires rule.chain != []
    ensures DecidedOrder(ChainSorted(cs, Some(rule)), signals, RoundRobin, offset)
         == DecidedOrder(cs, signals, RoundRobin, offset)
       <==> InChainOrder(Those(cs, signals, true), rule.chain) && InChainOrder(Those(cs, signals, false), rule.chain)
  {
    var up, down := Those(cs, signals, true), Those(cs, signals, false);
    var up', down' := ChainSorted(up, Some(rule)), ChainSorted(down, Some(rule));
    ChainLeadsRoundRobin(cs, Some(rule), signals, offset);
    RoundRobinOrder(cs, signals, offset);
    ChainSortPermutes(up, Some(rule));
    ChainSortStaysIff(up, rule);
    ChainSortStaysIff(down, rule);
    RotatedPermutes(up, offset);
    RotatedPermutes(up', offset);
    if Rotated(up', offset) + down' == Rotated(up, offset) + down {
      ConcatInjective(Rotated(up', offset), down', Rotated(up, offset), down);
      RotatedInjective(up', up, offset);
    }
  }

  /** Of any two preferred candidates, the chain can put the second one first. */
  lemma ChainMattersUnderRoundRobin(a: Candidate, b: Candidate, rule: Rule, signals: map<nat, Signal>)
    requires Preferred(a, signals) && Preferred(b, signals) && a.model.id != b.model.id && rule.chain == [b.model.id]
    ensures DecidedOrder([a, b], signals, RoundRobin, 0) == [a, b]
    ensures DecidedOrder(ChainSorted([a, b], Some(rule)), signals, RoundRobin, 0) == [b, a]
  {
    SwappedByChain(a, b, rule);
    TwoInRotation(a, b, signals);
    TwoInRotation(b, a, signals);
  }

  lemma SwappedByChain(a: Candidate, b: Candidate, rule: Rule)
    requires rule.chain == [b.model.id] && a.model.id != b.model.id
    ensures ChainSorted([a, b], Some(rule)) == [b, a]
  {
    var x, y := Numbered(1, 0, a), Numbered(0, 0, b);
    assert ByChain([a, b], rule.chain) == [x, y];
    SortTwo(x, y);
    assert Unnumbered([y, x]) == [b, a];
  }

  lemma SortTwo<T>(x: Numbered<T>, y: Numbered<T>)
    requires Before(y, x)
    ensures SortNumbered([x, y]) == [y, x]
  {
    assert [x, y][1..] == [y] && [y][1..] == [];
    assert SortNumbered([y]) == [y];
    assert SortNumbered([x, y]) == Place(x, [y]);
  }

  lemma TwoInRotation(a: Candidate, b: Candidate, signals: map<nat, Signal>)
    requires Preferred(a, signals) && Preferred(b, signals)
    ensures DecidedOrder([a, b], signals, RoundRobin, 0) == [a, b]
  {
    RoundRobinOrder([a, b], signals, 0);
    assert [a, b][1..] == [b] && [b][1..] == [];
    assert Those([b], signals, true) == [b] && Those([b], signals, false) == [];
    assert Those([a, b], signals, true) == [a, b] && Those([a, b], signals, false) == [];
  }

  // ----- Deciding ------------------------------------------------------------------------------

  /** scores are new score objects for cs, in the same order. */
  ghost predicate ScoresOf(scores: seq<CandidateScore>, cs: seq<Candidate>, signals: map<nat, Signal>)
    reads scores
  {
    && |scores| == |cs| && Distinct(scores)
    && forall i :: 0 <= i < |cs| ==>
      scores[i].facts == FactsOf(cs[i], signals) && scores[i].eligible && scores[i].rank == 0 && scores[i].reasons == []
  }

  /** byKey finds every candidate under its key. */
  ghost predicate Indexes(byKey: map<string, Candidate>, cs: seq<Candidate>) {
    forall c :: c in cs ==> c.Key() in byKey && byKey[c.Key()] == c
  }

  method BuildScores(cs: seq<Candidate>, signals: map<nat, Signal>)
    returns (scores: seq<CandidateScore>, byKey: map<string, Candidate>)
    requires DistinctCandidateKeys(cs)
    ensures fresh(scores) && ScoresOf(scores, cs, signals) && Indexes(byKey, cs)
  {
    scores, byKey := [], map[];
    for i := 0 to |cs|
      invariant fresh(scores) && ScoresOf(scores, cs[..i], signals)
      invariant forall j :: 0 <= j < i ==> cs[j].Key() in byKey && byKey[cs[j].Key()] == cs[j]
    {
      var score := new CandidateScore(FactsOf(cs[i], signals));
      scores := scores + [score];
      byKey := byKey[cs[i].Key() := cs[i]];
    }
    assert cs[..|cs|] == cs;
  }

  lemma ScoresEnterUnmarked(scores: seq<CandidateScore>, cs: seq<Candidate>, signals: map<nat, Signal>,
                            byKey: map<string, Candidate>)
    requires ScoresOf(scores, cs, signals) && Indexes(byKey, cs)
    ensures KeysIn(Marked(Snapshot(scores)), byKey) && Relabel(Marked(Snapshot(scores)), byKey) == Entries(cs, signals)
  {
    var es := Marked(Snapshot(scores));
    forall i | 0 <= i < |cs|
      ensures es[i].facts.key in byKey
      ensures Entry(es[i].facts, es[i].eligible, byKey[es[i].facts.key]) == EntryOf(cs[i], signals)
    {
      assert cs[i] in cs;
    }
    assert KeysIn(es, byKey);
  }

  /** Each score is paired with the candidate its key stands for. */
  method JoinByKey(scores: seq<CandidateScore>, byKey: map<string, Candidate>)
    returns (ordered: seq<(Candidate, CandidateScore)>)
    requires forall c :: c in scores ==> c.facts.key in byKey
    ensures |ordered| == |scores|
    ensures forall i :: 0 <= i < |scores| ==> ordered[i] == (byKey[scores[i].facts.key], scores[i])
  {
    ordered := [];
    for i := 0 to |scores|
      invariant |ordered| == i
      invariant forall j :: 0 <= j < i ==> ordered[j] == (byKey[scores[j].facts.key], scores[j])
    {
      if scores[i].facts.key in byKey {
        ordered := ordered + [(byKey[scores[i].facts.key], scores[i])];
      }
    }
  }

  /** The decision pairs the candidates, in the decided order, with scores that say whether they are preferred. */
  ghost predicate Decided(ordered: seq<(Candidate, CandidateScore)>, order: seq<Candidate>, signals: map<nat, Signal>)
    reads set i | 0 <= i < |ordered| :: ordered[i].1
  {
    && |ordered| == |order|
    && forall i :: 0 <= i < |order| ==>
      && ordered[i].0 == order[i]
      && ordered[i].1.facts == FactsOf(order[i], signals)
      && ordered[i].1.eligible == Preferred(order[i], signals)
      && ordered[i].1.rank == if ordered[i].1.eligible then i else 0
  }

  lemma ArrangedAsDecided(scores: seq<CandidateScore>, arranged: seq<Entry<CandidateScore>>, cs: seq<Candidate>,
                          signals: map<nat, Signal>, byKey: map<string, Candidate>, s: Strategy, offset: int)
    requires KeysIn(arranged, byKey) && Relabel(arranged, byKey) == Arrange(Entries(cs, signals), s, offset)
    requires Snapshot(scores) == arranged
    ensures |scores| == |DecidedOrder(cs, signals, s, offset)|
    ensures forall i :: 0 <= i < |scores| ==>
      && scores[i].facts.key in byKey && byKey[scores[i].facts.key] == DecidedOrder(cs, signals, s, offset)[i]
      && Entry(scores[i].facts, scores[i].eligible, byKey[scores[i].facts.key])
         == EntryOf(byKey[scores[i].facts.key], signals)
  {
    var order := DecidedOrder(cs, signals, s, offset);
    ArrangedEntries(cs, signals, s, offset);
    forall i | 0 <= i < |scores|
      ensures scores[i].facts.key in byKey && byKey[scores[i].facts.key] == order[i]
      ensures Entry(scores[i].facts, scores[i].eligible, order[i]) == EntryOf(order[i], signals)
    {
      assert arranged[i] in arranged && Relabel(arranged, byKey)[i] == Entries(order, signals)[i];
    }
  }

  method RankCandidates(engine: RoutingEngine, cs: seq<Candidate>, signals: map<nat, Signal>, s: Strategy, offset: int)
    returns (ordered: seq<(Candidate, CandidateScore)>)
    requires DistinctCandidateKeys(cs)
    ensures Decided(ordered, DecidedOrder(cs, signals, s, offset), signals)
  {
    var scores, byKey := BuildScores(cs, signals);
    ghost var unranked := Marked(Snapshot(scores));
    ScoresEnterUnmarked(scores, cs, signals, byKey);
    RelabelArrange(unranked, byKey, s, offset);
    var d := RankNew(engine, scores, s, offset);
    ArrangedAsDecided(d.candidates, Arrange(unranked, s, offset), cs, signals, byKey, s, offset);
    ordered := JoinByKey(d.Ordered(), byKey);
  }

  /** A caller's list, which a decision may reorder. */
  class CandidateList {
    var items: seq<Candidate>

    constructor (items: seq<Candidate>)
      ensures this.items == items
    {
      this.items := items;
    }
  }

  /** Orders the candidates that can serve a model: rule, chain, scores, ranking, join. The chain reorders the list
      that was passed in. */
  method Decide(engine: RoutingEngine, name: string, resolved: CandidateList, rules: seq<Rule>,
                requested: Option<Strategy>, signals: map<nat, Signal>, offset: int, glob: (string, string) -> bool)
    returns (ordered: seq<(Candidate, CandidateScore)>, s: Strategy, rule: Option<Rule>)
    requires DistinctCandidateKeys(resolved.items)
    modifies resolved
    ensures var candidates := old(resolved.items);
      && (candidates == [] ==> ordered == [] && s == requested.Or(Priority) && rule == None)
      && (candidates != [] && requested.Some? ==> s == requested.value && rule == None)
      && (candidates != [] && requested.None? ==>
            && RuleChosen(rules, rule, name, candidates[0].model.id, glob)
            && s == if rule.Some? then rule.value.strategy else Priority)
    ensures resolved.items == ChainSorted(old(resolved.items), rule)
    ensures Decided(ordered, DecidedOrder(resolved.items, signals, s, offset), signals)
  {
    var candidates := resolved.items;
    if candidates == [] {
      EmptyDecision(signals, requested.Or(Priority), offset);
      return [], requested.Or(Priority), None;
    }
    s, rule := StrategyFor(rules, name, candidates[0].model.id, requested, glob);
    if rule.Some? && rule.value.chain != [] {
      resolved.items := ChainSorted(candidates, rule);
    }
    ChainSortKeepsKeysDistinct(candidates, rule);
    ordered := RankCandidates(engine, resolved.items, signals, s, offset);
  }

  lemma EmptyDecision(signals: map<nat, Signal>, s: Strategy, offset: int)
    ensures DecidedOrder([], signals, s, offset) == []
  {
    ArrangePermutes(Entries([], signals), s, offset);
  }

  lemma ChainSortKeepsKeysDistinct(cs: seq<Candidate>, rule: Option<Rule>)
    requires DistinctCandidateKeys(cs)
    ensures DistinctCandidateKeys(ChainSorted(cs, rule))
  {
    var key := (c: Candidate) => c.Key();
    var sorted := ChainSorted(cs, rule);
    ChainSortPermutes(cs, rule);
    MapPermutes(key, cs, sorted);
    var before, now := Map(key, cs), Map(key, sorted);
    PermutationKeepsDistinct(before, now);
    forall i, j | 0 <= i < j < |sorted| ensures sorted[i].Key() != sorted[j].Key() {
      assert now[i] != now[j];
    }
  }
}
