/** What each strategy promises about any two candidates of a decision, told by what is known about them. */
module StrategyRules {
  import opened Prelude
  import opened Ordering
  import opened Engine
  import opened Routing

  // ----- Names --------------------------------------------------------------------------------

  ghost predicate DiffersAt(a: string, b: string, k: nat) {
    k < |a| && k < |b| && a[..k] == b[..k] && a[k] < b[k]
  }

  /** Names are compared as in a dictionary. */
  lemma {:induction false} NameLessIff(a: string, b: string)
    ensures NameLess(a, b) <==> a < b || exists k: nat :: DiffersAt(a, b, k)
  {
    if a != "" && b != "" {
      NameLessIff(a[1..], b[1..]);
      assert a == [a[0]] + a[1..] && b == [b[0]] + b[1..];
      if a[0] == b[0] {
        assert a < b <==> a[1..] < b[1..];
        if k: nat :| DiffersAt(a[1..], b[1..], k) {
          assert a[..k + 1] == [a[0]] + a[1..][..k] && b[..k + 1] == [b[0]] + b[1..][..k];
          assert DiffersAt(a, b, k + 1);
        }
        if k: nat :| DiffersAt(a, b, k) {
          assert a[1..][..k - 1] == a[..k][1..] && b[1..][..k - 1] == b[..k][1..];
          assert DiffersAt(a[1..], b[1..], k - 1);
        }
      } else {
        assert a[0] < b[0] ==> DiffersAt(a, b, 0);
        forall k: nat | DiffersAt(a, b, k) ensures a[0] < b[0] {
          if k > 0 { assert a[..k][0] == b[..k][0]; }
        }
      }
    }
  }

  // ----- Two entries of a ranking -------------------------------------------------------------

  /** A missing priority counts as 100, and so does a missing weight. */
  function Number100(n: Option<int>): int {
    if n.Some? then n.value else 100
  }

  /** The first comes before the second by priority, and by name if that ties. */
  ghost predicate InPriority(f: Facts, g: Facts) {
    Number100(f.priority) < Number100(g.priority)
    || (Number100(f.priority) == Number100(g.priority) && !NameLess(g.key, f.key))
  }

  lemma SortedPair<T>(es: seq<Entry<T>>, s: Strategy, offset: int, i: nat, j: nat)
    requires !s.RoundRobin? && i < j < |Arrange(es, s, offset)|
    ensures var r := Arrange(es, s, offset); !Less(Key(r[j], s), Key(r[i], s))
  {
    SortSorts(es, s);
  }

  /** PRIORITY tries the smaller number first. */
  lemma PriorityOrder<T>(es: seq<Entry<T>>, offset: int, i: nat, j: nat)
    requires i < j < |Arrange(es, Priority, offset)|
    ensures var r := Arrange(es, Priority, offset);
            r[i].eligible == r[j].eligible ==> InPriority(r[i].facts, r[j].facts)
  {
    SortedPair(es, Priority, offset, i, j);
  }

  /** WEIGHTED tries the larger weight first; what is not eligible follows by priority. */
  lemma WeightedOrder<T>(es: seq<Entry<T>>, offset: int, i: nat, j: nat)
    requires i < j < |Arrange(es, Weighted, offset)|
    ensures var r := Arrange(es, Weighted, offset); var f, g := r[i].facts, r[j].facts;
            && (r[i].eligible && r[j].eligible ==>
                  || Number100(f.weight) > Number100(g.weight)
                  || (Number100(f.weight) == Number100(g.weight) && InPriority(f, g)))
            && (!r[i].eligible && !r[j].eligible ==> InPriority(f, g))
  {
    SortedPair(es, Weighted, offset, i, j);
  }

  /** LATENCY_AWARE tries the smaller latency first and unmeasured candidates after measured ones. */
  lemma LatencyOrder<T>(es: seq<Entry<T>>, offset: int, i: nat, j: nat)
    requires i < j < |Arrange(es, LatencyAware, offset)|
    ensures var r := Arrange(es, LatencyAware, offset); var f, g := r[i].facts, r[j].facts;
            && (r[i].eligible && r[j].eligible ==>
                  && (g.latency.Some? ==> f.latency.Some? && f.latency.value <= g.latency.value)
                  && (f.latency == g.latency ==> InPriority(f, g)))
            && (!r[i].eligible && !r[j].eligible ==> !NameLess(g.key, f.key))
  {
    SortedPair(es, LatencyAware, offset, i, j);
  }

  /** COST_AWARE tries the smaller price first and unpriced candidates after priced ones. */
  lemma CostOrder<T>(es: seq<Entry<T>>, offset: int, i: nat, j: nat)
    requires i < j < |Arrange(es, CostAware, offset)|
    ensures var r := Arrange(es, CostAware, offset); var f, g := r[i].facts, r[j].facts;
            && (r[i].eligible && r[j].eligible ==>
                  && (g.price.Some? ==> f.price.Some? && f.price.value <= g.price.value)
                  && (f.price == g.price ==> InPriority(f, g)))
            && (!r[i].eligible && !r[j].eligible ==> !NameLess(g.key, f.key))
  {
    SortedPair(es, CostAware, offset, i, j);
  }

  /** FAILOVER tries healthy candidates first, then degraded ones, those of unknown health, rate-limited ones and at
      last those that are down; between candidates of the same health, by priority. */
  lemma FailoverOrder<T>(es: seq<Entry<T>>, offset: int, i: nat, j: nat)
    requires i < j < |Arrange(es, Failover, offset)|
    ensures var r := Arrange(es, Failover, offset); var f, g := r[i].facts.health, r[j].facts.health;
            && (g == Some(Healthy) ==> f == Some(Healthy))
            && (g == Some(Degraded) ==> f == Some(Healthy) || f == Some(Degraded))
            && (g == None || g == Some(Unknown) ==> f != Some(RateLimited) && f != Some(Down))
            && (g == Some(RateLimited) ==> f != Some(Down))
            && (f == g ==> InPriority(r[i].facts, r[j].facts))
            && (f in {None, Some(Unknown)} && g in {None, Some(Unknown)} ==> InPriority(r[i].facts, r[j].facts))
  {
    SortedPair(es, Failover, offset, i, j);
  }

  // ----- Two candidates of a decision ---------------------------------------------------------

  /** The health that was observed last of a candidate's provider, if any was. */
  function Observed(c: Routing.Candidate, signals: map<nat, Signal>): Option<Health> {
    if c.provider.id in signals then Some(signals[c.provider.id].status) else None
  }

  /** What a decision knows about a candidate. */
  lemma FactsTell(c: Routing.Candidate, signals: map<nat, Signal>)
    ensures var f := FactsOf(c, signals);
            && f.key == c.Key() && f.health == Observed(c, signals)
            && f.latency == (if c.provider.id in signals then signals[c.provider.id].latency else None)
            && f.priority == Some(c.provider.priority) && f.weight == Some(c.provider.weight)
            && match c.model
               case Model(_, _, _, _, None, None) => f.price == None
               case Model(_, _, _, _, Some(p), None) => f.price == Some(p)
               case Model(_, _, _, _, None, Some(p)) => f.price == Some(p)
               case Model(_, _, _, _, Some(p), Some(q)) => f.price == Some(p + q)
    ensures Preferred(c, signals) <==> Observed(c, signals) != Some(Down)
  {
  }

  lemma DecidedEntry(cs: seq<Routing.Candidate>, signals: map<nat, Signal>, s: Strategy, offset: int, i: nat)
    requires i < |DecidedOrder(cs, signals, s, offset)|
    ensures i < |Arrange(Entries(cs, signals), s, offset)|
    ensures Arrange(Entries(cs, signals), s, offset)[i] == EntryOf(DecidedOrder(cs, signals, s, offset)[i], signals)
  {
    ArrangedEntries(cs, signals, s, offset);
  }

  /** A failover decision goes by the observed health. */
  lemma FailoverDecision(cs: seq<Routing.Candidate>, signals: map<nat, Signal>, offset: int, i: nat, j: nat)
    requires i < j < |DecidedOrder(cs, signals, Failover, offset)|
    ensures var r := DecidedOrder(cs, signals, Failover, offset);
            var f, g := Observed(r[i], signals), Observed(r[j], signals);
            && (g == Some(Healthy) ==> f == Some(Healthy))
            && (g == Some(Degraded) ==> f == Some(Healthy) || f == Some(Degraded))
            && (g == None || g == Some(Unknown) ==> f != Some(RateLimited) && f != Some(Down))
            && (g == Some(RateLimited) ==> f != Some(Down))
            && (f == g ==> r[i].provider.priority <= r[j].provider.priority)
  {
    DecidedEntry(cs, signals, Failover, offset, i);
    DecidedEntry(cs, signals, Failover, offset, j);
    FailoverOrder(Entries(cs, signals), offset, i, j);
  }

  /** The other sorted decisions put what is down last, and order the rest by their criterion. */
  lemma SortedDecision(cs: seq<Routing.Candidate>, signals: map<nat, Signal>, s: Strategy, offset: int, i: nat, j: nat)
    requires !s.Failover? && !s.RoundRobin? && i < j < |DecidedOrder(cs, signals, s, offset)|
    ensures var r := DecidedOrder(cs, signals, s, offset); var a, b := r[i], r[j];
            var f, g := FactsOf(a, signals), FactsOf(b, signals);
            && (Observed(a, signals) == Some(Down) ==> Observed(b, signals) == Some(Down))
            && (Observed(b, signals) != Some(Down) ==>
                  match s
                  case Priority => a.provider.priority <= b.provider.priority
                  case Weighted => a.provider.weight >= b.provider.weight
                  case LatencyAware => g.latency.Some? ==> f.latency.Some? && f.latency.value <= g.latency.value
                  case CostAware => g.price.Some? ==> f.price.Some? && f.price.value <= g.price.value
                  case _ => true)
  {
    DecidedEntry(cs, signals, s, offset, i);
    DecidedEntry(cs, signals, s, offset, j);
    SortedPair(Entries(cs, signals), s, offset, i, j);
  }

  // ----- What a candidate is told -------------------------------------------------------------

  /** The reasons given for a position, one strategy at a time. */
  lemma ReasonsTell(f: Facts, eligible: bool, offset: int, position: nat)
    ensures ReasonsFor(f, eligible, Priority, offset, position) == [ProviderPriority(Number100(f.priority) as real)]
    ensures var down := if eligible then [] else [ExcludedHealthDown];
            var health := HealthIs(match f.health case None => Unknown case Some(h) => h);
            var latency := match f.latency case None => NoLatencySample case Some(ms) => ObservedLatency(ms);
            var price := match f.price case None => NoPriceData case Some(p) => BlendedPrice(p);
            && ReasonsFor(f, eligible, LatencyAware, offset, position) == [latency] + down
            && ReasonsFor(f, eligible, CostAware, offset, position) == [price] + down
            && ReasonsFor(f, eligible, Weighted, offset, position)
               == [WeightIs(Number100(f.weight) as real), health] + down
            && ReasonsFor(f, eligible, Failover, offset, position) == [health, latency, price] + down
    ensures !eligible ==> ReasonsFor(f, eligible, RoundRobin, offset, position) == []
    ensures eligible && position == 0 ==>
      ReasonsFor(f, eligible, RoundRobin, offset, position) == [RoundRobinOffset(offset), RoundRobinTurn]
    ensures eligible && position > 0 ==>
      ReasonsFor(f, eligible, RoundRobin, offset, position) == [RoundRobinOffset(offset)]
  {
  }

  /** The notes of a decision: its strategy, how many candidates there were, how many of them eligible, and the
      offset unless it is zero. */
  lemma NotesTell<T>(s: Strategy, eligible: seq<T>, total: nat, offset: int)
    ensures var n := Notes(s, eligible, total, offset);
            && 3 <= |n| <= 4
            && n[0] == StrategyIs(s) && n[1] == CandidateCount(total) && n[2] == EligibleCount(|eligible|)
            && (offset == 0 ==> |n| == 3) && (offset != 0 ==> |n| == 4 && n[3] == OffsetIs(offset))
  {
  }

  // ----- Rules --------------------------------------------------------------------------------

  /** Which models a rule applies to: while it is enabled, to those it lists; with a pattern, to those whose name
      fits it; with neither, to all. */
  lemma RuleTells(rule: Rule, name: string, id: nat, glob: (string, string) -> bool)
    ensures !rule.enabled ==> !Applies(rule, name, id, glob)
    ensures rule.enabled && id in rule.targets ==> Applies(rule, name, id, glob)
    ensures rule.enabled && id !in rule.targets ==>
      match rule.pattern
      case Text(text) =>
        if text == "" then Applies(rule, name, id, glob) <==> |rule.targets| == 0
        else Applies(rule, name, id, glob) <==> glob(name, text) || name == text
      case Absent => Applies(rule, name, id, glob) <==> |rule.targets| == 0
      case NonText(truthy) => Applies(rule, name, id, glob) <==> |rule.targets| == 0 && !truthy
  {
  }

  // ----- Fair turns ---------------------------------------------------------------------------

  /** A fair share of m turns among n candidates: m/n turns, rounded down or up. */
  lemma FairShareTells(count: nat, m: nat, n: nat)
    requires FairShare(count, m, n)
    ensures n > 0 && n * count < m + n && m < n * (count + 1)
  {
    ShareIsClose(m / n, (m + n - 1) / n, count, m, n);
  }

  lemma ShareIsClose(low: int, high: int, count: int, m: int, n: int)
    requires n > 0 && low <= count <= high && m < n * (low + 1) && n * high < m + n
    ensures n * count < m + n && m < n * (count + 1)
  {
    Scaled(count, high, n);
    Scaled(low + 1, count + 1, n);
  }

  lemma Scaled(a: int, b: int, n: int)
    requires n > 0 && a <= b
    ensures n * a <= n * b
  {
  }

  // ----- Improvements -------------------------------------------------------------------------

  /** What counts as an improvement: a first or smaller latency or price, a smaller priority value, a larger weight. */
  lemma ImprovementsTell(f: Facts, latency: int, price: real, n: int)
    ensures (f.latency.Some? ==> latency <= f.latency.value) ==> NoWorse(f.(latency := Some(latency)), f)
    ensures (f.price.Some? ==> price <= f.price.value) ==> NoWorse(f.(price := Some(price)), f)
    ensures n <= Number100(f.priority) ==> NoWorse(f.(priority := Some(n)), f)
    ensures n >= Number100(f.weight) ==> NoWorse(f.(weight := Some(n)), f)
  {
  }

  /** Or better health. */
  lemma RecoveryTells(f: Facts)
    ensures NoWorse(f.(health := Some(Healthy)), f)
    ensures f.health != Some(Healthy) ==> NoWorse(f.(health := Some(Degraded)), f)
    ensures f.health in {None, Some(Unknown), Some(RateLimited), Some(Down)} ==> NoWorse(f.(health := None), f)
    ensures f.health == Some(Down) ==> NoWorse(f.(health := Some(RateLimited)), f)
  {
  }

  /** And nothing that got worse in one of these respects is one. */
  lemma SetbacksTell(f: Facts, g: Facts)
    ensures f.key != g.key ==> !NoWorse(f, g)
    ensures g.latency.Some? && (f.latency.None? || f.latency.value > g.latency.value) ==> !NoWorse(f, g)
    ensures g.price.Some? && (f.price.None? || f.price.value > g.price.value) ==> !NoWorse(f, g)
    ensures Number100(f.priority) > Number100(g.priority) || Number100(f.weight) < Number100(g.weight) ==>
      !NoWorse(f, g)
    ensures g.health == Some(Healthy) && f.health != Some(Healthy) ==> !NoWorse(f, g)
  {
  }
}
