/** The routing engine: marks, sorts or rotates, explains and ranks the scores of one decision. */
module Engine {
  import opened Prelude
  import opened Ordering

  // ----- The arrangement ---------------------------------------------------------------------

  /** Only the status "down" takes a candidate out of the preferred list. */
  predicate InService(f: Facts) {
    f.health != Some(Down)
  }

  function Marked<T>(es: seq<Entry<T>>): (r: seq<Entry<T>>)
    ensures |r| == |es|
    ensures forall i :: 0 <= i < |es| ==> r[i] == es[i].(eligible := es[i].eligible && InService(es[i].facts))
  {
    seq(|es|, i requires 0 <= i < |es| => es[i].(eligible := es[i].eligible && InService(es[i].facts)))
  }

  /** The entries that are (or are not) eligible, in order. */
  function Where<T>(es: seq<Entry<T>>, eligible: bool): seq<Entry<T>> {
    if es == [] then []
    else if es[0].eligible == eligible then [es[0]] + Where(es[1..], eligible)
    else Where(es[1..], eligible)
  }

  function Rotated<T>(xs: seq<T>, offset: int): (r: seq<T>) {
    if xs == [] then [] else xs[offset % |xs|..] + xs[..offset % |xs|]
  }

  /** The order in which the engine returns marked entries. */
  function Arrange<T>(es: seq<Entry<T>>, s: Strategy, offset: int): seq<Entry<T>> {
    if s.RoundRobin? then Rotated(Where(es, true), offset) + Where(es, false) else Sort(es, s)
  }

  lemma {:induction false} WherePartitions<T>(es: seq<Entry<T>>)
    ensures multiset(Where(es, true)) + multiset(Where(es, false)) == multiset(es)
    ensures |Where(es, true)| + |Where(es, false)| == |es|
  {
    if es != [] {
      WherePartitions(es[1..]);
      assert es == [es[0]] + es[1..];
    }
  }

  lemma {:induction false} WhereKeepsMark<T>(es: seq<Entry<T>>, eligible: bool)
    ensures forall e :: e in Where(es, eligible) ==> e.eligible == eligible
  {
    if es != [] { WhereKeepsMark(es[1..], eligible); }
  }

  lemma RotatedPermutes<T>(xs: seq<T>, offset: int)
    ensures multiset(Rotated(xs, offset)) == multiset(xs) && |Rotated(xs, offset)| == |xs|
  {
    if xs != [] { assert xs == xs[..offset % |xs|] + xs[offset % |xs|..]; }
  }

  /** Ranking loses and invents nothing. */
  lemma ArrangePermutes<T>(es: seq<Entry<T>>, s: Strategy, offset: int)
    ensures multiset(Arrange(es, s, offset)) == multiset(es) && |Arrange(es, s, offset)| == |es|
  {
    SortSorts(es, s);
    WherePartitions(es);
    RotatedPermutes(Where(es, true), offset);
  }

  /** Every eligible entry precedes every other one. */
  ghost predicate EligibleFirst<T>(es: seq<Entry<T>>) {
    forall i, j :: 0 <= i < j < |es| && es[j].eligible ==> es[i].eligible
  }

  lemma TierSortsFirst<T>(d: Entry<T>, e: Entry<T>, s: Strategy)
    ensures !s.RoundRobin? && !s.Failover? && d.eligible && !e.eligible ==> Less(Key(d, s), Key(e, s))
  {
  }

  /** Except under FAILOVER every eligible candidate precedes every other one, whatever excluded the others. */
  lemma ArrangeEligibleFirst<T>(es: seq<Entry<T>>, s: Strategy, offset: int)
    requires !s.Failover?
    ensures EligibleFirst(Arrange(es, s, offset))
  {
    var r := Arrange(es, s, offset);
    if s.RoundRobin? {
      var front, back := Rotated(Where(es, true), offset), Where(es, false);
      RotatedPermutes(Where(es, true), offset);
      WhereKeepsMark(es, true);
      WhereKeepsMark(es, false);
      forall i | 0 <= i < |front| ensures front[i].eligible {
        assert front[i] in multiset(front);
      }
    } else {
      SortSorts(es, s);
      forall i, j | 0 <= i < j < |r| && r[j].eligible ensures r[i].eligible {
        TierSortsFirst(r[j], r[i], s);
      }
    }
  }

  // ----- Eligibility under FAILOVER -----------------------------------------------------------

  /** d, listed before e, sorts with it so that an eligible one of the two comes first. */
  predicate Apart<T>(d: Entry<T>, e: Entry<T>, s: Strategy) {
    && (d.eligible && !e.eligible ==> !Less(Key(e, s), Key(d, s)))
    && (!d.eligible && e.eligible ==> Less(Key(e, s), Key(d, s)))
  }

  ghost predicate Fits<T>(e: Entry<T>, es: seq<Entry<T>>, s: Strategy) {
    forall x :: x in es ==> Apart(e, x, s)
  }

  ghost predicate SomeEligible<T>(es: seq<Entry<T>>) {
    exists x :: x in es && x.eligible
  }

  lemma EligibleFirstTail<T>(e: Entry<T>, es: seq<Entry<T>>)
    requires EligibleFirst([e] + es)
    ensures EligibleFirst(es) && (e.eligible || !SomeEligible(es))
  {
    var r := [e] + es;
    forall i, j | 0 <= i < j < |es| && es[j].eligible ensures es[i].eligible {
      assert r[j + 1] == es[j] && r[i + 1] == es[i];
    }
    forall j | 0 <= j < |es| ensures es[j].eligible ==> e.eligible {
      assert r[j + 1] == es[j] && r[0] == e;
    }
  }

  lemma EligibleFirstCons<T>(e: Entry<T>, es: seq<Entry<T>>)
    ensures EligibleFirst([e] + es) <==> EligibleFirst(es) && (e.eligible || !SomeEligible(es))
  {
    if EligibleFirst([e] + es) {
      EligibleFirstTail(e, es);
    } else {
      var r := [e] + es;
      var i, j :| 0 <= i < j < |r| && r[j].eligible && !r[i].eligible;
      assert r[j] == es[j - 1] && es[j - 1] in es;
      if i > 0 { assert r[i] == es[i - 1]; }
    }
  }

  lemma FitsCons<T>(e: Entry<T>, x: Entry<T>, es: seq<Entry<T>>, s: Strategy)
    ensures Fits(e, [x] + es, s) <==> Fits(e, [x], s) && Fits(e, es, s)
  {
    assert forall y :: y in [x] + es <==> y in [x] || y in es;
  }

  lemma {:induction false} InsertEligibleFirst<T>(e: Entry<T>, sorted: seq<Entry<T>>, s: Strategy)
    requires Sorted(sorted, s)
    ensures EligibleFirst(Insert(e, sorted, s)) <==> EligibleFirst(sorted) && Fits(e, sorted, s)
    decreases |sorted|
  {
    if sorted != [] {
      var head, rest := sorted[0], sorted[1..];
      assert sorted == [head] + rest;
      HeadIsFirst(sorted, s);
      EligibleFirstCons(head, rest);
      if Less(Key(head, s), Key(e, s)) {
        InsertEligibleFirst(e, rest, s);
        EligibleFirstCons(head, Insert(e, rest, s));
        FitsCons(e, head, rest, s);
        InsertMembers(e, rest, s);
      } else {
        NoneBeforeEarlier(sorted, Key(head, s), Key(e, s), s);
        EligibleFirstCons(e, sorted);
      }
    }
  }

  lemma InsertMembers<T>(e: Entry<T>, sorted: seq<Entry<T>>, s: Strategy)
    ensures SomeEligible(Insert(e, sorted, s)) <==> e.eligible || SomeEligible(sorted)
  {
    InsertPermutes(e, sorted, s);
    assert forall x :: x in Insert(e, sorted, s) <==> x in multiset(Insert(e, sorted, s));
  }

  ghost predicate Separated<T>(es: seq<Entry<T>>, s: Strategy) {
    forall i, j :: 0 <= i < j < |es| ==> Apart(es[i], es[j], s)
  }

  lemma SeparatedCons<T>(e: Entry<T>, es: seq<Entry<T>>, s: Strategy)
    ensures Separated([e] + es, s) <==> Separated(es, s) && Fits(e, es, s)
  {
    var r := [e] + es;
    if Separated(r, s) {
      forall i, j | 0 <= i < j < |es| ensures Apart(es[i], es[j], s) {
        assert Apart(r[i + 1], r[j + 1], s);
      }
      forall j | 0 <= j < |es| ensures Apart(e, es[j], s) {
        assert Apart(r[0], r[j + 1], s);
      }
    } else {
      var i, j :| 0 <= i < j < |r| && !Apart(r[i], r[j], s);
      assert r[j] == es[j - 1] && es[j - 1] in es;
      if i > 0 { assert r[i] == es[i - 1]; }
    }
  }

  lemma FitsSorted<T>(e: Entry<T>, es: seq<Entry<T>>, s: Strategy)
    ensures Fits(e, Sort(es, s), s) <==> Fits(e, es, s)
  {
    SortSorts(es, s);
    if Fits(e, es, s) {
      forall x | x in Sort(es, s) ensures Apart(e, x, s) { assert x in multiset(Sort(es, s)); }
    }
    if Fits(e, Sort(es, s), s) {
      forall x | x in es ensures Apart(e, x, s) { assert x in multiset(es); }
    }
  }

  lemma {:induction false} SortEligibleFirstIff<T>(es: seq<Entry<T>>, s: Strategy)
    ensures EligibleFirst(Sort(es, s)) <==> Separated(es, s)
    decreases |es|
  {
    if es != [] {
      var e, rest := es[0], es[1..];
      SortEligibleFirstIff(rest, s);
      SortSorts(rest, s);
      InsertEligibleFirst(e, Sort(rest, s), s);
      FitsSorted(e, rest, s);
      SeparatedCons(e, rest, s);
      assert es == [e] + rest;
    }
  }

  /** f is ahead of g for FAILOVER: better health, then lower priority, then the smaller key. */
  predicate AheadByHealth(f: Facts, g: Facts) {
    if HealthRank(f) != HealthRank(g) then HealthRank(f) < HealthRank(g)
    else if PriorityOf(f) != PriorityOf(g) then PriorityOf(f) < PriorityOf(g)
    else NameLess(f.key, g.key)
  }

  /** Of two listed candidates that differ in eligibility, the eligible one is ahead of the other by health,
      priority and key, or, if it is listed first, at least not behind. */
  ghost predicate HealthSeparates<T>(es: seq<Entry<T>>) {
    forall i, j :: 0 <= i < j < |es| ==> HealthApart(es[i], es[j])
  }

  predicate HealthApart<T>(d: Entry<T>, e: Entry<T>) {
    && (d.eligible && !e.eligible ==> !AheadByHealth(e.facts, d.facts))
    && (!d.eligible && e.eligible ==> AheadByHealth(e.facts, d.facts))
  }

  lemma FailoverApart<T>(d: Entry<T>, e: Entry<T>)
    ensures Apart(d, e, Failover) <==> HealthApart(d, e)
  {
  }

  /** FAILOVER sorts by health and not by eligibility: the eligible candidates come first exactly if health,
      priority and key put them there. */
  lemma FailoverEligibleFirstIff<T>(es: seq<Entry<T>>, offset: int)
    ensures EligibleFirst(Arrange(es, Failover, offset)) <==> HealthSeparates(es)
  {
    SortEligibleFirstIff(es, Failover);
    forall i, j | 0 <= i < j < |es| ensures Apart(es[i], es[j], Failover) <==> HealthApart(es[i], es[j]) {
      FailoverApart(es[i], es[j]);
    }
  }

  /** Nothing but a "down" status has excluded an entry. */
  ghost predicate Fresh<T>(es: seq<Entry<T>>) {
    forall e :: e in es ==> (e.eligible <==> InService(e.facts))
  }

  /** New scores meet the condition: only "down" excludes them, and it is the worst health. */
  lemma NewScoresEligibleFirst<T>(es: seq<Entry<T>>, s: Strategy, offset: int)
    requires Fresh(es)
    ensures EligibleFirst(Arrange(es, s, offset))
  {
    if s.Failover? {
      FailoverEligibleFirstIff(es, offset);
    } else {
      ArrangeEligibleFirst(es, s, offset);
    }
  }

  /** A score that was excluded for another reason than its status stays in front of every eligible one that is not
      ahead of it by health, priority and key. */
  lemma FailoverIgnoresEligibility<T>(a: Entry<T>, b: Entry<T>, offset: int)
    requires !a.eligible && InService(a.facts) && b.eligible && InService(b.facts) && !AheadByHealth(b.facts, a.facts)
    ensures Arrange(Marked([a, b]), Failover, offset) == [a, b]
    ensures !EligibleFirst(Arrange(Marked([a, b]), Failover, offset))
  {
    assert Marked([a, b]) == [a, b];
    assert [a, b][1..] == [b] && [b][1..] == [];
    assert Sort([b], Failover) == [b];
    assert Sort([a, b], Failover) == Insert(a, [b], Failover);
    assert [a, b][0] == a && [a, b][1] == b;
  }

  // ----- Round robin ----------------------------------------------------------------------------

  /** At offset o, the i-th of n eligible candidates sits at position (i - o) mod n. */
  lemma RotationPosition<T>(xs: seq<T>, offset: int, i: nat)
    requires i < |xs|
    ensures Rotated(xs, offset)[(i - offset) % |xs|] == xs[i]
  {
    var n := |xs|;
    var p := offset % n;
    if i >= p {
      ModIs(i - offset, n, i - p, -(offset / n));
    } else {
      ModIs(i - offset, n, i - p + n, -(offset / n) - 1);
    }
  }

  /** The positions candidate i still has to move up at offset o. */
  function Wait(i: int, o: int, n: int): (d: nat)
    requires n > 0
    ensures d < n
  {
    (i - o) % n
  }

  lemma FrontOfRotation<T>(xs: seq<T>, offset: int, i: nat)
    requires i < |xs| && Distinct(xs)
    ensures Rotated(xs, offset)[0] == xs[i] <==> Wait(i, offset, |xs|) == 0
  {
    var n := |xs|;
    assert Rotated(xs, offset)[0] == xs[offset % n];
    RotationPosition(xs, offset, i);
    if i == offset % n { ModIs(i - offset, n, 0, -(offset / n)); }
  }

  /** From one offset to the next, the candidate comes one position closer to its turn. */
  lemma NextTurn(i: int, o: int, n: int)
    requires n > 0
    ensures Wait(i, o + 1, n) == if Wait(i, o, n) == 0 then n - 1 else Wait(i, o, n) - 1
  {
    var r, q := (i - o) % n, (i - o) / n;
    if r == 0 { ModIs(i - (o + 1), n, n - 1, q - 1); } else { ModIs(i - (o + 1), n, r - 1, q); }
  }

  /** How many of the m consecutive offsets from o have a property. */
  ghost function Count(turn: int -> bool, o: int, m: nat): nat
    decreases m
  {
    if m == 0 then 0 else (if turn(o) then 1 else 0) + Count(turn, o + 1, m - 1)
  }

  /** x is tried first. */
  predicate Leads<T(==)>(x: T, xs: seq<T>) {
    xs != [] && xs[0] == x
  }

  lemma {:induction false} MultipleGrows(n: nat, a: nat, b: nat)
    requires a < b
    ensures Multiple(a, n) + n <= Multiple(b, n)
  {
    if a < b - 1 { MultipleGrows(n, a, b - 1); }
  }

  lemma AccountStep(n: nat, turn: bool, later: nat, m: nat, end: nat, wait: nat, next: nat)
    requires Multiple(later, n) == m + end - next
    requires turn <==> wait == 0
    requires next == if wait == 0 then n - 1 else wait - 1
    ensures Multiple((if turn then 1 else 0) + later, n) == m + 1 + end - wait
  {
  }

  ghost predicate CountsDownAt(turn: int -> bool, wait: int -> nat, n: nat, o: int) {
    && wait(o) < n
    && (turn(o) <==> wait(o) == 0)
    && wait(o + 1) == if wait(o) == 0 then n - 1 else wait(o) - 1
  }

  /** It is the candidate's turn whenever wait has counted down to 0. */
  ghost predicate CountsDown(turn: int -> bool, wait: int -> nat, n: nat) {
    forall o: int :: CountsDownAt(turn, wait, n, o)
  }

  lemma {:induction false} TurnsAccount(turn: int -> bool, wait: int -> nat, n: nat, o: int, m: nat)
    requires CountsDown(turn, wait, n)
    ensures Multiple(Count(turn, o, m), n) == m + wait(o + m) - wait(o)
    decreases m
  {
    if m > 0 {
      assert CountsDownAt(turn, wait, n, o);
      TurnsAccount(turn, wait, n, o + 1, m - 1);
      assert o + 1 + (m - 1) == o + m;
      AccountStep(n, turn(o), Count(turn, o + 1, m - 1), m - 1, wait(o + m), wait(o), wait(o + 1));
    }
  }

  lemma TurnsBetween(n: nat, k: nat, m: nat, q: nat, c: nat)
    requires n > 0 && m < Multiple(k, n) + n && Multiple(k, n) < m + n
    requires n * q <= m <= n * c
    ensures q <= k <= c
  {
    MultipleIsProduct(q, n);
    MultipleIsProduct(c, n);
    if k < q { MultipleGrows(n, k, q); }
    if c < k { MultipleGrows(n, c, k); }
  }

  lemma Quotients(m: nat, n: nat)
    requires n > 0
    ensures 0 <= m / n && n * (m / n) <= m
    ensures 0 <= (m + n - 1) / n && m <= n * ((m + n - 1) / n)
  {
  }

  function WaitOf(i: int, n: int): int -> nat
    requires n > 0
  {
    t => Wait(i, t, n)
  }

  ghost predicate FrontsAt<T>(xs: seq<T>, i: nat, turn: int -> bool, t: int)
    requires i < |xs|
  {
    turn(t) <==> Rotated(xs, t)[0] == xs[i]
  }

  /** turn says at which offsets element i is in front. */
  ghost predicate Fronts<T>(xs: seq<T>, i: nat, turn: int -> bool)
    requires i < |xs|
  {
    forall t: int :: FrontsAt(xs, i, turn, t)
  }

  lemma WaitCountsDown<T>(xs: seq<T>, i: nat, turn: int -> bool)
    requires i < |xs| && Distinct(xs) && Fronts(xs, i, turn)
    ensures CountsDown(turn, WaitOf(i, |xs|), |xs|)
  {
    forall t: int ensures CountsDownAt(turn, WaitOf(i, |xs|), |xs|, t) {
      assert FrontsAt(xs, i, turn, t);
      FrontOfRotation(xs, t, i);
      NextTurn(i, t, |xs|);
    }
  }

  /** floor(m/n) or ceil(m/n). */
  predicate FairShare(count: nat, m: nat, n: nat) {
    n > 0 && m / n <= count <= (m + n - 1) / n
  }

  lemma CountIsFair(turn: int -> bool, wait: int -> nat, n: nat, o: int, m: nat)
    requires n > 0 && CountsDown(turn, wait, n)
    ensures FairShare(Count(turn, o, m), m, n)
  {
    TurnsAccount(turn, wait, n, o, m);
    assert CountsDownAt(turn, wait, n, o) && CountsDownAt(turn, wait, n, o + m);
    Quotients(m, n);
    TurnsBetween(n, Count(turn, o, m), m, m / n, (m + n - 1) / n);
  }

  lemma RotationIsFair<T>(xs: seq<T>, i: nat, turn: int -> bool, o: int, m: nat)
    requires i < |xs| && Distinct(xs) && Fronts(xs, i, turn)
    ensures FairShare(Count(turn, o, m), m, |xs|)
  {
    WaitCountsDown(xs, i, turn);
    CountIsFair(turn, WaitOf(i, |xs|), |xs|, o, m);
  }

  lemma {:induction false} WhereMembers<T>(es: seq<Entry<T>>, eligible: bool)
    ensures forall e :: e in Where(es, eligible) <==> e in es && e.eligible == eligible
    ensures Distinct(es) ==> Distinct(Where(es, eligible))
  {
    if es != [] {
      WhereMembers(es[1..], eligible);
      assert forall e :: e in es <==> e == es[0] || e in es[1..];
      if Distinct(es) { assert es[0] !in es[1..]; }
    }
  }

  /** Whether e is put first at an offset. */
  ghost function TurnOf<T>(es: seq<Entry<T>>, e: Entry<T>): int -> bool {
    t => Leads(e, Arrange(es, RoundRobin, t))
  }

  lemma FrontIsFirst<T>(es: seq<Entry<T>>, t: int)
    requires Where(es, true) != []
    ensures Arrange(es, RoundRobin, t) != [] && Arrange(es, RoundRobin, t)[0] == Rotated(Where(es, true), t)[0]
    ensures Arrange(es, RoundRobin, t)[0].eligible
  {
    var front := Where(es, true);
    WhereKeepsMark(es, true);
    assert Rotated(front, t)[0] == front[t % |front|];
  }

  lemma TurnIsFront<T>(es: seq<Entry<T>>, i: nat)
    requires i < |Where(es, true)|
    ensures Fronts(Where(es, true), i, TurnOf(es, Where(es, true)[i]))
  {
    var front := Where(es, true);
    forall t: int ensures FrontsAt(front, i, TurnOf(es, front[i]), t) {
      FrontIsFirst(es, t);
    }
  }

  lemma EligibleIsListed<T>(es: seq<Entry<T>>, e: Entry<T>) returns (i: nat)
    requires Distinct(es) && e in es && e.eligible
    ensures i < |Where(es, true)| && Where(es, true)[i] == e && Distinct(Where(es, true))
  {
    WhereMembers(es, true);
    i :| i < |Where(es, true)| && Where(es, true)[i] == e;
  }

  /** Over m consecutive offsets the engine puts each of n eligible entries first floor(m/n) or ceil(m/n) times. */
  lemma RoundRobinIsFair<T>(es: seq<Entry<T>>, e: Entry<T>, o: int, m: nat)
    requires Distinct(es) && e in es && e.eligible
    ensures FairShare(Count(TurnOf(es, e), o, m), m, |Where(es, true)|)
  {
    var i := EligibleIsListed(es, e);
    TurnIsFront(es, i);
    RotationIsFair(Where(es, true), i, TurnOf(es, e), o, m);
  }

  /** And no other entry, if there is an eligible one. */
  lemma OnlyEligibleTurns<T>(es: seq<Entry<T>>, e: Entry<T>, o: int, m: nat)
    requires Where(es, true) != [] && !e.eligible
    ensures Count(TurnOf(es, e), o, m) == 0
  {
    forall t: int ensures !TurnOf(es, e)(t) {
      FrontIsFirst(es, t);
    }
    NeverCounts(TurnOf(es, e), o, m);
  }

  lemma {:induction false} NeverCounts(turn: int -> bool, o: int, m: nat)
    requires forall t: int :: !turn(t)
    ensures Count(turn, o, m) == 0
    decreases m
  {
    if m > 0 { NeverCounts(turn, o + 1, m - 1); }
  }

  // ----- The items ride along ------------------------------------------------------------------

  lemma {:induction false} RelabelWhere<T,U>(es: seq<Entry<T>>, eligible: bool, byKey: map<string, U>)
    requires KeysIn(es, byKey)
    ensures KeysIn(Where(es, eligible), byKey)
    ensures Relabel(Where(es, eligible), byKey) == Where(Relabel(es, byKey), eligible)
    decreases |es|
  {
    if es != [] {
      RelabelWhere(es[1..], eligible, byKey);
      assert Relabel(es, byKey)[1..] == Relabel(es[1..], byKey);
    }
  }

  lemma RelabelSwapped<T,U>(es: seq<Entry<T>>, p: nat, byKey: map<string, U>)
    requires KeysIn(es, byKey) && p <= |es|
    ensures KeysIn(es[p..] + es[..p], byKey)
    ensures Relabel(es[p..] + es[..p], byKey) == Relabel(es, byKey)[p..] + Relabel(es, byKey)[..p]
  {
  }

  lemma RelabelRotated<T,U>(es: seq<Entry<T>>, offset: int, byKey: map<string, U>)
    requires KeysIn(es, byKey)
    ensures KeysIn(Rotated(es, offset), byKey)
    ensures Relabel(Rotated(es, offset), byKey) == Rotated(Relabel(es, byKey), offset)
  {
    if es != [] { RelabelSwapped(es, offset % |es|, byKey); }
  }

  lemma RelabelConcat<T,U>(a: seq<Entry<T>>, b: seq<Entry<T>>, byKey: map<string, U>)
    requires KeysIn(a, byKey) && KeysIn(b, byKey)
    ensures KeysIn(a + b, byKey) && Relabel(a + b, byKey) == Relabel(a, byKey) + Relabel(b, byKey)
  {
  }

  /** The arrangement looks at facts and eligibility only. */
  lemma RelabelArrange<T,U>(es: seq<Entry<T>>, byKey: map<string, U>, s: Strategy, offset: int)
    requires KeysIn(es, byKey)
    ensures KeysIn(Arrange(es, s, offset), byKey)
    ensures Relabel(Arrange(es, s, offset), byKey) == Arrange(Relabel(es, byKey), s, offset)
  {
    if s.RoundRobin? {
      RelabelWhere(es, true, byKey);
      RelabelWhere(es, false, byKey);
      RelabelRotated(Where(es, true), offset, byKey);
      RelabelConcat(Rotated(Where(es, true), offset), Where(es, false), byKey);
    } else {
      RelabelSort(es, byKey, s);
    }
  }

  // ----- Ranks and the decided order -------------------------------------------------------------

  /** Eligible entries that come first stand at positions 0..k-1. */
  lemma {:induction false} EligiblePrefix<T>(es: seq<Entry<T>>)
    requires EligibleFirst(es)
    ensures |Where(es, true)| <= |es|
    ensures forall i :: 0 <= i < |es| ==> (es[i].eligible <==> i < |Where(es, true)|)
    ensures Where(es, true) == es[..|Where(es, true)|] && Where(es, false) == es[|Where(es, true)|..]
  {
    if es != [] {
      EligiblePrefix(es[1..]);
      if !es[0].eligible {
        NoneEligible(es);
        NoneEligible(es[1..]);
      }
    }
  }

  lemma {:induction false} NoneEligible<T>(es: seq<Entry<T>>)
    requires forall e :: e in es ==> !e.eligible
    ensures Where(es, true) == [] && Where(es, false) == es
  {
    if es != [] { NoneEligible(es[1..]); }
  }

  // ----- Scores ------------------------------------------------------------------------------

  datatype Reason =
    | ProviderPriority(priority: real) | WeightIs(weight: real) | HealthIs(health: Health)
    | NoLatencySample | ObservedLatency(latency: int) | NoPriceData | BlendedPrice(price: real)
    | ExcludedHealthDown | RoundRobinOffset(offset: int) | RoundRobinTurn

  class CandidateScore {
    const facts: Facts
    var rank: nat
    var eligible: bool
    var reasons: seq<Reason>

    constructor (facts: Facts)
      ensures this.facts == facts && rank == 0 && eligible && reasons == []
    {
      this.facts := facts;
      rank, eligible, reasons := 0, true, [];
    }
  }

  function Snapshot(cs: seq<CandidateScore>): (es: seq<Entry<CandidateScore>>)
    reads cs`eligible
    ensures |es| == |cs|
    ensures forall i :: 0 <= i < |cs| ==> es[i] == Entry(cs[i].facts, cs[i].eligible, cs[i])
  {
    if cs == [] then [] else [Entry(cs[0].facts, cs[0].eligible, cs[0])] + Snapshot(cs[1..])
  }

  function Items<T>(es: seq<Entry<T>>): (r: seq<T>)
    ensures |r| == |es| && forall i :: 0 <= i < |es| ==> r[i] == es[i].item
  {
    seq(|es|, i requires 0 <= i < |es| => es[i].item)
  }

  /** The observations attached to one score. */
  function Explanation(f: Facts, eligible: bool, health: bool, latency: bool, price: bool): seq<Reason> {
    (if health then [HealthIs(f.health.Or(Unknown))] else [])
    + (if !latency then [] else if f.latency.None? then [NoLatencySample] else [ObservedLatency(f.latency.value)])
    + (if !price then [] else if f.price.None? then [NoPriceData] else [BlendedPrice(f.price.value)])
    + (if eligible then [] else [ExcludedHealthDown])
  }

  /** What the score at a position of the arrangement is told. */
  function ReasonsFor(f: Facts, eligible: bool, s: Strategy, offset: int, position: nat): seq<Reason> {
    match s
    case CostAware => Explanation(f, eligible, false, false, true)
    case LatencyAware => Explanation(f, eligible, false, true, false)
    case Weighted => [WeightIs(WeightOf(f))] + Explanation(f, eligible, true, false, false)
    case Failover => Explanation(f, eligible, true, true, true)
    case RoundRobin =>
      if !eligible then [] else [RoundRobinOffset(offset)] + (if position == 0 then [RoundRobinTurn] else [])
    case Priority => [ProviderPriority(PriorityOf(f))]
  }

  datatype Note = StrategyIs(s: Strategy) | CandidateCount(n: nat) | EligibleCount(n: nat) | OffsetIs(offset: int)

  function Notes<T>(s: Strategy, eligible: seq<T>, total: nat, offset: int): seq<Note> {
    [StrategyIs(s), CandidateCount(total), EligibleCount(|eligible|)] + if offset != 0 then [OffsetIs(offset)] else []
  }

  /** The scores that are (or are not) eligible, with their ranks. */
  function Ranked(cs: seq<CandidateScore>, eligible: bool): seq<Numbered<CandidateScore>>
    reads cs
  {
    if cs == [] then []
    else if cs[0].eligible == eligible then [Numbered(cs[0].rank, 0, cs[0])] + Ranked(cs[1..], eligible)
    else Ranked(cs[1..], eligible)
  }

  function Unnumbered<T>(xs: seq<Numbered<T>>): (r: seq<T>)
    ensures |r| == |xs| && forall i :: 0 <= i < |xs| ==> r[i] == xs[i].item
  {
    if xs == [] then [] else [xs[0].item] + Unnumbered(xs[1..])
  }

  datatype Decision = Decision(strategy: Strategy, candidates: seq<CandidateScore>, explanation: seq<Note>) {
    /** Eligible candidates by rank, then the others by rank. */
    function Ordered(): seq<CandidateScore>
      reads candidates
    {
      Unnumbered(SortNumbered(Ranked(candidates, true))) + Unnumbered(SortNumbered(Ranked(candidates, false)))
    }
  }

  ghost predicate AllMarked(cs: seq<CandidateScore>, eligible: bool)
    reads cs
  {
    forall i :: 0 <= i < |cs| ==> cs[i].eligible == eligible
  }

  lemma {:induction false} RankedAll(cs: seq<CandidateScore>, eligible: bool)
    requires AllMarked(cs, eligible)
    ensures Ranked(cs, !eligible) == [] && |Ranked(cs, eligible)| == |cs|
    ensures forall i :: 0 <= i < |cs| ==> Ranked(cs, eligible)[i] == Numbered(cs[i].rank, 0, cs[i])
  {
    if cs != [] { RankedAll(cs[1..], eligible); }
  }

  lemma {:induction false} RankedConcat(a: seq<CandidateScore>, b: seq<CandidateScore>, eligible: bool)
    ensures Ranked(a + b, eligible) == Ranked(a, eligible) + Ranked(b, eligible)
  {
    if a == [] {
      assert a + b == b;
    } else {
      RankedConcat(a[1..], b, eligible);
      assert (a + b)[0] == a[0] && (a + b)[1..] == a[1..] + b;
      Associates([Numbered(a[0].rank, 0, a[0])], Ranked(a[1..], eligible), Ranked(b, eligible));
    }
  }

  lemma UnnumberedRanks(cs: seq<CandidateScore>, eligible: bool)
    requires AllMarked(cs, eligible)
    requires forall i, j :: 0 <= i < j < |cs| ==> cs[i].rank <= cs[j].rank
    ensures Unnumbered(SortNumbered(Ranked(cs, eligible))) == cs
  {
    RankedAll(cs, eligible);
    SortNumberedStays(Ranked(cs, eligible));
  }

  /** The eligible scores stand in front and carry their positions; the others carry 0. */
  ghost predicate RanksStand(cs: seq<CandidateScore>)
    reads cs
  {
    && EligibleFirst(Snapshot(cs))
    && forall i :: 0 <= i < |cs| ==> cs[i].rank == if cs[i].eligible then i else 0
  }

  /** Reading the decision back by rank gives the candidates in the decided order. */
  lemma DecidedOrderStands(d: Decision)
    requires RanksStand(d.candidates)
    ensures d.Ordered() == d.candidates
  {
    var cs := d.candidates;
    var es := Snapshot(cs);
    var k := |Where(es, true)|;
    EligiblePrefix(es);
    var front, back := cs[..k], cs[k..];
    forall i | 0 <= i < |cs| ensures cs[i].eligible <==> i < k { assert es[i].eligible <==> i < k; }
    assert cs == front + back;
    RankedConcat(front, back, true);
    RankedConcat(front, back, false);
    RankedAll(front, true);
    RankedAll(back, false);
    UnnumberedRanks(front, true);
    UnnumberedRanks(back, false);
    assert Ranked(cs, true) == Ranked(front, true) && Ranked(cs, false) == Ranked(back, false);
  }

  method MarkEligible(cs: seq<CandidateScore>)
    modifies cs`eligible
    ensures Snapshot(cs) == Marked(old(Snapshot(cs)))
  {
    for i := 0 to |cs|
      invariant forall c :: c in cs[..i] ==> c.eligible == (old(c.eligible) && InService(c.facts))
      invariant forall c :: c in cs && c !in cs[..i] ==> c.eligible == old(c.eligible)
    {
      var c := cs[i];
      if c.facts.health.Some? && c.facts.health.value.Down? {
        c.eligible := false;
      }
      assert cs[..i + 1] == cs[..i] + [c];
    }
    assert cs[..|cs|] == cs;
  }

  ghost predicate SameMembers<T>(xs: seq<T>, ys: seq<T>) {
    |xs| == |ys| && (forall x :: x in xs ==> x in ys) && (forall y :: y in ys ==> y in xs)
  }

  lemma SnapshotOfItems(es: seq<Entry<CandidateScore>>)
    requires forall e :: e in es ==> e == Entry(e.item.facts, e.item.eligible, e.item)
    ensures Snapshot(Items(es)) == es
  {
  }

  lemma PermutedSnapshot(cs: seq<CandidateScore>, es: seq<Entry<CandidateScore>>)
    requires multiset(es) == multiset(Snapshot(cs)) && |es| == |cs|
    ensures Snapshot(Items(es)) == es
    ensures SameMembers(Items(es), cs)
  {
    forall e | e in es ensures e.item in cs && e == Entry(e.item.facts, e.item.eligible, e.item) {
      PermutedEntry(cs, es, e);
    }
    SnapshotOfItems(es);
    forall c | c in cs ensures c in Items(es) {
      PermutedItem(cs, es, c);
    }
  }

  lemma PermutedEntry(cs: seq<CandidateScore>, es: seq<Entry<CandidateScore>>, e: Entry<CandidateScore>)
    requires multiset(es) == multiset(Snapshot(cs)) && e in es
    ensures e.item in cs && e == Entry(e.item.facts, e.item.eligible, e.item)
  {
    assert e in multiset(Snapshot(cs));
  }

  lemma PermutedItem(cs: seq<CandidateScore>, es: seq<Entry<CandidateScore>>, c: CandidateScore)
    requires multiset(es) == multiset(Snapshot(cs)) && c in cs
    ensures c in Items(es)
  {
    var i :| 0 <= i < |cs| && cs[i] == c;
    assert Snapshot(cs)[i] in multiset(es);
    var j :| 0 <= j < |es| && es[j] == Snapshot(cs)[i];
    assert Items(es)[j] == c;
  }

  lemma DistinctSnapshot(cs: seq<CandidateScore>, es: seq<Entry<CandidateScore>>)
    requires Distinct(cs) && multiset(es) == multiset(Snapshot(cs))
    ensures Distinct(es)
  {
    var snapshot := Snapshot(cs);
    forall i, j | 0 <= i < j < |cs| ensures snapshot[i] != snapshot[j] {
      assert snapshot[i].item != snapshot[j].item;
    }
    PermutationKeepsDistinct(snapshot, es);
  }

  lemma DistinctItems(cs: seq<CandidateScore>)
    requires Distinct(Snapshot(cs))
    ensures Distinct(cs)
  {
    forall i, j | 0 <= i < j < |cs| ensures cs[i] != cs[j] {
      assert Snapshot(cs)[i] != Snapshot(cs)[j];
    }
  }

  /** Sorting or rotating the score objects themselves. */
  method Order(cs: seq<CandidateScore>, s: Strategy, offset: int) returns (ordered: seq<CandidateScore>)
    ensures Snapshot(ordered) == Arrange(Snapshot(cs), s, offset)
    ensures SameMembers(ordered, cs) && (Distinct(cs) ==> Distinct(ordered))
  {
    ghost var es := Arrange(Snapshot(cs), s, offset);
    ordered := Items(Arrange(Snapshot(cs), s, offset));
    ArrangePermutes(Snapshot(cs), s, offset);
    PermutedSnapshot(cs, es);
    if Distinct(cs) {
      DistinctSnapshot(cs, es);
      DistinctItems(ordered);
    }
  }

  /** What a score is told at its positions among the first n; it may be listed more than once. */
  function Told(ordered: seq<CandidateScore>, n: nat, c: CandidateScore, s: Strategy, offset: int): seq<Reason>
    requires n <= |ordered|
    reads c`eligible
  {
    if n == 0 then []
    else if ordered[n - 1] == c
    then Told(ordered, n - 1, c, s, offset) + ReasonsFor(c.facts, c.eligible, s, offset, n - 1)
    else Told(ordered, n - 1, c, s, offset)
  }

  /** The last of the first n positions at which a score is listed. */
  function LastPlace(ordered: seq<CandidateScore>, n: nat, c: CandidateScore): Option<nat>
    requires n <= |ordered|
  {
    if n == 0 then None else if ordered[n - 1] == c then Some(n - 1) else LastPlace(ordered, n - 1, c)
  }

  lemma {:induction false} ToldOnce(ordered: seq<CandidateScore>, n: nat, i: nat, s: Strategy, offset: int)
    requires Distinct(ordered) && i < |ordered| && n <= |ordered|
    ensures Told(ordered, n, ordered[i], s, offset)
         == if i < n then ReasonsFor(ordered[i].facts, ordered[i].eligible, s, offset, i) else []
    ensures LastPlace(ordered, n, ordered[i]) == if i < n then Some(i) else None
    decreases n
  {
    if n > 0 { ToldOnce(ordered, n - 1, i, s, offset); }
  }

  /** The score is told why it stands where it does, and carries its last position if it is eligible. */
  twostate predicate Noted(c: CandidateScore, new ordered: seq<CandidateScore>, s: Strategy, offset: int)
    reads c
  {
    && c.rank == (if c.eligible then LastPlace(ordered, |ordered|, c).Or(old(c.rank)) else old(c.rank))
    && c.reasons == old(c.reasons) + Told(ordered, |ordered|, c, s, offset)
  }

  twostate predicate Annotated(scores: seq<CandidateScore>, new ordered: seq<CandidateScore>, s: Strategy, offset: int)
    reads scores
  {
    forall c :: c in scores ==> Noted(c, ordered, s, offset)
  }

  method Explain(ordered: seq<CandidateScore>, s: Strategy, offset: int, ghost scores: seq<CandidateScore>)
    requires SameMembers(ordered, scores)
    modifies scores`reasons
    ensures forall c :: c in scores ==> c.reasons == old(c.reasons) + Told(ordered, |ordered|, c, s, offset)
  {
    for i := 0 to |ordered|
      invariant forall c :: c in scores ==> c.reasons == old(c.reasons) + Told(ordered, i, c, s, offset)
    {
      var c := ordered[i];
      assert c in ordered && c in scores;
      Associates(old(c.reasons), Told(ordered, i, c, s, offset), ReasonsFor(c.facts, c.eligible, s, offset, i));
      c.reasons := c.reasons + ReasonsFor(c.facts, c.eligible, s, offset, i);
    }
  }

  /** Only eligible scores are given a rank. */
  method AssignRanks(ordered: seq<CandidateScore>, ghost scores: seq<CandidateScore>)
    requires SameMembers(ordered, scores)
    modifies scores`rank
    ensures forall c :: c in scores ==>
      c.rank == if c.eligible then LastPlace(ordered, |ordered|, c).Or(old(c.rank)) else old(c.rank)
  {
    for i := 0 to |ordered|
      invariant forall c :: c in scores ==>
        c.rank == if c.eligible then LastPlace(ordered, i, c).Or(old(c.rank)) else old(c.rank)
    {
      var c := ordered[i];
      assert c in ordered && c in scores;
      if c.eligible {
        c.rank := i;
      }
    }
  }

  method Annotate(ordered: seq<CandidateScore>, s: Strategy, offset: int, ghost scores: seq<CandidateScore>)
    requires SameMembers(ordered, scores)
    modifies scores`reasons, scores`rank
    ensures Annotated(scores, ordered, s, offset)
  {
    Explain(ordered, s, offset, scores);
    AssignRanks(ordered, scores);
  }

  method MarkAndOrder(cs: seq<CandidateScore>, s: Strategy, offset: int) returns (ordered: seq<CandidateScore>)
    modifies cs`eligible
    ensures Snapshot(ordered) == Arrange(Marked(old(Snapshot(cs))), s, offset)
    ensures SameMembers(ordered, cs) && (Distinct(cs) ==> Distinct(ordered))
  {
    MarkEligible(cs);
    ordered := Order(cs, s, offset);
  }

  class RoutingEngine {
    /** Ranks the scores: each is marked, placed, told why, and numbered if it is eligible. */
    method Rank(cs: seq<CandidateScore>, s: Strategy, offset: int) returns (d: Decision)
      modifies cs
      ensures d.strategy == s
      ensures Snapshot(d.candidates) == Arrange(Marked(old(Snapshot(cs))), s, offset)
      ensures SameMembers(d.candidates, cs) && (Distinct(cs) ==> Distinct(d.candidates))
      ensures Annotated(cs, d.candidates, s, offset)
      ensures d.explanation == Notes(s, Where(Snapshot(d.candidates), true), |cs|, offset)
    {
      var ordered := MarkAndOrder(cs, s, offset);
      Annotate(ordered, s, offset, cs);
      d := Decision(s, ordered, Notes(s, Where(Snapshot(ordered), true), |cs|, offset));
    }
  }

  lemma MarkedAreFresh<T>(es: seq<Entry<T>>)
    requires forall i :: 0 <= i < |es| ==> es[i].eligible
    ensures Fresh(Marked(es))
  {
  }

  /** Arranged new scores whose ranks are their positions if they are eligible and 0 otherwise stand in order. */
  lemma NewScoresRankByPosition(before: seq<Entry<CandidateScore>>, ordered: seq<CandidateScore>,
                                s: Strategy, offset: int)
    requires forall i :: 0 <= i < |before| ==> before[i].eligible
    requires Snapshot(ordered) == Arrange(Marked(before), s, offset)
    requires forall i :: 0 <= i < |ordered| ==> ordered[i].rank == if ordered[i].eligible then i else 0
    ensures RanksStand(ordered)
  {
    MarkedAreFresh(before);
    NewScoresEligibleFirst(Marked(before), s, offset);
  }

  ghost predicate RankedIn(c: CandidateScore, ordered: seq<CandidateScore>)
    reads c
  {
    c.rank == if c.eligible then LastPlace(ordered, |ordered|, c).Or(0) else 0
  }

  lemma RanksArePositions(ordered: seq<CandidateScore>, s: Strategy, offset: int)
    requires Distinct(ordered) && forall c :: c in ordered ==> RankedIn(c, ordered)
    ensures forall i :: 0 <= i < |ordered| ==> ordered[i].rank == if ordered[i].eligible then i else 0
  {
    forall i | 0 <= i < |ordered| ensures ordered[i].rank == if ordered[i].eligible then i else 0 {
      ToldOnce(ordered, |ordered|, i, s, offset);
      assert ordered[i] in ordered;
    }
  }

  method RankUnranked(engine: RoutingEngine, scores: seq<CandidateScore>, s: Strategy, offset: int)
    returns (d: Decision)
    requires Distinct(scores) && forall c :: c in scores ==> c.rank == 0
    modifies scores
    ensures Snapshot(d.candidates) == Arrange(Marked(old(Snapshot(scores))), s, offset)
    ensures Distinct(d.candidates) && forall c :: c in d.candidates ==> RankedIn(c, d.candidates)
  {
    d := engine.Rank(scores, s, offset);
    forall c | c in scores ensures RankedIn(c, d.candidates) { assert Noted(c, d.candidates, s, offset); }
  }

  /** Ranking scores that are new. */
  method RankNew(engine: RoutingEngine, scores: seq<CandidateScore>, s: Strategy, offset: int) returns (d: Decision)
    requires Distinct(scores) && forall c :: c in scores ==> c.eligible && c.rank == 0
    modifies scores
    ensures Snapshot(d.candidates) == Arrange(Marked(old(Snapshot(scores))), s, offset)
    ensures RanksStand(d.candidates) && d.Ordered() == d.candidates
  {
    ghost var before := Snapshot(scores);
    d := RankUnranked(engine, scores, s, offset);
    RanksArePositions(d.candidates, s, offset);
    NewScoresRankByPosition(before, d.candidates, s, offset);
    DecidedOrderStands(d);
  }
}
