/** What administrators keep when their updates read and write in separate steps. */
module RacingUpdates {
  import opened Prelude
  import opened Text
  import opened Identity
  import opened Races

  /** Whoever could manage before can still manage; accounts are only added. */
  ghost predicate KeepsRights(s: State, t: State) {
    && |s.users| <= |t.users|
    && forall i :: 0 <= i < |s.users| ==> s.users[i].role == t.users[i].role && s.users[i].status == t.users[i].status
  }

  lemma OnlyUpdatesChangeRights(r: Race, act: Act, cfg: Config)
    requires !act.WriteUpdate?
    ensures KeepsRights(r.db, Races.Next(r, act, cfg).db)
  {
  }

  /** The update that this act writes, if it writes one. */
  function Writes(r: Race, act: Act): Option<Pending> {
    if act.WriteUpdate? && act.client in r.pending && r.pending[act.client].Updating?
       && r.pending[act.client].target < |r.db.users|
    then Some(r.pending[act.client]) else None
  }

  // ----- Somebody can manage ------------------------------------------------------------------

  /** The change could take an administrator's rights away. */
  predicate Demotes(c: Changes) {
    || (c.role.Some? && !c.role.value.Owner? && !c.role.value.Admin?)
    || (c.status.Some? && !c.status.value.Active?)
  }

  /** No demotion under way aims at the sender of another update that is under way. */
  ghost predicate Unaimed(r: Race) {
    forall c, d :: c in r.pending && d in r.pending && c != d && r.pending[d].Updating? && Demotes(r.pending[d].changes)
      ==> r.pending[d].target != r.pending[c].actor
  }

  ghost predicate AlwaysUnaimed(r: Race, acts: seq<Act>, cfg: Config)
    decreases |acts|
  {
    Unaimed(r) && (acts != [] ==> AlwaysUnaimed(Races.Next(r, acts[0], cfg), acts[1..], cfg))
  }

  /** The sender can manage, was active when read, and passed the guards if the update is about the sender. */
  ghost predicate Rightful(s: State, p: Pending) {
    && Authorized(s, p.actor)
    && match p
       case Acting(_, row) => row.status.Active?
       case Updating(actor, target, seen, c) =>
         && target < |s.users|
         && (target == actor ==> seen.status.Active? && c.role.None? && c.status != Some(Suspended))
  }

  ghost predicate Backed(r: Race) {
    forall c :: c in r.pending ==> Rightful(r.db, r.pending[c])
  }

  lemma RightfulStays(s: State, t: State, p: Pending)
    requires Rightful(s, p) && |s.users| <= |t.users| && t.users[p.actor].Manages()
    ensures Rightful(t, p)
  {
  }

  /** A read records a rightful update or ends it. */
  lemma ReadIsRightful(r: Race, act: Act, cfg: Config)
    requires Backed(r) && (act.ReadActor? || act.ReadTarget?)
    ensures var t := Races.Next(r, act, cfg);
            && t.db == r.db && (act.client in t.pending ==> Rightful(r.db, t.pending[act.client]))
            && forall c :: c in t.pending && c != act.client ==> c in r.pending && t.pending[c] == r.pending[c]
  {
    if act.client in r.pending { assert Rightful(r.db, r.pending[act.client]); }
  }

  lemma BackedByOthers(r: Race, act: Act, cfg: Config)
    requires Backed(r) && !act.WriteUpdate?
    ensures Backed(Races.Next(r, act, cfg))
  {
    var t := Races.Next(r, act, cfg);
    if act.ReadActor? || act.ReadTarget? {
      ReadIsRightful(r, act, cfg);
    } else {
      OnlyUpdatesChangeRights(r, act, cfg);
      BackedElsewhere(r, t);
    }
  }

  lemma BackedElsewhere(r: Race, t: Race)
    requires Backed(r) && KeepsRights(r.db, t.db) && t.pending == r.pending
    ensures Backed(t)
  {
    forall c | c in t.pending ensures Rightful(t.db, t.pending[c]) {
      RightfulStays(r.db, t.db, r.pending[c]);
    }
  }

  /** A write leaves rights alone, except that a demotion may take away those of its target. */
  lemma WriteKeepsRights(r: Race, act: Act, i: nat, cfg: Config)
    requires Writes(r, act).Some? && i < |r.db.users| && r.db.users[i].Manages()
    requires i != Writes(r, act).value.target || !Demotes(Writes(r, act).value.changes)
    ensures var t := Races.Next(r, act, cfg).db; |t.users| == |r.db.users| && t.users[i].Manages()
  {
  }

  lemma BackedStep(r: Race, act: Act, cfg: Config)
    requires Backed(r) && Unaimed(r)
    ensures Backed(Races.Next(r, act, cfg))
  {
    if Writes(r, act).Some? {
      var t := Races.Next(r, act, cfg);
      forall c | c in t.pending ensures Rightful(t.db, t.pending[c]) {
        assert c != act.client && t.pending[c] == r.pending[c] && Rightful(r.db, r.pending[c]);
        WriteKeepsRights(r, act, r.pending[c].actor, cfg);
        RightfulStays(r.db, t.db, r.pending[c]);
      }
    } else if !act.WriteUpdate? {
      BackedByOthers(r, act, cfg);
    }
  }

  /** The last administrator who can manage writes the own status "invited". */
  ghost predicate LastOneLeaves(r: Race, act: Act) {
    && Writes(r, act).Some?
    && var p := Writes(r, act).value;
       && p.target == p.actor && p.changes.status == Some(Invited)
       && forall i :: 0 <= i < |r.db.users| && r.db.users[i].Manages() ==> i == p.actor
  }

  lemma SelfWrite(r: Race, act: Act, cfg: Config)
    requires Backed(r) && Writes(r, act).Some? && Writes(r, act).value.target == Writes(r, act).value.actor
    ensures var p := Writes(r, act).value; var t := Races.Next(r, act, cfg).db;
            && |t.users| == |r.db.users|
            && (t.users[p.actor].Manages() <==> p.changes.status != Some(Invited))
            && forall i :: 0 <= i < |t.users| && i != p.actor ==> t.users[i] == r.db.users[i]
  {
    assert Rightful(r.db, r.pending[act.client]);
  }

  /** Whatever overlaps, as long as every sender of an update under way can manage, the last manager is lost exactly
      by leaving. */
  lemma RacingManagerRemainsIff(r: Race, act: Act, cfg: Config)
    requires HasManager(r.db) && Backed(r)
    ensures HasManager(Races.Next(r, act, cfg).db) <==> !LastOneLeaves(r, act)
  {
    var m :| 0 <= m < |r.db.users| && r.db.users[m].Manages();
    var t := Races.Next(r, act, cfg).db;
    if Writes(r, act).None? {
      if !act.WriteUpdate? { OnlyUpdatesChangeRights(r, act, cfg); }
      assert t.users[m].Manages();
    } else {
      var p := Writes(r, act).value;
      assert Rightful(r.db, r.pending[act.client]);
      if p.target != p.actor {
        WriteKeepsRights(r, act, p.actor, cfg);
        assert t.users[p.actor].Manages();
      } else {
        SelfWrite(r, act, cfg);
        OtherOneRemains(r, act, cfg);
      }
    }
  }

  lemma OtherOneRemains(r: Race, act: Act, cfg: Config)
    requires Backed(r) && Writes(r, act).Some? && Writes(r, act).value.target == Writes(r, act).value.actor
    ensures HasManager(Races.Next(r, act, cfg).db) <==> !LastOneLeaves(r, act)
  {
    var p := Writes(r, act).value;
    var t := Races.Next(r, act, cfg).db;
    SelfWrite(r, act, cfg);
    if p.changes.status != Some(Invited) {
      assert t.users[p.actor].Manages();
    } else if !LastOneLeaves(r, act) {
      var j :| 0 <= j < |r.db.users| && r.db.users[j].Manages() && j != p.actor;
      assert t.users[j].Manages();
    }
  }

  /** Nobody can manage, and no request is under way that could change that. */
  ghost predicate Shut(r: Race) {
    LockedOut(r.db) && r.pending == map[] && r.waiting == {}
  }

  lemma ShutStep(r: Race, act: Act, cfg: Config)
    requires Shut(r)
    ensures Shut(Races.Next(r, act, cfg))
  {
    if act.Whole? { LockedOutStep(r.db, act.step, cfg); }
    if act.ReadActor? && act.actor < |r.db.users| { assert r.db.users[act.actor] in r.db.users; }
  }

  lemma {:induction false} ShutForGood(r: Race, acts: seq<Act>, cfg: Config)
    requires Shut(r)
    ensures Shut(Races.Run(r, acts, cfg))
    decreases |acts|
  {
    if acts != [] {
      ShutStep(r, acts[0], cfg);
      ShutForGood(Races.Next(r, acts[0], cfg), acts[1..], cfg);
    }
  }

  lemma NobodyElseUnderWay(r: Race, act: Act)
    requires Backed(r) && Unaimed(r) && LastOneLeaves(r, act)
    ensures forall c :: c in r.pending ==> c == act.client
  {
    forall c | c in r.pending ensures c == act.client {
      assert Rightful(r.db, r.pending[c]);
      assert r.pending[c].actor == Writes(r, act).value.target;
    }
  }

  lemma LeavingShuts(r: Race, act: Act, cfg: Config)
    requires Backed(r) && Unaimed(r) && LastOneLeaves(r, act) && r.waiting == {}
    ensures Shut(Races.Next(r, act, cfg))
  {
    var p, t := Writes(r, act).value, Races.Next(r, act, cfg);
    SelfWrite(r, act, cfg);
    forall u | u in t.db.users ensures !u.Manages() {
      var i :| 0 <= i < |t.db.users| && t.db.users[i] == u;
    }
    NobodyElseUnderWay(r, act);
  }

  ghost predicate SomebodyLeavesRacing(r: Race, acts: seq<Act>, cfg: Config)
    decreases |acts|
  {
    acts != [] && (LastOneLeaves(r, acts[0]) || SomebodyLeavesRacing(Races.Next(r, acts[0], cfg), acts[1..], cfg))
  }

  lemma {:induction false} NobodyLeavesShut(r: Race, acts: seq<Act>, cfg: Config)
    requires Shut(r)
    ensures !SomebodyLeavesRacing(r, acts, cfg)
    decreases |acts|
  {
    if acts != [] {
      ShutStep(r, acts[0], cfg);
      NobodyLeavesShut(Races.Next(r, acts[0], cfg), acts[1..], cfg);
    }
  }

  /** A run in which no demotion under way ever aims at the sender of another update ends with a manager exactly if
      the last one never left along the way. */
  lemma {:induction false} RacingManagerAtEndIff(r: Race, acts: seq<Act>, cfg: Config)
    requires HasManager(r.db) && Backed(r) && r.waiting == {} && AlwaysUnaimed(r, acts, cfg)
    ensures HasManager(Races.Run(r, acts, cfg).db) <==> !SomebodyLeavesRacing(r, acts, cfg)
    decreases |acts|
  {
    if acts != [] {
      var next := Races.Next(r, acts[0], cfg);
      RacingManagerRemainsIff(r, acts[0], cfg);
      BackedStep(r, acts[0], cfg);
      if LastOneLeaves(r, acts[0]) {
        LeavingShuts(r, acts[0], cfg);
        ShutForGood(next, acts[1..], cfg);
        ManagerOrLockedOut(Races.Run(r, acts, cfg).db);
      } else {
        RacingManagerAtEndIff(next, acts[1..], cfg);
      }
    }
  }

  lemma {:induction false} BackedLater(r: Race, before: seq<Act>, acts: seq<Act>, cfg: Config)
    requires Backed(r) && AlwaysUnaimed(r, before + acts, cfg)
    ensures Backed(Races.Run(r, before, cfg)) && AlwaysUnaimed(Races.Run(r, before, cfg), acts, cfg)
    decreases |before|
  {
    if before == [] {
      assert before + acts == acts;
    } else {
      BackedStep(r, before[0], cfg);
      assert (before + acts)[0] == before[0] && (before + acts)[1..] == before[1..] + acts;
      BackedLater(Races.Next(r, before[0], cfg), before[1..], acts, cfg);
    }
  }

  /** The same from any moment of a run from nothing at which there is a manager and no bootstrap under way. */
  lemma ManagerAtEndUnaimed(before: seq<Act>, acts: seq<Act>, cfg: Config)
    requires AlwaysUnaimed(Start(), before + acts, cfg)
    requires var r := Races.Run(Start(), before, cfg); HasManager(r.db) && r.waiting == {}
    ensures HasManager(Races.Run(Start(), before + acts, cfg).db) <==>
      !SomebodyLeavesRacing(Races.Run(Start(), before, cfg), acts, cfg)
  {
    BackedLater(Start(), before, acts, cfg);
    RunAppend(Start(), before, acts, cfg);
    RacingManagerAtEndIff(Races.Run(Start(), before, cfg), acts, cfg);
  }

  const SUSPEND := Changes(None, None, Some(Suspended))

  function Suspensions(a: nat, b: nat): seq<Act> {
    [ReadActor(1, a), ReadActor(2, b), ReadTarget(1, b, SUSPEND)]
    + [ReadTarget(2, a, SUSPEND), WriteUpdate(1), WriteUpdate(2)]
  }

  lemma RunSix(r: Race, a: Act, b: Act, c: Act, d: Act, e: Act, f: Act, cfg: Config)
    ensures Races.Run(r, [a, b, c] + [d, e, f], cfg)
         == Races.Next(Races.Next(Races.Next(Races.Next(Races.Next(Races.Next(r, a, cfg), b, cfg), c, cfg), d, cfg),
                                  e, cfg), f, cfg)
  {
    RunAppend(r, [a, b, c], [d, e, f], cfg);
    RunThree(r, a, b, c, cfg);
    RunThree(Races.Run(r, [a, b, c], cfg), d, e, f, cfg);
  }

  function Suspension(r: Race, a: nat, b: nat): Pending
    requires b < |r.db.users|
  {
    Updating(a, b, r.db.users[b], SUSPEND)
  }

  lemma BothRead(r: Race, a: nat, b: nat, cfg: Config)
    requires a != b && Authorized(r.db, a) && Authorized(r.db, b) && r.pending == map[]
    ensures Races.Next(Races.Next(Races.Next(Races.Next(r, ReadActor(1, a), cfg), ReadActor(2, b), cfg),
                                  ReadTarget(1, b, SUSPEND), cfg), ReadTarget(2, a, SUSPEND), cfg)
         == r.(pending := map[1 := Suspension(r, a, b), 2 := Suspension(r, b, a)])
  {
    var begun := Races.Next(Races.Next(r, ReadActor(1, a), cfg), ReadActor(2, b), cfg);
    assert begun == r.(pending := map[1 := Acting(a, r.db.users[a]), 2 := Acting(b, r.db.users[b])]);
    assert Races.Next(begun, ReadTarget(1, b, SUSPEND), cfg)
        == r.(pending := map[1 := Suspension(r, a, b), 2 := Acting(b, r.db.users[b])]);
  }

  lemma BothWrite(r: Race, a: nat, b: nat, cfg: Config)
    requires a != b && Authorized(r.db, a) && Authorized(r.db, b)
    requires r.pending == map[1 := Suspension(r, a, b), 2 := Suspension(r, b, a)]
    ensures var t := Races.Next(Races.Next(r, WriteUpdate(1), cfg), WriteUpdate(2), cfg);
            && t.pending == map[] && t.waiting == r.waiting && |t.db.users| == |r.db.users|
            && t.db.users[a].status.Suspended? && t.db.users[b].status.Suspended?
            && forall i :: 0 <= i < |t.db.users| && i != a && i != b ==> t.db.users[i] == r.db.users[i]
  {
    var half := Races.Next(r, WriteUpdate(1), cfg);
    assert half.pending == map[2 := Suspension(r, b, a)];
  }

  /** The only two managers suspend each other at the same time: all guards pass, nobody is left, for good. */
  lemma ManagersSuspendEachOther(r: Race, a: nat, b: nat, cfg: Config)
    requires a != b && Authorized(r.db, a) && Authorized(r.db, b) && r.pending == map[] && r.waiting == {}
    requires forall i :: 0 <= i < |r.db.users| && r.db.users[i].Manages() ==> i == a || i == b
    ensures Shut(Races.Run(r, Suspensions(a, b), cfg))
  {
    RunSix(r, ReadActor(1, a), ReadActor(2, b), ReadTarget(1, b, SUSPEND), ReadTarget(2, a, SUSPEND), WriteUpdate(1),
           WriteUpdate(2), cfg);
    BothRead(r, a, b, cfg);
    BothWrite(r.(pending := map[1 := Suspension(r, a, b), 2 := Suspension(r, b, a)]), a, b, cfg);
  }

  /** An owner, an administrator and a third account, from nothing. */
  function Hiring(password: string, third: Role): seq<Act> {
    [ReadCount(0), WriteOwner(0, "aa", None, "", 0)]
    + [Whole(CreateUser(0, "a", None, password, Admin)), Whole(CreateUser(0, "", None, password, third))]
  }

  lemma ShortAddresses()
    ensures Lower("") == "" && Lower("a") == "a" && Lower("aa") == "aa"
    ensures Normalized("") == "" && Normalized("a") == "a"
  {
    LowerA();
    LowerConcat("a", "a");
    assert "a" + "a" == "aa";
  }

  lemma Hired(password: string, third: Role, cfg: Config)
    requires cfg.bootstrapEnabled && |password| >= cfg.minLength
    ensures var t := Races.Run(Start(), Hiring(password, third), cfg);
            && |t.db.users| == 3
            && t.db.users[0].role.Owner? && t.db.users[1].role.Admin? && t.db.users[2].role == third
            && (forall i :: 0 <= i < 3 ==> t.db.users[i].status.Active?)
            && t.pending == map[] && t.waiting == {}
  {
    var acts := Hiring(password, third);
    RunAppend(Start(), acts[..2], acts[2..], cfg);
    RunTwo(Start(), acts[0], acts[1], cfg);
    var owned := Races.Next(Races.Next(Start(), acts[0], cfg), acts[1], cfg);
    RunTwo(owned, acts[2], acts[3], cfg);
    ShortAddresses();
    assert owned.db.users == [User("aa", None, cfg.hashing(""), Owner, Active, None, 0)];
    var managed := Races.Next(owned, acts[2], cfg);
    assert managed.db.users == owned.db.users + [User("a", None, cfg.hashing(password), Admin, Active, None, 0)];
  }

  /** And such a run exists, from nothing. */
  lemma LockOutByOverlapHappens(password: string, cfg: Config)
    requires cfg.bootstrapEnabled && |password| >= cfg.minLength
    ensures Shut(Races.Run(Start(), Hiring(password, Viewer) + Suspensions(0, 1), cfg))
  {
    Hired(password, Viewer, cfg);
    RunAppend(Start(), Hiring(password, Viewer), Suspensions(0, 1), cfg);
    ManagersSuspendEachOther(Races.Run(Start(), Hiring(password, Viewer), cfg), 0, 1, cfg);
  }

  // ----- Owners -------------------------------------------------------------------------------

  /** Every update under way passed the guard on the role it read. */
  ghost predicate Guarded(r: Race) {
    forall c :: c in r.pending && r.pending[c].Updating? ==>
      var Updating(_, _, seen, changes) := r.pending[c];
      changes.role.Some? && seen.role.Owner? ==> changes.role.value.Owner?
  }

  lemma {:induction false} UpdatesAreGuarded(r: Race, acts: seq<Act>, cfg: Config)
    requires Guarded(r)
    ensures Guarded(Races.Run(r, acts, cfg))
    decreases |acts|
  {
    if acts != [] { UpdatesAreGuarded(Races.Next(r, acts[0], cfg), acts[1..], cfg); }
  }

  /** In every reachable state an act takes the owner role from an account exactly if it writes another role that was
      asked for when the account was read, and it was not an owner then. */
  lemma OwnerLosesRoleIff(acts: seq<Act>, act: Act, i: nat, cfg: Config)
    ensures var r := Races.Run(Start(), acts, cfg); var p := Writes(r, act);
            IsOwner(r.db, i) && !IsOwner(Races.Next(r, act, cfg).db, i) <==>
            && IsOwner(r.db, i) && p.Some? && p.value.target == i && !p.value.seen.role.Owner?
            && p.value.changes.role.Some? && p.value.changes.role.value !in {Owner, p.value.seen.role}
  {
    var r := Races.Run(Start(), acts, cfg);
    UpdatesAreGuarded(Start(), acts, cfg);
    if !act.WriteUpdate? { OnlyUpdatesChangeRights(r, act, cfg); }
  }

  /** Two changes of role that are under way have different targets. */
  ghost predicate Apart(r: Race) {
    forall c, d :: c in r.pending && d in r.pending && c != d && ChangesRole(r.pending[c]) && ChangesRole(r.pending[d])
      ==> r.pending[c].target != r.pending[d].target
  }

  predicate ChangesRole(p: Pending) {
    p.Updating? && p.changes.role.Some?
  }

  ghost predicate AlwaysApart(r: Race, acts: seq<Act>, cfg: Config)
    decreases |acts|
  {
    Apart(r) && (acts != [] ==> AlwaysApart(Races.Next(r, acts[0], cfg), acts[1..], cfg))
  }

  /** The role that a change of role has read is still the role of its target. */
  ghost predicate Current(r: Race) {
    forall c :: c in r.pending && ChangesRole(r.pending[c]) ==>
      var p := r.pending[c];
      p.target != p.actor && p.target < |r.db.users| && r.db.users[p.target].role == p.seen.role
  }

  lemma CurrentStep(r: Race, act: Act, cfg: Config)
    requires Current(r) && Apart(r)
    ensures Current(Races.Next(r, act, cfg))
  {
    var t := Races.Next(r, act, cfg);
    if !act.WriteUpdate? { OnlyUpdatesChangeRights(r, act, cfg); }
    forall c | c in t.pending && ChangesRole(t.pending[c])
      ensures var p := t.pending[c];
              p.target != p.actor && p.target < |t.db.users| && t.db.users[p.target].role == p.seen.role
    {
      if c in r.pending && r.pending[c] == t.pending[c] { assert ChangesRole(r.pending[c]); }
    }
  }

  lemma OwnersStay(r: Race, act: Act, cfg: Config)
    requires Current(r) && Guarded(r)
    ensures var t := Races.Next(r, act, cfg).db;
            && |r.db.users| <= |t.users|
            && forall i :: 0 <= i < |r.db.users| && r.db.users[i].role.Owner? ==> t.users[i].role.Owner?
  {
    if !act.WriteUpdate? {
      OnlyUpdatesChangeRights(r, act, cfg);
    } else if Writes(r, act).Some? && ChangesRole(r.pending[act.client]) {
      assert r.db.users[r.pending[act.client].target].role == r.pending[act.client].seen.role;
    }
  }

  lemma {:induction false} OwnersOnlyGrowFrom(r: Race, acts: seq<Act>, cfg: Config)
    requires Current(r) && Guarded(r) && AlwaysApart(r, acts, cfg)
    ensures var t := Races.Run(r, acts, cfg).db;
            && |r.db.users| <= |t.users|
            && forall i :: 0 <= i < |r.db.users| && r.db.users[i].role.Owner? ==> t.users[i].role.Owner?
    decreases |acts|
  {
    if acts != [] {
      OwnersStay(r, acts[0], cfg);
      CurrentStep(r, acts[0], cfg);
      assert Guarded(Races.Next(r, acts[0], cfg));
      OwnersOnlyGrowFrom(Races.Next(r, acts[0], cfg), acts[1..], cfg);
    }
  }

  /** If no two changes of role of the same account are ever under way at once, no owner loses the role. */
  lemma OwnersOnlyGrowApart(before: seq<Act>, acts: seq<Act>, cfg: Config)
    requires AlwaysApart(Start(), before + acts, cfg)
    ensures var s := Races.Run(Start(), before, cfg).db; var t := Races.Run(Start(), before + acts, cfg).db;
            && |s.users| <= |t.users|
            && forall i :: 0 <= i < |s.users| && s.users[i].role.Owner? ==> t.users[i].role.Owner?
  {
    ApartLater(Start(), before, acts, cfg);
    RunAppend(Start(), before, acts, cfg);
    OwnersOnlyGrowFrom(Races.Run(Start(), before, cfg), acts, cfg);
  }

  lemma {:induction false} ApartLater(r: Race, before: seq<Act>, acts: seq<Act>, cfg: Config)
    requires Current(r) && Guarded(r) && AlwaysApart(r, before + acts, cfg)
    ensures var t := Races.Run(r, before, cfg); Current(t) && Guarded(t) && AlwaysApart(t, acts, cfg)
    decreases |before|
  {
    if before == [] {
      assert before + acts == acts;
    } else {
      CurrentStep(r, before[0], cfg);
      assert Guarded(Races.Next(r, before[0], cfg));
      assert (before + acts)[0] == before[0] && (before + acts)[1..] == before[1..] + acts;
      ApartLater(Races.Next(r, before[0], cfg), before[1..], acts, cfg);
    }
  }

  /** Updates that come one after another meet both conditions. */
  lemma OneAtATime(r: Race)
    requires |r.pending| <= 1
    ensures Unaimed(r) && Apart(r)
  {
    forall c, d | c in r.pending && d in r.pending ensures c == d {
      assert |r.pending.Keys - {c}| == |r.pending.Keys| - 1;
      assert r.pending.Keys - {c} == {};
      assert d in r.pending.Keys;
    }
  }

  function ToRole(role: Role): Changes {
    Changes(None, Some(role), None)
  }

  /** Owner 0 promotes account 2, which administrator 1 has read as an operator. */
  function Promotion(): seq<Act> {
    [ReadActor(1, 1), ReadTarget(1, 2, ToRole(Viewer)), ReadActor(2, 0)]
    + [ReadTarget(2, 2, ToRole(Owner)), WriteUpdate(2)]
  }

  lemma PromotionWorks(r: Race, cfg: Config)
    requires |r.db.users| == 3 && Authorized(r.db, 0) && Authorized(r.db, 1) && r.db.users[0].role.Owner?
    requires r.db.users[2].role.Operator? && r.pending == map[]
    ensures Races.Run(r, Promotion(), cfg)
         == r.(db := r.db.(users := r.db.users[2 := r.db.users[2].(role := Owner)]),
               pending := map[1 := Updating(1, 2, r.db.users[2], ToRole(Viewer))])
  {
    var users := r.db.users;
    var lowering, raising := Updating(1, 2, users[2], ToRole(Viewer)), Updating(0, 2, users[2], ToRole(Owner));
    RunAppend(r, Promotion()[..3], Promotion()[3..], cfg);
    RunThree(r, ReadActor(1, 1), ReadTarget(1, 2, ToRole(Viewer)), ReadActor(2, 0), cfg);
    var begun := Races.Next(Races.Next(r, ReadActor(1, 1), cfg), ReadTarget(1, 2, ToRole(Viewer)), cfg);
    assert begun == r.(pending := map[1 := lowering]);
    var both := Races.Next(begun, ReadActor(2, 0), cfg);
    assert both == r.(pending := map[1 := lowering, 2 := Acting(0, users[0])]);
    RunTwo(both, ReadTarget(2, 2, ToRole(Owner)), WriteUpdate(2), cfg);
    var read := Races.Next(both, ReadTarget(2, 2, ToRole(Owner)), cfg);
    assert read == r.(pending := map[1 := lowering, 2 := raising]);
    assert read.pending - {2} == map[1 := lowering];
  }

  /** When the administrator writes the role of a viewer then, which all guards let pass, the new owner loses it. */
  lemma PromotionIsOverwritten(password: string, cfg: Config)
    requires cfg.bootstrapEnabled && |password| >= cfg.minLength
    ensures var r := Races.Run(Start(), Hiring(password, Operator) + Promotion(), cfg);
            IsOwner(r.db, 2) && !IsOwner(Races.Next(r, WriteUpdate(1), cfg).db, 2)
  {
    Hired(password, Operator, cfg);
    RunAppend(Start(), Hiring(password, Operator), Promotion(), cfg);
    PromotionWorks(Races.Run(Start(), Hiring(password, Operator), cfg), cfg);
  }
}
