/** Bootstrap and refresh with reading and writing as separate steps: the account count and the stored token are
    read first, without a lock, and written later, and other requests come in between. */
module Races {
  import opened Prelude
  import opened Text
  import opened Identity

  datatype Act =
    | Whole(step: Step)                    // any other request, in one step
    | ReadCount(client: nat)               // bootstrap looks for accounts
    | WriteOwner(client: nat, email: string, name: Option<string>, password: string, now: int)
    | ReadToken(client: nat, token: Jwt, now: int)  // refresh makes all its checks
    | Rotate(client: nat, now: int)        // and then revokes the token it found and issues the next
    | ReadActor(client: nat, actor: nat)   // an update is authorized
    | ReadTarget(client: nat, target: nat, changes: Changes)  // and makes its checks
    | WriteUpdate(client: nat)             // and writes the columns that change

  /** An update between its reads and its write; the rows are as they were read. */
  datatype Pending =
    | Acting(actor: nat, row: User)
    | Updating(actor: nat, target: nat, seen: User, changes: Changes)

  /** `waiting` has seen no account, `holding` has seen a good token, `pending` are the updates under way. `created`
      and `redeemed` only record what was carried out. */
  datatype Race = Race(db: State, waiting: set<nat>, holding: map<nat, nat>, pending: map<nat, Pending>,
                       created: nat, redeemed: seq<nat>)

  /** Addresses are unique in the table. */
  predicate AddressFree(users: seq<User>, email: string) {
    forall u :: u in users ==> u.email != Lower(email)
  }

  function CountRead(r: Race, client: nat, cfg: Config): Race {
    if BootstrapRefusal(r.db, cfg).None? then r.(waiting := r.waiting + {client}) else r
  }

  function OwnerWritten(r: Race, act: Act, cfg: Config): Race
    requires act.WriteOwner?
  {
    if act.client !in r.waiting then r
    else if !AddressFree(r.db.users, act.email) then r.(waiting := r.waiting - {act.client})
    else
      var owner := User(Lower(act.email), act.name, cfg.hashing(act.password), Owner, Active, None, 0);
      r.(db := WithSession(r.db.(users := r.db.users + [owner]), |r.db.users|, act.now, cfg),
         waiting := r.waiting - {act.client}, created := r.created + 1)
  }

  function TokenRead(r: Race, client: nat, token: Jwt, now: int): Race {
    if RefreshRefusal(r.db, token, now).None? && ByHash(r.db.tokens, token).Some?
    then r.(holding := r.holding[client := ByHash(r.db.tokens, token).value])
    else r
  }

  function Rotated(r: Race, client: nat, now: int, cfg: Config): Race {
    if client !in r.holding || r.holding[client] >= |r.db.tokens| then r
    else
      var i := r.holding[client];
      r.(db := WithSession(Revoke(r.db, i, now), r.db.tokens[i].user, now, cfg),
         holding := r.holding - {client}, redeemed := r.redeemed + [i])
  }

  function TargetRead(r: Race, client: nat, target: nat, c: Changes): Race {
    if client !in r.pending || !r.pending[client].Acting? then r
    else
      var Acting(actor, row) := r.pending[client];
      // A session reads each row once.
      var seen := if target == actor then row else if target < |r.db.users| then r.db.users[target] else row;
      if target >= |r.db.users| || GuardRefusal(row.role.Owner?, target == actor, seen, c).Some?
      then r.(pending := r.pending - {client})
      else r.(pending := r.pending[client := Updating(actor, target, seen, c)])
  }

  /** A column is written if its new value is not the one that was read. */
  function Written(u: User, seen: User, c: Changes): User {
    u.(name := if c.name.Some? && c.name != seen.name then c.name else u.name,
       role := if c.role.Some? && c.role.value != seen.role then c.role.value else u.role,
       status := if c.status.Some? && c.status.value != seen.status then c.status.value else u.status)
  }

  function UpdateWritten(r: Race, client: nat): Race {
    if client !in r.pending || !r.pending[client].Updating? || r.pending[client].target >= |r.db.users| then r
    else
      var p := r.pending[client];
      r.(db := r.db.(users := r.db.users[p.target := Written(r.db.users[p.target], p.seen, p.changes)]),
         pending := r.pending - {client})
  }

  function Next(r: Race, act: Act, cfg: Config): Race {
    match act
    case Whole(step) =>
      if step.Bootstrap? || step.Refresh? || step.UpdateUser? then r else r.(db := Identity.Next(r.db, step, cfg))
    case ReadCount(client) => CountRead(r, client, cfg)
    case WriteOwner(_, _, _, _, _) => OwnerWritten(r, act, cfg)
    case ReadToken(client, token, now) => if client in r.holding then r else TokenRead(r, client, token, now)
    case Rotate(client, now) => Rotated(r, client, now, cfg)
    case ReadActor(client, actor) =>
      if client in r.pending || !Authorized(r.db, actor) then r
      else r.(pending := r.pending[client := Acting(actor, r.db.users[actor])])
    case ReadTarget(client, target, changes) => TargetRead(r, client, target, changes)
    case WriteUpdate(client) => UpdateWritten(r, client)
  }

  function Run(r: Race, acts: seq<Act>, cfg: Config): Race
    decreases |acts|
  {
    if acts == [] then r else Run(Next(r, acts[0], cfg), acts[1..], cfg)
  }

  function Start(): Race {
    Race(Nobody(), {}, map[], map[], 0, [])
  }

  // ----- Requests that nobody interrupts --------------------------------------------------------

  lemma RunThree(r: Race, a: Act, b: Act, c: Act, cfg: Config)
    ensures Run(r, [a, b, c], cfg) == Next(Next(Next(r, a, cfg), b, cfg), c, cfg)
  {
    assert [a, b, c][1..] == [b, c] && [b, c][1..] == [c] && [c][1..] == [];
    RunOne(Next(Next(r, a, cfg), b, cfg), c, cfg);
    assert Run(Next(r, a, cfg), [b, c], cfg) == Run(Next(Next(r, a, cfg), b, cfg), [c], cfg);
  }

  lemma RunOne(r: Race, a: Act, cfg: Config)
    ensures Run(r, [a], cfg) == Next(r, a, cfg)
  {
    assert [a][1..] == [];
  }

  lemma LeavePending(m: map<nat, Pending>, client: nat, p: Pending)
    requires client !in m
    ensures m[client := p] - {client} == m
  {
  }

  /** What is written over the row that was read is the atomic change. */
  lemma WrittenAtOnce(u: User, c: Changes)
    ensures Written(u, u, c) == Changed(u, c)
  {
  }

  /** An update whose steps follow one another is the atomic one. */
  lemma UninterruptedUpdate(r: Race, client: nat, actor: nat, target: nat, changes: Changes, cfg: Config)
    requires client !in r.pending
    ensures Run(r, [ReadActor(client, actor), ReadTarget(client, target, changes), WriteUpdate(client)], cfg)
         == r.(db := Identity.Next(r.db, UpdateUser(actor, target, changes), cfg))
  {
    RunThree(r, ReadActor(client, actor), ReadTarget(client, target, changes), WriteUpdate(client), cfg);
    if Authorized(r.db, actor) {
      var begun := Next(r, ReadActor(client, actor), cfg);
      var acting := Acting(actor, r.db.users[actor]);
      assert begun == r.(pending := r.pending[client := acting]);
      LeavePending(r.pending, client, acting);
      UninterruptedWrite(begun, client, actor, target, changes, cfg);
    }
  }

  lemma UninterruptedWrite(r: Race, client: nat, actor: nat, target: nat, c: Changes, cfg: Config)
    requires Authorized(r.db, actor) && client in r.pending && r.pending[client] == Acting(actor, r.db.users[actor])
    ensures UpdateWritten(TargetRead(r, client, target, c), client)
         == r.(db := Identity.Next(r.db, UpdateUser(actor, target, c), cfg), pending := r.pending - {client})
  {
    if UpdateRefusal(r.db, actor, target, c).None? {
      var updating := Updating(actor, target, r.db.users[target], c);
      assert TargetRead(r, client, target, c) == r.(pending := r.pending[client := updating]);
      assert r.pending[client := updating] - {client} == r.pending - {client};
      WrittenAtOnce(r.db.users[target], c);
    }
  }

  /** And so for a refresh. */
  lemma UninterruptedRefresh(r: Race, client: nat, token: Jwt, now: int, cfg: Config)
    requires client !in r.holding
    ensures Next(Next(r, ReadToken(client, token, now), cfg), Rotate(client, now), cfg).db
         == Identity.Next(r.db, Refresh(token, now), cfg)
  {
  }

  /** And for the bootstrap. */
  lemma UninterruptedBootstrap(r: Race, client: nat, email: string, name: Option<string>, password: string, now: int,
                               cfg: Config)
    requires client !in r.waiting
    ensures Next(Next(r, ReadCount(client), cfg), WriteOwner(client, email, name, password, now), cfg).db
         == Identity.Next(r.db, Bootstrap(email, name, password, now), cfg)
  {
  }

  // ----- Bootstrap ----------------------------------------------------------------------------

  /** At every moment at most k bootstrap requests have seen no account and not yet written. */
  ghost predicate WaitingWithin(r: Race, acts: seq<Act>, cfg: Config, k: nat)
    decreases |acts|
  {
    |r.waiting| <= k && (acts != [] ==> WaitingWithin(Next(r, acts[0], cfg), acts[1..], cfg, k))
  }

  /** While there is no account nobody has been bootstrapped; then those still waiting are all that can be. */
  ghost predicate FewOwners(r: Race, k: nat) {
    (r.db.users == [] ==> r.created == 0) && r.created + |r.waiting| <= k
  }

  lemma FewOwnersStep(r: Race, act: Act, cfg: Config, k: nat)
    requires FewOwners(r, k) && |Next(r, act, cfg).waiting| <= k
    ensures FewOwners(Next(r, act, cfg), k)
  {
    match act
    case Whole(step) => UsersStay(r.db, step, cfg);
    case WriteOwner(client, _, _, _, _) =>
      if client in r.waiting { assert |r.waiting - {client}| == |r.waiting| - 1; }
    case _ =>
  }

  lemma {:induction false} FewOwnersRun(r: Race, acts: seq<Act>, cfg: Config, k: nat)
    requires FewOwners(r, k) && WaitingWithin(r, acts, cfg, k)
    ensures Run(r, acts, cfg).created <= k
    decreases |acts|
  {
    if acts != [] {
      FewOwnersStep(r, acts[0], cfg, k);
      FewOwnersRun(Next(r, acts[0], cfg), acts[1..], cfg, k);
    }
  }

  /** With at most k overlapping bootstrap requests, at most k succeed: one, if they do not overlap. */
  lemma BootstrapsAreBoundedByOverlap(acts: seq<Act>, cfg: Config, k: nat)
    requires WaitingWithin(Start(), acts, cfg, k)
    ensures Run(Start(), acts, cfg).created <= k
  {
    FewOwnersRun(Start(), acts, cfg, k);
  }

  /** Once an account exists and nobody is waiting, bootstrap is closed for good. */
  lemma {:induction false} BootstrapCloses(r: Race, acts: seq<Act>, cfg: Config)
    requires r.db.users != [] && r.waiting == {}
    ensures Run(r, acts, cfg).created == r.created
    decreases |acts|
  {
    if acts != [] {
      if acts[0].Whole? { UsersStay(r.db, acts[0].step, cfg); }
      BootstrapCloses(Next(r, acts[0], cfg), acts[1..], cfg);
    }
  }

  lemma {:induction false} WaitingAmong(r: Race, acts: seq<Act>, cfg: Config, n: nat)
    requires r.waiting <= Clients(n) && forall act :: act in acts && act.ReadCount? ==> 1 <= act.client <= n
    ensures WaitingWithin(r, acts, cfg, n)
    decreases |acts|
  {
    AtMost(r.waiting, n);
    if acts != [] { WaitingAmong(Next(r, acts[0], cfg), acts[1..], cfg, n); }
  }

  function Addresses(n: nat): string {
    if n == 0 then "a" else Addresses(n - 1) + "a"
  }

  function Reads(n: nat): seq<Act> {
    if n == 0 then [] else [ReadCount(n)] + Reads(n - 1)
  }

  function Writes(n: nat): seq<Act> {
    if n == 0 then [] else [WriteOwner(n, Addresses(n), None, "", 0)] + Writes(n - 1)
  }

  lemma {:induction false} SchedulesAreAmong(n: nat)
    ensures forall act :: act in Reads(n) + Writes(n) && act.ReadCount? ==> 1 <= act.client <= n
  {
    if n > 0 { SchedulesAreAmong(n - 1); }
  }

  lemma {:induction false} AddressLength(n: nat)
    ensures |Addresses(n)| == n + 1 && Lower(Addresses(n)) == Addresses(n)
  {
    LowerA();
    if n > 0 {
      AddressLength(n - 1);
      LowerConcat(Addresses(n - 1), "a");
    }
  }

  lemma LowerA()
    ensures Lower("a") == "a"
  {
    assert "a"[1..] == "";
    assert LowerOf('a') == "a";
  }

  lemma {:induction false} ReadsWait(r: Race, n: nat, cfg: Config)
    requires cfg.bootstrapEnabled && r.db.users == []
    ensures var t := Run(r, Reads(n), cfg);
            && t.db == r.db && t.created == r.created && r.waiting <= t.waiting
            && forall c :: 1 <= c <= n ==> c in t.waiting
    decreases n
  {
    if n > 0 {
      assert Reads(n)[0] == ReadCount(n) && Reads(n)[1..] == Reads(n - 1);
      ReadsWait(Next(r, ReadCount(n), cfg), n - 1, cfg);
    }
  }

  lemma {:induction false} WritesSucceed(r: Race, n: nat, cfg: Config)
    requires forall c :: 1 <= c <= n ==> c in r.waiting
    requires forall u :: u in r.db.users ==> |u.email| > n + 1
    ensures Run(r, Writes(n), cfg).created == r.created + n
    decreases n
  {
    if n > 0 {
      AddressLength(n);
      var act := WriteOwner(n, Addresses(n), None, "", 0);
      assert Writes(n)[0] == act && Writes(n)[1..] == Writes(n - 1);
      WritesSucceed(Next(r, act, cfg), n - 1, cfg);
    }
  }

  lemma {:induction false} RunAppend(r: Race, a: seq<Act>, b: seq<Act>, cfg: Config)
    ensures Run(r, a + b, cfg) == Run(Run(r, a, cfg), b, cfg)
    decreases |a|
  {
    if a == [] {
      assert a + b == b;
    } else {
      RunAppend(Next(r, a[0], cfg), a[1..], b, cfg);
      assert (a + b)[0] == a[0] && (a + b)[1..] == a[1..] + b;
    }
  }

  /** The bound is reached: n requests with different addresses, of which never more than n overlap, make n owners. */
  lemma OverlappingBootstrapsSucceed(n: nat, cfg: Config)
    requires cfg.bootstrapEnabled
    ensures WaitingWithin(Start(), Reads(n) + Writes(n), cfg, n)
    ensures Run(Start(), Reads(n) + Writes(n), cfg).created == n
  {
    SchedulesAreAmong(n);
    WaitingAmong(Start(), Reads(n) + Writes(n), cfg, n);
    RunAppend(Start(), Reads(n), Writes(n), cfg);
    ReadsWait(Start(), n, cfg);
    WritesSucceed(Run(Start(), Reads(n), cfg), n, cfg);
  }

  // ----- Refresh ------------------------------------------------------------------------------

  function Holders(r: Race, i: nat): set<nat> {
    set c | c in r.holding && r.holding[c] == i
  }

  function TimesRedeemed(redeemed: seq<nat>, i: nat): nat {
    multiset(redeemed)[i]
  }

  /** At every moment at most k refresh requests have found token i good and not yet rotated it. */
  ghost predicate HoldersWithin(r: Race, acts: seq<Act>, cfg: Config, i: nat, k: nat)
    decreases |acts|
  {
    |Holders(r, i)| <= k && (acts != [] ==> HoldersWithin(Next(r, acts[0], cfg), acts[1..], cfg, i, k))
  }

  ghost predicate Unspent(r: Race, i: nat) {
    i < |r.db.tokens| ==> r.db.tokens[i].revoked.None?
  }

  /** While a token is unrevoked nobody has redeemed it; then those who found it good before are all that can. */
  ghost predicate FewRedeemed(r: Race, i: nat, k: nat) {
    (Unspent(r, i) ==> TimesRedeemed(r.redeemed, i) == 0) && TimesRedeemed(r.redeemed, i) + |Holders(r, i)| <= k
  }

  lemma LetGo(r: Race, client: nat, i: nat)
    ensures Holders(r.(holding := r.holding - {client}), i) == Holders(r, i) - {client}
  {
  }

  lemma RotateKeeps(r: Race, client: nat, now: int, cfg: Config, i: nat, k: nat)
    requires FewRedeemed(r, i, k)
    ensures FewRedeemed(Rotated(r, client, now, cfg), i, k)
  {
    if client in r.holding && r.holding[client] < |r.db.tokens| {
      LetGo(r, client, i);
      if client in Holders(r, i) { assert |Holders(r, i) - {client}| == |Holders(r, i)| - 1; }
    }
  }

  lemma ReadKeeps(r: Race, client: nat, token: Jwt, now: int, i: nat, k: nat)
    requires FewRedeemed(r, i, k) && client !in r.holding && |Holders(TokenRead(r, client, token, now), i)| <= k
    ensures FewRedeemed(TokenRead(r, client, token, now), i, k)
  {
    var t := TokenRead(r, client, token, now);
    if client !in t.holding || t.holding[client] != i {
      assert Holders(t, i) == Holders(r, i);
    }
  }

  lemma FewRedeemedStep(r: Race, act: Act, cfg: Config, i: nat, k: nat)
    requires FewRedeemed(r, i, k) && |Holders(Next(r, act, cfg), i)| <= k
    ensures FewRedeemed(Next(r, act, cfg), i, k)
  {
    match act
    case Whole(step) =>
      TokensStay(r.db, step, cfg);
      assert Holders(Next(r, act, cfg), i) == Holders(r, i);
    case ReadToken(client, token, now) => if client !in r.holding { ReadKeeps(r, client, token, now, i, k); }
    case Rotate(client, now) => RotateKeeps(r, client, now, cfg, i, k);
    case _ => assert Holders(Next(r, act, cfg), i) == Holders(r, i);
  }

  lemma {:induction false} FewRedeemedRun(r: Race, acts: seq<Act>, cfg: Config, i: nat, k: nat)
    requires FewRedeemed(r, i, k) && HoldersWithin(r, acts, cfg, i, k)
    ensures TimesRedeemed(Run(r, acts, cfg).redeemed, i) <= k
    decreases |acts|
  {
    if acts != [] {
      FewRedeemedStep(r, acts[0], cfg, i, k);
      FewRedeemedRun(Next(r, acts[0], cfg), acts[1..], cfg, i, k);
    }
  }

  /** A token is redeemed at most as often as its refresh requests overlap: once, if they do not. */
  lemma RefreshesAreBoundedByOverlap(acts: seq<Act>, cfg: Config, i: nat, k: nat)
    requires HoldersWithin(Start(), acts, cfg, i, k)
    ensures TimesRedeemed(Run(Start(), acts, cfg).redeemed, i) <= k
  {
    assert Holders(Start(), i) == {};
    FewRedeemedRun(Start(), acts, cfg, i, k);
  }

  function TokenReads(n: nat, token: Jwt, now: int): seq<Act> {
    if n == 0 then [] else [ReadToken(n, token, now)] + TokenReads(n - 1, token, now)
  }

  function Rotations(n: nat, now: int): seq<Act> {
    if n == 0 then [] else [Rotate(n, now)] + Rotations(n - 1, now)
  }

  lemma {:induction false} TokenReadsHold(r: Race, n: nat, token: Jwt, now: int, i: nat, cfg: Config)
    requires RefreshRefusal(r.db, token, now).None? && ByHash(r.db.tokens, token) == Some(i)
    requires forall c :: c in r.holding ==> c > n
    ensures var t := Run(r, TokenReads(n, token, now), cfg);
            && t.db == r.db && t.redeemed == r.redeemed
            && (forall c :: c in r.holding ==> c in t.holding && t.holding[c] == r.holding[c])
            && forall c :: 1 <= c <= n ==> c in t.holding && t.holding[c] == i
    decreases n
  {
    if n > 0 {
      var act := ReadToken(n, token, now);
      assert TokenReads(n, token, now)[0] == act && TokenReads(n, token, now)[1..] == TokenReads(n - 1, token, now);
      TokenReadsHold(Next(r, act, cfg), n - 1, token, now, i, cfg);
    }
  }

  lemma RotationSucceeds(r: Race, client: nat, now: int, i: nat, cfg: Config)
    requires i < |r.db.tokens| && client in r.holding && r.holding[client] == i
    ensures var t := Next(r, Rotate(client, now), cfg);
            && TimesRedeemed(t.redeemed, i) == TimesRedeemed(r.redeemed, i) + 1
            && |t.db.tokens| == |r.db.tokens| + 1
            && forall c :: c != client && c in r.holding ==> c in t.holding && t.holding[c] == r.holding[c]
  {
  }

  lemma {:induction false} RotationsSucceed(r: Race, n: nat, now: int, i: nat, cfg: Config)
    requires i < |r.db.tokens| && forall c :: 1 <= c <= n ==> c in r.holding && r.holding[c] == i
    ensures TimesRedeemed(Run(r, Rotations(n, now), cfg).redeemed, i) == TimesRedeemed(r.redeemed, i) + n
    decreases n
  {
    if n > 0 {
      assert Rotations(n, now)[0] == Rotate(n, now) && Rotations(n, now)[1..] == Rotations(n - 1, now);
      RotationSucceeds(r, n, now, i, cfg);
      RotationsSucceed(Next(r, Rotate(n, now), cfg), n - 1, now, i, cfg);
    }
  }

  lemma {:induction false} HoldersAmong(r: Race, acts: seq<Act>, cfg: Config, i: nat, n: nat)
    requires r.holding.Keys <= Clients(n) && forall act :: act in acts && act.ReadToken? ==> 1 <= act.client <= n
    ensures HoldersWithin(r, acts, cfg, i, n)
    decreases |acts|
  {
    AtMost(Holders(r, i), n);
    if acts != [] { HoldersAmong(Next(r, acts[0], cfg), acts[1..], cfg, i, n); }
  }

  lemma {:induction false} RefreshesAreAmong(n: nat, token: Jwt, now: int)
    ensures forall act :: act in TokenReads(n, token, now) + Rotations(n, now) && act.ReadToken? ==>
      1 <= act.client <= n
  {
    if n > 0 { RefreshesAreAmong(n - 1, token, now); }
  }

  /** n overlapping requests with one good token all succeed. */
  lemma OverlappingRefreshesSucceed(r: Race, n: nat, token: Jwt, now: int, i: nat, cfg: Config)
    requires r.holding == map[] && RefreshRefusal(r.db, token, now).None? && ByHash(r.db.tokens, token) == Some(i)
    ensures HoldersWithin(r, TokenReads(n, token, now) + Rotations(n, now), cfg, i, n)
    ensures TimesRedeemed(Run(r, TokenReads(n, token, now) + Rotations(n, now), cfg).redeemed, i)
         == TimesRedeemed(r.redeemed, i) + n
  {
    RefreshesAreAmong(n, token, now);
    HoldersAmong(r, TokenReads(n, token, now) + Rotations(n, now), cfg, i, n);
    RunAppend(r, TokenReads(n, token, now), Rotations(n, now), cfg);
    TokenReadsHold(r, n, token, now, i, cfg);
    RotationsSucceed(Run(r, TokenReads(n, token, now), cfg), n, now, i, cfg);
  }

  /** The owner is bootstrapped and n requests refresh the owner's first token at once. */
  function Refreshes(n: nat, cfg: Config): seq<Act> {
    var token := Issued(0, 0, 0, cfg.renewalLife).hash;
    [ReadCount(0), WriteOwner(0, "", None, "", 0)] + (TokenReads(n, token, 0) + Rotations(n, 0))
  }

  lemma RunTwo(r: Race, a: Act, b: Act, cfg: Config)
    ensures Run(r, [a, b], cfg) == Next(Next(r, a, cfg), b, cfg)
  {
    assert [a, b][1..] == [b];
    RunOne(Next(r, a, cfg), b, cfg);
  }

  lemma Bootstrapped(cfg: Config)
    requires cfg.bootstrapEnabled && cfg.renewalLife >= SECOND
    ensures var r := Run(Start(), [ReadCount(0), WriteOwner(0, "", None, "", 0)], cfg);
            var token := Issued(0, 0, 0, cfg.renewalLife);
            && r.db.tokens == [token] && r.holding == map[] && r.redeemed == []
            && RefreshRefusal(r.db, token.hash, 0).None? && ByHash(r.db.tokens, token.hash) == Some(0)
  {
    RunTwo(Start(), ReadCount(0), WriteOwner(0, "", None, "", 0), cfg);
  }

  /** The bound is reached from nothing. */
  lemma RefreshBoundIsReached(n: nat, cfg: Config)
    requires cfg.bootstrapEnabled && cfg.renewalLife >= SECOND
    ensures HoldersWithin(Start(), Refreshes(n, cfg), cfg, 0, n)
    ensures TimesRedeemed(Run(Start(), Refreshes(n, cfg), cfg).redeemed, 0) == n
  {
    var token := Issued(0, 0, 0, cfg.renewalLife).hash;
    Bootstrapped(cfg);
    RefreshesAreAmong(n, token, 0);
    HoldersAmong(Start(), Refreshes(n, cfg), cfg, 0, n);
    RunAppend(Start(), [ReadCount(0), WriteOwner(0, "", None, "", 0)], TokenReads(n, token, 0) + Rotations(n, 0), cfg);
    OverlappingRefreshesSucceed(Run(Start(), [ReadCount(0), WriteOwner(0, "", None, "", 0)], cfg), n, token, 0, 0, cfg);
  }
}
