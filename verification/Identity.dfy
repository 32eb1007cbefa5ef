/** Administrators and their sessions: one atomic step per request, and what every run of them keeps. */
module Identity {
  import opened Prelude
  import opened Text

  datatype Role = Owner | Admin | Operator | Viewer

  datatype Status = Active | Suspended | Invited

  datatype User = User(email: string, name: Option<string>, password: string, role: Role, status: Status,
                       lastLogin: Option<int>, failedLogins: nat)
  {
    /** May create and update administrators. */
    predicate Manages() {
      status.Active? && (role.Owner? || role.Admin?)
    }
  }

  datatype Kind = Access | Renewal

  /** A presented token after decoding; `signed` says that signature and issuer are ours. */
  datatype Jwt = Jwt(signed: bool, kind: Kind, subject: nat, jti: nat, exp: int)

  /** A stored refresh token. Its hash is injective, so the token stands for it. */
  datatype Token = Token(user: nat, hash: Jwt, jti: nat, expires: int, revoked: Option<int>)

  datatype State = State(users: seq<User>, tokens: seq<Token>)

  datatype Config = Config(bootstrapEnabled: bool, minLength: nat, renewalLife: nat, hashing: string -> string)

  datatype Changes = Changes(name: Option<string>, role: Option<Role>, status: Option<Status>)

  datatype Step =
    | Bootstrap(email: string, name: Option<string>, password: string, now: int)
    | Login(email: string, password: string, now: int)
    | Refresh(token: Jwt, now: int)
    | Logout(presented: Option<Jwt>, now: int)
    | CreateUser(actor: nat, email: string, name: Option<string>, password: string, role: Role)
    | UpdateUser(actor: nat, target: nat, changes: Changes)

  datatype Refusal =
    | BootstrapDisabled | BootstrapClosed | InvalidCredentials | AccountInactive | TokenInvalid | TokenExpired
    | TokenTypeInvalid | TokenRevoked | InsufficientRole | PasswordTooShort | RoleEscalation | EmailTaken
    | NotFound | CannotSuspendSelf | SelfRoleChange | OwnerRoleProtected

  // ----- Sessions ------------------------------------------------------------------------------

  const SECOND := 1_000_000

  /** The token issued as the n-th; its expiry is cut to whole seconds, the stored one is not. */
  function Issued(user: nat, n: nat, now: int, life: nat): Token {
    Token(user, Jwt(true, Renewal, user, n, (now + life) / SECOND * SECOND), n, now + life, None)
  }

  function WithSession(s: State, user: nat, now: int, cfg: Config): State {
    s.(tokens := s.tokens + [Issued(user, |s.tokens|, now, cfg.renewalLife)])
  }

  function ByHash(tokens: seq<Token>, hash: Jwt): (r: Option<nat>)
    ensures r.Some? ==> r.value < |tokens| && tokens[r.value].hash == hash
    ensures r.None? ==> forall t :: t in tokens ==> t.hash != hash
  {
    if tokens == [] then None
    else if tokens[0].hash == hash then Some(0)
    else match ByHash(tokens[1..], hash)
      case None => None
      case Some(i) => Some(i + 1)
  }

  function Revoke(s: State, i: nat, now: int): State
    requires i < |s.tokens|
  {
    s.(tokens := s.tokens[i := s.tokens[i].(revoked := Some(now))])
  }

  function Normalized(email: string): string {
    Lower(Strip(email))
  }

  function ByEmail(users: seq<User>, email: string): (r: Option<nat>)
    ensures r.Some? ==> r.value < |users| && Lower(users[r.value].email) == Normalized(email)
    ensures r.None? ==> forall u :: u in users ==> Lower(u.email) != Normalized(email)
  {
    if users == [] then None
    else if Lower(users[0].email) == Normalized(email) then Some(0)
    else match ByEmail(users[1..], email)
      case None => None
      case Some(i) => Some(i + 1)
  }

  // ----- Steps: None means the request was carried out ----------------------------------------------

  function BootstrapRefusal(s: State, cfg: Config): Option<Refusal> {
    if !cfg.bootstrapEnabled then Some(BootstrapDisabled)
    else if s.users != [] then Some(BootstrapClosed)
    else None
  }

  function LoginRefusal(s: State, email: string, password: string, cfg: Config): Option<Refusal> {
    match ByEmail(s.users, email)
    case None => Some(InvalidCredentials)
    case Some(i) =>
      if s.users[i].password != cfg.hashing(password) then Some(InvalidCredentials)
      else if !s.users[i].status.Active? then Some(AccountInactive)
      else None
  }

  function RefreshRefusal(s: State, token: Jwt, now: int): Option<Refusal> {
    if !token.signed then Some(TokenInvalid)
    else if token.exp <= now then Some(TokenExpired)
    else if !token.kind.Renewal? then Some(TokenTypeInvalid)
    else match ByHash(s.tokens, token)
      case None => Some(TokenRevoked)
      case Some(i) =>
        var stored := s.tokens[i];
        if stored.revoked.Some? then Some(TokenRevoked)
        else if stored.expires < now then Some(TokenExpired)
        else if stored.jti != token.jti then Some(TokenInvalid)
        else if stored.user >= |s.users| || !s.users[stored.user].status.Active? then Some(AccountInactive)
        else None
  }

  predicate Authorized(s: State, actor: nat) {
    actor < |s.users| && s.users[actor].Manages()
  }

  function CreateRefusal(s: State, actor: nat, email: string, password: string, role: Role, cfg: Config)
    : Option<Refusal>
  {
    if !Authorized(s, actor) then Some(InsufficientRole)
    else if |password| < cfg.minLength then Some(PasswordTooShort)
    else if role.Owner? && !s.users[actor].role.Owner? then Some(RoleEscalation)
    else if ByEmail(s.users, email).Some? then Some(EmailTaken)
    else None
  }

  /** The guards of an update, for the row that was read of the target. */
  function GuardRefusal(byOwner: bool, self: bool, row: User, c: Changes): Option<Refusal> {
    if self && c.status == Some(Suspended) then Some(CannotSuspendSelf)
    else if c.role.None? then None
    else if self then Some(SelfRoleChange)
    else if c.role.value.Owner? && !byOwner then Some(RoleEscalation)
    else if row.role.Owner? && !c.role.value.Owner? then Some(OwnerRoleProtected)
    else None
  }

  function UpdateRefusal(s: State, actor: nat, target: nat, c: Changes): Option<Refusal> {
    if !Authorized(s, actor) then Some(InsufficientRole)
    else if target >= |s.users| then Some(NotFound)
    else GuardRefusal(s.users[actor].role.Owner?, target == actor, s.users[target], c)
  }

  function Refused(s: State, step: Step, cfg: Config): Option<Refusal> {
    match step
    case Bootstrap(_, _, _, _) => BootstrapRefusal(s, cfg)
    case Login(email, password, _) => LoginRefusal(s, email, password, cfg)
    case Refresh(token, now) => RefreshRefusal(s, token, now)
    case Logout(_, _) => None
    case CreateUser(actor, email, _, password, role) => CreateRefusal(s, actor, email, password, role, cfg)
    case UpdateUser(actor, target, changes) => UpdateRefusal(s, actor, target, changes)
  }

  function Changed(u: User, c: Changes): User {
    u.(name := if c.name.Some? then c.name else u.name, role := c.role.Or(u.role), status := c.status.Or(u.status))
  }

  function LoggedOut(s: State, presented: Option<Jwt>, now: int): State {
    if presented.None? then s
    else match ByHash(s.tokens, presented.value)
      case None => s
      case Some(i) => if s.tokens[i].revoked.Some? then s else Revoke(s, i, now)
  }

  function Carried(s: State, step: Step, cfg: Config): State
    requires Refused(s, step, cfg).None?
  {
    match step
    case Bootstrap(email, name, password, now) =>
      WithSession(s.(users := [User(Lower(email), name, cfg.hashing(password), Owner, Active, None, 0)]), 0, now, cfg)
    case Login(email, password, now) =>
      var i := ByEmail(s.users, email).value;
      WithSession(s.(users := s.users[i := s.users[i].(lastLogin := Some(now), failedLogins := 0)]), i, now, cfg)
    case Refresh(token, now) =>
      var i := ByHash(s.tokens, token).value;
      WithSession(Revoke(s, i, now), s.tokens[i].user, now, cfg)
    case Logout(presented, now) => LoggedOut(s, presented, now)
    case CreateUser(_, email, name, password, role) =>
      s.(users := s.users + [User(Lower(email), name, cfg.hashing(password), role, Active, None, 0)])
    case UpdateUser(_, target, changes) =>
      s.(users := s.users[target := Changed(s.users[target], changes)])
  }

  /** A refused request changes nothing. */
  function Next(s: State, step: Step, cfg: Config): State {
    if Refused(s, step, cfg).Some? then s else Carried(s, step, cfg)
  }

  function Run(s: State, steps: seq<Step>, cfg: Config): State
    decreases |steps|
  {
    if steps == [] then s else Run(Next(s, steps[0], cfg), steps[1..], cfg)
  }

  function Nobody(): State {
    State([], [])
  }

  // ----- Bootstrap and owners ------------------------------------------------------------------------

  lemma UsersStay(s: State, step: Step, cfg: Config)
    ensures |s.users| <= |Next(s, step, cfg).users|
    ensures forall i :: 0 <= i < |s.users| && s.users[i].role.Owner? ==> Next(s, step, cfg).users[i].role.Owner?
  {
  }

  /** No account is removed, and no owner ever loses the role. */
  lemma {:induction false} OwnersOnlyGrow(s: State, steps: seq<Step>, cfg: Config)
    ensures |s.users| <= |Run(s, steps, cfg).users|
    ensures forall i :: 0 <= i < |s.users| && s.users[i].role.Owner? ==> Run(s, steps, cfg).users[i].role.Owner?
    decreases |steps|
  {
    if steps != [] {
      UsersStay(s, steps[0], cfg);
      OwnersOnlyGrow(Next(s, steps[0], cfg), steps[1..], cfg);
    }
  }

  /** How many bootstrap requests of a run are carried out. */
  function Bootstraps(s: State, steps: seq<Step>, cfg: Config): nat
    decreases |steps|
  {
    if steps == [] then 0
    else (if steps[0].Bootstrap? && Refused(s, steps[0], cfg).None? then 1 else 0)
         + Bootstraps(Next(s, steps[0], cfg), steps[1..], cfg)
  }

  /** Bootstrap succeeds at most once, and not at all when it is disabled or there is an account. */
  lemma {:induction false} BootstrapAtMostOnce(s: State, steps: seq<Step>, cfg: Config)
    ensures Bootstraps(s, steps, cfg) <= if s.users == [] && cfg.bootstrapEnabled then 1 else 0
    decreases |steps|
  {
    if steps != [] {
      UsersStay(s, steps[0], cfg);
      BootstrapAtMostOnce(Next(s, steps[0], cfg), steps[1..], cfg);
    }
  }

  predicate IsOwner(s: State, i: nat) {
    i < |s.users| && s.users[i].role.Owner?
  }

  /** In state s this step makes account i an owner, and it is the bootstrap or an owner's doing. */
  predicate Grants(s: State, step: Step, i: nat, cfg: Config) {
    && !IsOwner(s, i) && IsOwner(Next(s, step, cfg), i)
    && (step.Bootstrap? || ((step.CreateUser? || step.UpdateUser?) && IsOwner(s, step.actor)))
  }

  lemma OwnerIsGranted(s: State, step: Step, i: nat, cfg: Config)
    requires !IsOwner(s, i) && IsOwner(Next(s, step, cfg), i)
    ensures Grants(s, step, i, cfg)
  {
  }

  lemma {:induction false} RunSplit(s: State, steps: seq<Step>, k: nat, cfg: Config)
    requires k < |steps|
    ensures Run(s, steps[..k + 1], cfg) == Next(Run(s, steps[..k], cfg), steps[k], cfg)
    decreases |steps|
  {
    if k > 0 {
      RunSplit(Next(s, steps[0], cfg), steps[1..], k - 1, cfg);
      assert steps[..k + 1][1..] == steps[1..][..k] && steps[..k][1..] == steps[1..][..k - 1];
    } else {
      assert steps[..1][1..] == [] && steps[..0] == [];
    }
  }

  /** Every owner was bootstrapped or made one by an owner. */
  lemma {:induction false} EveryOwnerWasGranted(steps: seq<Step>, i: nat, cfg: Config)
    requires IsOwner(Run(Nobody(), steps, cfg), i)
    ensures exists k :: 0 <= k < |steps| && Grants(Run(Nobody(), steps[..k], cfg), steps[k], i, cfg)
    decreases |steps|
  {
    var k := |steps| - 1;
    if steps != [] {
      var before := Run(Nobody(), steps[..k], cfg);
      RunSplit(Nobody(), steps, k, cfg);
      assert steps[..k + 1] == steps;
      if IsOwner(before, i) {
        EveryOwnerWasGranted(steps[..k], i, cfg);
        var j :| 0 <= j < k && Grants(Run(Nobody(), steps[..k][..j], cfg), steps[..k][j], i, cfg);
        assert steps[..k][..j] == steps[..j];
      } else {
        OwnerIsGranted(before, steps[k], i, cfg);
      }
    }
  }

  // ----- Somebody can manage -------------------------------------------------------------------------

  ghost predicate HasManager(s: State) {
    exists i :: 0 <= i < |s.users| && s.users[i].Manages()
  }

  /** The last administrator who can manage sets the own status to "invited". */
  ghost predicate LastManagerLeaves(s: State, step: Step) {
    && step.UpdateUser? && step.target == step.actor && Authorized(s, step.actor)
    && step.changes.status == Some(Invited) && step.changes.role.None?
    && forall i :: 0 <= i < |s.users| && s.users[i].Manages() ==> i == step.actor
  }

  lemma ManagerSurvives(s: State, step: Step, i: nat, cfg: Config)
    requires i < |s.users| && s.users[i].Manages()
    requires !step.UpdateUser? || step.target != i
    ensures i < |Next(s, step, cfg).users| && Next(s, step, cfg).users[i].Manages()
  {
  }

  lemma SelfUpdate(s: State, step: Step, cfg: Config)
    requires step.UpdateUser? && step.target == step.actor && Authorized(s, step.actor)
    ensures Next(s, step, cfg).users[step.actor].Manages() <==>
      !(step.changes.status == Some(Invited) && step.changes.role.None?)
    ensures forall j :: 0 <= j < |s.users| && j != step.actor ==> Next(s, step, cfg).users[j] == s.users[j]
    ensures |Next(s, step, cfg).users| == |s.users|
  {
  }

  /** A request takes away the last manager exactly if that manager sets the own status to "invited". */
  lemma ManagerRemainsIff(s: State, step: Step, cfg: Config)
    requires HasManager(s)
    ensures HasManager(Next(s, step, cfg)) <==> !LastManagerLeaves(s, step)
  {
    var m :| 0 <= m < |s.users| && s.users[m].Manages();
    if !step.UpdateUser? {
      ManagerSurvives(s, step, m, cfg);
    } else if !Authorized(s, step.actor) {
      assert Next(s, step, cfg) == s;
    } else if step.target != step.actor {
      ManagerSurvives(s, step, step.actor, cfg);
    } else {
      SelfUpdate(s, step, cfg);
      if !LastManagerLeaves(s, step) {
        if step.changes.status == Some(Invited) && step.changes.role.None? {
          var j :| 0 <= j < |s.users| && s.users[j].Manages() && j != step.actor;
          assert Next(s, step, cfg).users[j].Manages();
        } else {
          assert Next(s, step, cfg).users[step.actor].Manages();
        }
      }
    }
  }

  predicate LockedOut(s: State)  {
    s.users != [] && forall u :: u in s.users ==> !u.Manages()
  }

  lemma LockedOutStep(s: State, step: Step, cfg: Config)
    requires LockedOut(s)
    ensures LockedOut(Next(s, step, cfg)) && |Next(s, step, cfg).users| == |s.users|
  {
    var t := Next(s, step, cfg);
    forall i | 0 <= i < |t.users| ensures |t.users| == |s.users| && !t.users[i].Manages() {
      assert i < |s.users| && s.users[i] in s.users;
    }
  }

  /** Then nobody can manage ever again: bootstrap is closed and every write needs a manager. */
  lemma {:induction false} LockOutIsPermanent(s: State, steps: seq<Step>, cfg: Config)
    requires LockedOut(s)
    ensures LockedOut(Run(s, steps, cfg)) && |Run(s, steps, cfg).users| == |s.users|
    decreases |steps|
  {
    if steps != [] {
      LockedOutStep(s, steps[0], cfg);
      LockOutIsPermanent(Next(s, steps[0], cfg), steps[1..], cfg);
    }
  }

  /** At some point of the run the last manager leaves. */
  ghost predicate SomebodyLeaves(s: State, steps: seq<Step>, cfg: Config) {
    exists k :: 0 <= k < |steps| && LastManagerLeaves(Run(s, steps[..k], cfg), steps[k])
  }

  lemma ManagerOrLockedOut(s: State)
    requires s.users != []
    ensures HasManager(s) <==> !LockedOut(s)
  {
    if !LockedOut(s) {
      var u :| u in s.users && u.Manages();
      var i :| 0 <= i < |s.users| && s.users[i] == u;
    }
  }

  /** Once there is a manager, a run ends with one exactly if the last one never left along the way. */
  lemma {:induction false} ManagerAtEndIff(s: State, steps: seq<Step>, cfg: Config)
    requires HasManager(s)
    ensures HasManager(Run(s, steps, cfg)) <==> !SomebodyLeaves(s, steps, cfg)
    decreases |steps|
  {
    if steps != [] {
      var k := |steps| - 1;
      var before := Run(s, steps[..k], cfg);
      ManagerAtEndIff(s, steps[..k], cfg);
      RunSplit(s, steps, k, cfg);
      assert steps[..k + 1] == steps;
      LeavesEarlierOrLast(s, steps, cfg);
      OwnersOnlyGrow(s, steps[..k], cfg);
      if HasManager(before) {
        ManagerRemainsIff(before, steps[k], cfg);
      } else {
        ManagerOrLockedOut(before);
        LockedOutStep(before, steps[k], cfg);
        ManagerOrLockedOut(Run(s, steps, cfg));
      }
    }
  }

  lemma LeavesEarlierOrLast(s: State, steps: seq<Step>, cfg: Config)
    requires steps != []
    ensures var k := |steps| - 1;
            SomebodyLeaves(s, steps, cfg) <==>
            SomebodyLeaves(s, steps[..k], cfg) || LastManagerLeaves(Run(s, steps[..k], cfg), steps[k])
  {
    var k := |steps| - 1;
    forall j | 0 <= j < k ensures steps[..k][..j] == steps[..j] && steps[..k][j] == steps[j] {}
    if SomebodyLeaves(s, steps[..k], cfg) {
      var j :| 0 <= j < k && LastManagerLeaves(Run(s, steps[..k][..j], cfg), steps[..k][j]);
      assert LastManagerLeaves(Run(s, steps[..j], cfg), steps[j]);
    }
    if SomebodyLeaves(s, steps, cfg) {
      var j :| 0 <= j < |steps| && LastManagerLeaves(Run(s, steps[..j], cfg), steps[j]);
      if j < k { assert LastManagerLeaves(Run(s, steps[..k][..j], cfg), steps[..k][j]); }
    }
  }

  /** One owner who sets the own status to "invited" is enough. */
  lemma LockOutHappens(cfg: Config)
    requires cfg.bootstrapEnabled
    ensures var steps := [Bootstrap("a@b", None, "password", 0), UpdateUser(0, 0, Changes(None, None, Some(Invited)))];
            LockedOut(Run(Nobody(), steps, cfg))
  {
    var first, second := Bootstrap("a@b", None, "password", 0), UpdateUser(0, 0, Changes(None, None, Some(Invited)));
    var s := Next(Nobody(), first, cfg);
    assert [first, second][1..] == [second] && [second][1..] == [];
    assert s.users[0].Manages() && |s.users| == 1;
    assert Run(s, [second], cfg) == Next(s, second, cfg);
  }

  // ----- Refresh tokens --------------------------------------------------------------------------------

  /** The n-th stored token was issued as the n-th, to an account that exists. */
  ghost predicate Genuine(s: State) {
    forall i :: 0 <= i < |s.tokens| ==>
      && s.tokens[i].user < |s.users| && s.tokens[i].jti == i
      && s.tokens[i].hash == Jwt(true, Renewal, s.tokens[i].user, i, s.tokens[i].expires / SECOND * SECOND)
  }

  lemma IssuedIsGenuine(s: State, users: seq<User>, user: nat, now: int, cfg: Config)
    requires Genuine(s) && |s.users| <= |users| && user < |users|
    ensures Genuine(WithSession(s.(users := users), user, now, cfg))
  {
  }

  lemma RevokedIsGenuine(s: State, i: nat, now: int)
    requires Genuine(s) && i < |s.tokens|
    ensures Genuine(Revoke(s, i, now))
  {
  }

  lemma GenuineStep(s: State, step: Step, cfg: Config)
    requires Genuine(s)
    ensures Genuine(Next(s, step, cfg))
  {
    if Refused(s, step, cfg).None? {
      var t := Carried(s, step, cfg);
      match step {
        case Bootstrap(_, _, _, now) => IssuedIsGenuine(s, t.users, 0, now, cfg);
        case Login(email, _, now) => IssuedIsGenuine(s, t.users, ByEmail(s.users, email).value, now, cfg);
        case Refresh(token, now) =>
          var i := ByHash(s.tokens, token).value;
          RevokedIsGenuine(s, i, now);
          IssuedIsGenuine(Revoke(s, i, now), s.users, s.tokens[i].user, now, cfg);
        case _ =>
      }
    }
  }

  lemma {:induction false} TokensStayGenuine(s: State, steps: seq<Step>, cfg: Config)
    requires Genuine(s)
    ensures Genuine(Run(s, steps, cfg))
    decreases |steps|
  {
    if steps != [] {
      GenuineStep(s, steps[0], cfg);
      TokensStayGenuine(Next(s, steps[0], cfg), steps[1..], cfg);
    }
  }

  /** The token at i is the presented one, is not revoked, and its account is active. */
  predicate Redeemable(s: State, i: nat, token: Jwt) {
    && i < |s.tokens| && s.tokens[i].hash == token && s.tokens[i].revoked.None?
    && s.tokens[i].user < |s.users| && s.users[s.tokens[i].user].status.Active?
  }

  /** In every reachable state a refresh succeeds exactly for an unexpired, unrevoked token of an active account.
      The look-ups of stored expiry and identifier never decide anything. */
  lemma RefreshSucceedsIff(steps: seq<Step>, token: Jwt, now: int, cfg: Config)
    ensures var s := Run(Nobody(), steps, cfg);
            RefreshRefusal(s, token, now).None? <==>
            now < token.exp && exists i :: 0 <= i < |s.tokens| && Redeemable(s, i, token)
  {
    var s := Run(Nobody(), steps, cfg);
    TokensStayGenuine(Nobody(), steps, cfg);
    match ByHash(s.tokens, token) {
      case None =>
      case Some(i) =>
        assert token == s.tokens[i].hash && token.jti == i;
        assert token.exp <= s.tokens[i].expires;
        forall j | 0 <= j < |s.tokens| && s.tokens[j].hash == token ensures j == i { assert s.tokens[j].hash.jti == j; }
        assert now < token.exp && Redeemable(s, i, token) <==> RefreshRefusal(s, token, now).None?;
    }
  }

  lemma TokensStay(s: State, step: Step, cfg: Config)
    ensures |s.tokens| <= |Next(s, step, cfg).tokens| <= |s.tokens| + 1
    ensures forall i :: 0 <= i < |s.tokens| ==>
      Next(s, step, cfg).tokens[i] == s.tokens[i].(revoked := Next(s, step, cfg).tokens[i].revoked)
    ensures forall i :: 0 <= i < |s.tokens| && s.tokens[i].revoked.Some? ==> Next(s, step, cfg).tokens[i] == s.tokens[i]
  {
  }

  /** A revoked token never becomes live again. */
  lemma {:induction false} RevokedStaysRevoked(s: State, steps: seq<Step>, i: nat, cfg: Config)
    requires i < |s.tokens| && s.tokens[i].revoked.Some?
    ensures i < |Run(s, steps, cfg).tokens| && Run(s, steps, cfg).tokens[i] == s.tokens[i]
    decreases |steps|
  {
    if steps != [] {
      TokensStay(s, steps[0], cfg);
      RevokedStaysRevoked(Next(s, steps[0], cfg), steps[1..], i, cfg);
    }
  }

  /** The stored token that a step redeems. */
  function Redeemed(s: State, step: Step, cfg: Config): Option<nat> {
    if step.Refresh? && Refused(s, step, cfg).None? then ByHash(s.tokens, step.token) else None
  }

  function TimesRedeemed(s: State, steps: seq<Step>, i: nat, cfg: Config): nat
    decreases |steps|
  {
    if steps == [] then 0
    else (if Redeemed(s, steps[0], cfg) == Some(i) then 1 else 0)
         + TimesRedeemed(Next(s, steps[0], cfg), steps[1..], i, cfg)
  }

  lemma RedeemedIsRevoked(s: State, step: Step, i: nat, cfg: Config)
    requires Redeemed(s, step, cfg) == Some(i)
    ensures i < |s.tokens| && s.tokens[i].revoked.None? && Next(s, step, cfg).tokens[i].revoked.Some?
  {
  }

  /** Each token is redeemed at most once, and a revoked one never. */
  lemma {:induction false} RedeemedAtMostOnce(s: State, steps: seq<Step>, i: nat, cfg: Config)
    ensures TimesRedeemed(s, steps, i, cfg) <= if i < |s.tokens| && s.tokens[i].revoked.Some? then 0 else 1
    decreases |steps|
  {
    if steps != [] {
      TokensStay(s, steps[0], cfg);
      if Redeemed(s, steps[0], cfg) == Some(i) { RedeemedIsRevoked(s, steps[0], i, cfg); }
      RedeemedAtMostOnce(Next(s, steps[0], cfg), steps[1..], i, cfg);
    }
  }

  /** The unrevoked tokens of an account. */
  function LiveOf(tokens: seq<Token>, user: nat): nat {
    if tokens == [] then 0
    else (if tokens[0].user == user && tokens[0].revoked.None? then 1 else 0) + LiveOf(tokens[1..], user)
  }

  lemma {:induction false} LiveAppend(tokens: seq<Token>, t: Token, user: nat)
    ensures LiveOf(tokens + [t], user) == LiveOf(tokens, user) + if t.user == user && t.revoked.None? then 1 else 0
  {
    if tokens == [] {
      assert [t][1..] == [] && tokens + [t] == [t];
    } else {
      LiveAppend(tokens[1..], t, user);
      assert (tokens + [t])[1..] == tokens[1..] + [t];
    }
  }

  lemma {:induction false} LiveRevoke(tokens: seq<Token>, i: nat, now: int, user: nat)
    requires i < |tokens|
    ensures LiveOf(tokens[i := tokens[i].(revoked := Some(now))], user)
         == LiveOf(tokens, user) - if tokens[i].user == user && tokens[i].revoked.None? then 1 else 0
    decreases |tokens|
  {
    var after := tokens[i := tokens[i].(revoked := Some(now))];
    if i > 0 {
      LiveRevoke(tokens[1..], i - 1, now, user);
      assert after[1..] == tokens[1..][i - 1 := tokens[i].(revoked := Some(now))];
    } else {
      assert after[1..] == tokens[1..];
    }
  }

  /** A refresh preserves the number of unrevoked tokens of every account. */
  lemma RefreshPreservesLiveCount(s: State, token: Jwt, now: int, user: nat, cfg: Config)
    ensures LiveOf(Next(s, Refresh(token, now), cfg).tokens, user) == LiveOf(s.tokens, user)
  {
    if RefreshRefusal(s, token, now).None? {
      var i := ByHash(s.tokens, token).value;
      LiveRevoke(s.tokens, i, now, user);
      LiveAppend(Revoke(s, i, now).tokens, Issued(s.tokens[i].user, |s.tokens|, now, cfg.renewalLife), user);
    }
  }

  /** A new token belongs to an active account: the one just bootstrapped, the one whose email and password were
      given, or the one the redeemed token was issued to. */
  lemma SessionsAreEarned(s: State, step: Step, cfg: Config)
    requires Genuine(s) && |Next(s, step, cfg).tokens| > |s.tokens|
    ensures var t := Next(s, step, cfg); var user := t.tokens[|s.tokens|].user;
            && user < |t.users| && t.users[user].status.Active?
            && match step
               case Bootstrap(_, _, _, _) => s.users == [] && user == 0
               case Login(email, password, _) =>
                 Lower(t.users[user].email) == Normalized(email) && t.users[user].password == cfg.hashing(password)
               case Refresh(token, now) => token.signed && token.subject == user && now < token.exp
               case _ => false
  {
  }

  lemma LogoutRevokes(s: State, token: Jwt, now: int, i: nat, cfg: Config)
    requires Genuine(s) && i < |s.tokens| && s.tokens[i].hash == token
    ensures |Next(s, Logout(Some(token), now), cfg).tokens| == |s.tokens|
    ensures Next(s, Logout(Some(token), now), cfg).tokens[i].revoked.Some?
  {
    var j := ByHash(s.tokens, token).value;
    assert s.tokens[j].hash.jti == j && s.tokens[i].hash.jti == i;
  }

  /** A stored token that was logged out is refused ever after. */
  lemma LoggedOutForGood(s: State, token: Jwt, now: int, steps: seq<Step>, later: int, cfg: Config)
    requires Genuine(s) && ByHash(s.tokens, token).Some?
    ensures RefreshRefusal(Run(Next(s, Logout(Some(token), now), cfg), steps, cfg), token, later).Some?
  {
    var i := ByHash(s.tokens, token).value;
    var t := Next(s, Logout(Some(token), now), cfg);
    LogoutRevokes(s, token, now, i, cfg);
    TokensStay(s, Logout(Some(token), now), cfg);
    GenuineStep(s, Logout(Some(token), now), cfg);
    TokensStayGenuine(t, steps, cfg);
    RevokedStaysRevoked(t, steps, i, cfg);
    var end := Run(t, steps, cfg);
    if ByHash(end.tokens, token).Some? {
      assert end.tokens[ByHash(end.tokens, token).value].hash.jti == i;
    }
  }

  // ----- Email addresses --------------------------------------------------------------------------------

  /** Stored addresses are in lower case and pairwise distinct. */
  ghost predicate EmailsDistinct(users: seq<User>) {
    && (forall i :: 0 <= i < |users| ==> Lower(users[i].email) == users[i].email)
    && forall i, j :: 0 <= i < j < |users| ==> users[i].email != users[j].email
  }

  /** The addresses of new accounts have no white space around them, which the request schema ensures. */
  ghost predicate Trimmed(step: Step) {
    step.CreateUser? ==> Strip(step.email) == step.email
  }

  lemma EmailsStep(s: State, step: Step, cfg: Config)
    requires EmailsDistinct(s.users) && Trimmed(step)
    ensures EmailsDistinct(Next(s, step, cfg).users)
  {
    if step.Bootstrap? || step.CreateUser? { LowerTwice(step.email); }
  }

  /** Accounts never share an address. */
  lemma {:induction false} EmailsStayDistinct(s: State, steps: seq<Step>, cfg: Config)
    requires EmailsDistinct(s.users) && forall step :: step in steps ==> Trimmed(step)
    ensures EmailsDistinct(Run(s, steps, cfg).users)
    decreases |steps|
  {
    if steps != [] {
      EmailsStep(s, steps[0], cfg);
      EmailsStayDistinct(Next(s, steps[0], cfg), steps[1..], cfg);
    }
  }

  // ----- Session chains -----------------------------------------------------------------------------------

  /** The first token of the session each token belongs to: a refresh carries the session on, a login or the
      bootstrap starts one. */
  function ChainsAfter(s: State, step: Step, chains: seq<nat>, cfg: Config): seq<nat>
    requires |chains| == |s.tokens|
  {
    if |Next(s, step, cfg).tokens| == |s.tokens| then chains
    else match Redeemed(s, step, cfg)
      case Some(i) => chains + [if i < |chains| then chains[i] else |chains|]
      case None => chains + [|chains|]
  }

  function Chains(s: State, steps: seq<Step>, chains: seq<nat>, cfg: Config): (r: seq<nat>)
    requires |chains| == |s.tokens|
    ensures |r| == |Run(s, steps, cfg).tokens|
    decreases |steps|
  {
    if steps == [] then chains
    else
      TokensStay(s, steps[0], cfg);
      Chains(Next(s, steps[0], cfg), steps[1..], ChainsAfter(s, steps[0], chains, cfg), cfg)
  }

  /** Only the newest token of a session can be unrevoked. */
  ghost predicate NewestLive(tokens: seq<Token>, chains: seq<nat>) {
    && |chains| == |tokens|
    && (forall i :: 0 <= i < |chains| ==> chains[i] <= i)
    && forall i, j :: 0 <= i < j < |chains| && chains[i] == chains[j] ==> tokens[i].revoked.Some?
  }

  lemma ChainStep(s: State, step: Step, chains: seq<nat>, cfg: Config)
    requires NewestLive(s.tokens, chains)
    ensures NewestLive(Next(s, step, cfg).tokens, ChainsAfter(s, step, chains, cfg))
  {
    var t, after := Next(s, step, cfg), ChainsAfter(s, step, chains, cfg);
    TokensStay(s, step, cfg);
    match Redeemed(s, step, cfg) {
      case None =>
      case Some(r) =>
        RedeemedIsRevoked(s, step, r, cfg);
        forall i | 0 <= i < |chains| && chains[i] == chains[r] ensures t.tokens[i].revoked.Some? {
          SameSession(s.tokens, chains, i, r);
          SameSession(s.tokens, chains, r, i);
        }
    }
  }

  lemma SameSession(tokens: seq<Token>, chains: seq<nat>, i: nat, j: nat)
    requires NewestLive(tokens, chains) && i < |chains| && j < |chains|
    ensures i < j && chains[i] == chains[j] ==> tokens[i].revoked.Some?
  {
  }

  lemma {:induction false} ChainsRun(s: State, steps: seq<Step>, chains: seq<nat>, cfg: Config)
    requires NewestLive(s.tokens, chains)
    ensures NewestLive(Run(s, steps, cfg).tokens, Chains(s, steps, chains, cfg))
    decreases |steps|
  {
    if steps != [] {
      ChainStep(s, steps[0], chains, cfg);
      ChainsRun(Next(s, steps[0], cfg), steps[1..], ChainsAfter(s, steps[0], chains, cfg), cfg);
    }
  }

  /** Over every run, a session has at most one unrevoked token, and it is the newest. */
  lemma SessionsHaveOneLiveToken(steps: seq<Step>, cfg: Config)
    ensures NewestLive(Run(Nobody(), steps, cfg).tokens, Chains(Nobody(), steps, [], cfg))
  {
    ChainsRun(Nobody(), steps, [], cfg);
  }
}
