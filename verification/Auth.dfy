/** The authentication service over its stored accounts and refresh tokens. */
module Auth {
  import opened Prelude
  import opened Text
  import opened Identity

  class AdminUser {
    const id: nat
    const email: string
    var name: Option<string>
    var password: string
    var role: Role
    var status: Status
    var lastLogin: Option<int>
    var failedLogins: nat

    constructor (id: nat, email: string, name: Option<string>, password: string, role: Role)
      ensures this.id == id && Row() == User(email, name, password, role, Active, None, 0)
    {
      this.id, this.email, this.name, this.password, this.role := id, email, name, password, role;
      status, lastLogin, failedLogins := Active, None, 0;
    }

    function Row(): User
      reads this
    {
      User(email, name, password, role, status, lastLogin, failedLogins)
    }

    /** Sets the fields that are present. */
    method Set(c: Changes)
      modifies this
      ensures Row() == Changed(old(Row()), c)
    {
      if c.name.Some? { name := c.name; }
      if c.role.Some? { role := c.role.value; }
      if c.status.Some? { status := c.status.value; }
    }
  }

  class RefreshToken {
    const id: nat
    const user: nat
    const hash: Jwt
    const jti: nat
    const expires: int
    var revoked: Option<int>

    constructor (id: nat, row: Token)
      ensures this.id == id && Row() == row.(revoked := None)
    {
      this.id, user, hash, jti, expires, revoked := id, row.user, row.hash, row.jti, row.expires, None;
    }

    function Row(): Token
      reads this
    {
      Token(user, hash, jti, expires, revoked)
    }

    method Revoke(now: int)
      modifies this
      ensures Row() == old(Row()).(revoked := Some(now))
    {
      revoked := Some(now);
    }
  }

  function UserRows(users: seq<AdminUser>): (rows: seq<User>)
    reads users
    ensures |rows| == |users| && forall i :: 0 <= i < |users| ==> rows[i] == users[i].Row()
  {
    if users == [] then [] else [users[0].Row()] + UserRows(users[1..])
  }

  function TokenRows(tokens: seq<RefreshToken>): (rows: seq<Token>)
    reads tokens
    ensures |rows| == |tokens| && forall i :: 0 <= i < |tokens| ==> rows[i] == tokens[i].Row()
  {
    if tokens == [] then [] else [tokens[0].Row()] + TokenRows(tokens[1..])
  }

  class AuthService {
    var users: seq<AdminUser>
    var tokens: seq<RefreshToken>
    const cfg: Config

    constructor (cfg: Config)
      ensures this.cfg == cfg && Valid() && View() == Nobody()
    {
      this.cfg, users, tokens := cfg, [], [];
    }

    ghost predicate Valid()
      reads this
    {
      && (forall i :: 0 <= i < |users| ==> users[i].id == i)
      && forall i :: 0 <= i < |tokens| ==> tokens[i].id == i
    }

    function View(): State
      reads this, users, tokens
    {
      State(UserRows(users), TokenRows(tokens))
    }

    method IssueSession(user: nat, now: int)
      requires Valid()
      modifies this`tokens
      ensures Valid() && View() == WithSession(old(View()), user, now, cfg)
    {
      var t := new RefreshToken(|tokens|, Issued(user, |tokens|, now, cfg.renewalLife));
      tokens := tokens + [t];
    }

    method AddUser(email: string, name: Option<string>, password: string, role: Role)
      requires Valid()
      modifies this`users
      ensures Valid() && View().tokens == old(View()).tokens
      ensures View().users
           == old(View()).users + [User(Lower(email), name, cfg.hashing(password), role, Active, None, 0)]
    {
      var u := new AdminUser(|users|, Lower(email), name, cfg.hashing(password), role);
      users := users + [u];
    }

    method BootstrapOwner(email: string, name: Option<string>, password: string, now: int) returns (r: Option<Refusal>)
      requires Valid()
      modifies this
      ensures Valid() && r == Refused(old(View()), Bootstrap(email, name, password, now), cfg)
      ensures View() == Next(old(View()), Bootstrap(email, name, password, now), cfg)
    {
      if !cfg.bootstrapEnabled { return Some(BootstrapDisabled); }
      if |users| > 0 { return Some(BootstrapClosed); }
      AddUser(email, name, password, Owner);
      IssueSession(0, now);
      return None;
    }

    method MarkLogin(i: nat, now: int)
      requires Valid() && i < |users|
      modifies users
      ensures Valid() && View().tokens == old(View()).tokens
      ensures View().users == old(View()).users[i := old(View()).users[i].(lastLogin := Some(now), failedLogins := 0)]
    {
      users[i].lastLogin, users[i].failedLogins := Some(now), 0;
    }

    method SetAt(i: nat, changes: Changes)
      requires Valid() && i < |users|
      modifies users
      ensures Valid() && View() == old(View()).(users := old(View()).users[i := Changed(old(View()).users[i], changes)])
    {
      users[i].Set(changes);
    }

    method Authenticate(email: string, password: string, now: int) returns (r: Option<Refusal>)
      requires Valid()
      modifies this`tokens, users
      ensures Valid() && r == Refused(old(View()), Login(email, password, now), cfg)
      ensures View() == Next(old(View()), Login(email, password, now), cfg)
    {
      var found := ByEmail(UserRows(users), email);
      if found.None? || users[found.value].password != cfg.hashing(password) { return Some(InvalidCredentials); }
      var user := users[found.value];
      if !user.status.Active? { return Some(AccountInactive); }
      MarkLogin(found.value, now);
      IssueSession(found.value, now);
      return None;
    }

    method RevokeAt(i: nat, now: int)
      requires Valid() && i < |tokens|
      modifies tokens
      ensures Valid() && View() == Identity.Revoke(old(View()), i, now)
    {
      tokens[i].Revoke(now);
    }

    method Redeem(token: Jwt, now: int) returns (r: Option<Refusal>)
      requires Valid()
      modifies this`tokens, tokens
      ensures Valid() && r == Refused(old(View()), Refresh(token, now), cfg)
      ensures View() == Next(old(View()), Refresh(token, now), cfg)
    {
      if !token.signed { return Some(TokenInvalid); }
      if token.exp <= now { return Some(TokenExpired); }
      if !token.kind.Renewal? { return Some(TokenTypeInvalid); }
      var found := ByHash(TokenRows(tokens), token);
      if found.None? || tokens[found.value].revoked.Some? { return Some(TokenRevoked); }
      var stored := tokens[found.value];
      if stored.expires < now { return Some(TokenExpired); }
      if stored.jti != token.jti { return Some(TokenInvalid); }
      if stored.user >= |users| || !users[stored.user].status.Active? { return Some(AccountInactive); }
      RevokeAt(found.value, now);
      IssueSession(stored.user, now);
      return None;
    }

    method LogOut(presented: Option<Jwt>, now: int)
      requires Valid()
      modifies tokens
      ensures Valid() && View() == Next(old(View()), Logout(presented, now), cfg)
    {
      if presented.Some? {
        var found := ByHash(TokenRows(tokens), presented.value);
        if found.Some? && tokens[found.value].revoked.None? {
          RevokeAt(found.value, now);
        }
      }
    }

    method Create(actor: nat, email: string, name: Option<string>, password: string, role: Role)
      returns (r: Option<Refusal>)
      requires Valid()
      modifies this`users
      ensures Valid() && r == Refused(old(View()), Step.CreateUser(actor, email, name, password, role), cfg)
      ensures View() == Next(old(View()), Step.CreateUser(actor, email, name, password, role), cfg)
    {
      if actor >= |users| || !users[actor].Row().Manages() { return Some(InsufficientRole); }
      if |password| < cfg.minLength { return Some(PasswordTooShort); }
      if role.Owner? && !users[actor].role.Owner? { return Some(RoleEscalation); }
      if ByEmail(UserRows(users), email).Some? { return Some(EmailTaken); }
      AddUser(email, name, password, role);
      return None;
    }

    method Update(actor: nat, target: nat, changes: Changes) returns (r: Option<Refusal>)
      requires Valid()
      modifies users
      ensures Valid() && r == Refused(old(View()), Step.UpdateUser(actor, target, changes), cfg)
      ensures View() == Next(old(View()), Step.UpdateUser(actor, target, changes), cfg)
    {
      if actor >= |users| || !users[actor].Row().Manages() { return Some(InsufficientRole); }
      if target >= |users| { return Some(NotFound); }
      if target == actor && changes.status == Some(Suspended) { return Some(CannotSuspendSelf); }
      if changes.role.Some? {
        if target == actor { return Some(SelfRoleChange); }
        if changes.role.value.Owner? && !users[actor].role.Owner? { return Some(RoleEscalation); }
        if users[target].role.Owner? && !changes.role.value.Owner? { return Some(OwnerRoleProtected); }
      }
      SetAt(target, changes);
      return None;
    }
  }
}
