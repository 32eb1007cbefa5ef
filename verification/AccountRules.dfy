/** Who may do what to administrator accounts, told by roles, statuses and stored rows alone. */
module AccountRules {
  import opened Prelude
  import opened Text
  import opened Identity
  import Races
  import RacingSessions

  // ----- Who may manage -----------------------------------------------------------------------

  /** Accounts are created and changed by active owners and admins; everybody else is refused, and nothing happens. */
  lemma OnlyManagersChangeAccounts(s: State, step: Step, cfg: Config)
    requires step.CreateUser? || step.UpdateUser?
    ensures Refused(s, step, cfg) != Some(InsufficientRole) <==>
      && step.actor < |s.users| && s.users[step.actor].status == Active
      && (s.users[step.actor].role == Owner || s.users[step.actor].role == Admin)
    ensures Refused(s, step, cfg).Some? ==> Next(s, step, cfg) == s
  {
  }

  /** The same where requests interleave: nobody else gets an update under way. */
  lemma OnlyManagersBeginUpdates(r: Races.Race, client: nat, actor: nat, cfg: Config)
    requires client !in r.pending
    ensures client in Races.Next(r, Races.ReadActor(client, actor), cfg).pending <==>
      && actor < |r.db.users| && r.db.users[actor].status == Active
      && (r.db.users[actor].role == Owner || r.db.users[actor].role == Admin)
  {
  }

  /** In state s this step creates account i: the bootstrap does, or an active owner or admin. */
  ghost predicate Creates(s: State, step: Step, i: nat, cfg: Config) {
    && i == |s.users| < |Next(s, step, cfg).users|
    && match step
       case Bootstrap(_, _, _, _) => i == 0
       case CreateUser(actor, _, _, _, _) =>
         && actor < |s.users| && s.users[actor].status == Active
         && (s.users[actor].role == Owner || s.users[actor].role == Admin)
       case _ => false
  }

  lemma OneStepCreates(s: State, step: Step, i: nat, cfg: Config)
    requires |s.users| <= i < |Next(s, step, cfg).users|
    ensures Creates(s, step, i, cfg)
  {
  }

  /** Every account beyond the first stems from somebody who was an active owner or admin then. */
  lemma {:induction false} EveryAccountWasCreated(steps: seq<Step>, i: nat, cfg: Config)
    requires i < |Run(Nobody(), steps, cfg).users|
    ensures exists k :: 0 <= k < |steps| && Creates(Run(Nobody(), steps[..k], cfg), steps[k], i, cfg)
    decreases |steps|
  {
    var k := |steps| - 1;
    if steps != [] {
      var before := Run(Nobody(), steps[..k], cfg);
      RunSplit(Nobody(), steps, k, cfg);
      assert steps[..k + 1] == steps;
      if i < |before.users| {
        EveryAccountWasCreated(steps[..k], i, cfg);
        var j :| 0 <= j < k && Creates(Run(Nobody(), steps[..k][..j], cfg), steps[..k][j], i, cfg);
        assert steps[..k][..j] == steps[..j];
      } else {
        OneStepCreates(before, steps[k], i, cfg);
      }
    }
  }

  // ----- When requests are refused, and why ---------------------------------------------------

  predicate Manager(s: State, actor: nat) {
    actor < |s.users| && s.users[actor].status == Active && s.users[actor].role in {Owner, Admin}
  }

  /** Each refusal of an update has its own condition; an update that meets none of them is carried out. */
  lemma UpdateReasons(s: State, actor: nat, target: nat, c: Changes)
    ensures var r := UpdateRefusal(s, actor, target, c);
            && (r == Some(InsufficientRole) <==> !Manager(s, actor))
            && (r == Some(NotFound) <==> Manager(s, actor) && target >= |s.users|)
            && (r == Some(CannotSuspendSelf) <==> Manager(s, actor) && target == actor && c.status == Some(Suspended))
            && (r == Some(SelfRoleChange) <==>
                  Manager(s, actor) && target == actor && c.status != Some(Suspended) && c.role != None)
            && (r == Some(RoleEscalation) <==>
                  && Manager(s, actor) && target < |s.users| && target != actor
                  && c.role == Some(Owner) && s.users[actor].role == Admin)
            && (r == Some(OwnerRoleProtected) <==>
                  && Manager(s, actor) && target < |s.users| && target != actor
                  && s.users[target].role == Owner && c.role in {Some(Admin), Some(Operator), Some(Viewer)})
            && r in {None, Some(InsufficientRole), Some(NotFound), Some(CannotSuspendSelf), Some(SelfRoleChange),
                     Some(RoleEscalation), Some(OwnerRoleProtected)}
  {
  }

  /** No two accounts share an address, so look-ups by address find the account there is. */
  lemma FoundByAddress(users: seq<User>, email: string, i: nat)
    requires EmailsDistinct(users) && i < |users|
    ensures ByEmail(users, email) == Some(i) <==> users[i].email == Normalized(email)
  {
    match ByEmail(users, email)
    case None => assert users[i] in users;
    case Some(k) =>
      assert Lower(users[k].email) == users[k].email == Normalized(email);
      assert i < k || k < i ==> users[i].email != users[k].email;
  }

  lemma CreateReasons(s: State, actor: nat, email: string, password: string, role: Role, cfg: Config)
    ensures var r := CreateRefusal(s, actor, email, password, role, cfg);
            && (r == Some(InsufficientRole) <==> !Manager(s, actor))
            && (r == Some(PasswordTooShort) <==> Manager(s, actor) && |password| < cfg.minLength)
            && (r == Some(RoleEscalation) <==>
                  && Manager(s, actor) && |password| >= cfg.minLength
                  && role == Owner && s.users[actor].role == Admin)
            && (r == Some(EmailTaken) <==>
                  && Manager(s, actor) && |password| >= cfg.minLength
                  && !(role == Owner && s.users[actor].role == Admin)
                  && exists u :: u in s.users && Lower(u.email) == Lower(Strip(email)))
            && r in {None, Some(InsufficientRole), Some(PasswordTooShort), Some(RoleEscalation), Some(EmailTaken)}
  {
    if ByEmail(s.users, email).Some? { assert s.users[ByEmail(s.users, email).value] in s.users; }
  }

  /** A login needs the password of the account with the given address, and that the account is active. */
  lemma LoginReasons(s: State, email: string, password: string, cfg: Config)
    requires EmailsDistinct(s.users)
    ensures var r := LoginRefusal(s, email, password, cfg);
            && (r == None <==>
                  exists i :: 0 <= i < |s.users| && LetsIn(s.users[i], email, password, cfg)
                                && s.users[i].status == Active)
            && (r == Some(AccountInactive) <==>
                  exists i :: 0 <= i < |s.users| && LetsIn(s.users[i], email, password, cfg)
                                && s.users[i].status != Active)
            && r in {None, Some(AccountInactive), Some(InvalidCredentials)}
  {
    forall i | 0 <= i < |s.users|
      ensures ByEmail(s.users, email) == Some(i) <==> s.users[i].email == Normalized(email)
    {
      FoundByAddress(s.users, email, i);
    }
    if ByEmail(s.users, email).Some? {
      var k := ByEmail(s.users, email).value;
      assert s.users[k].email == Normalized(email);
    }
  }

  predicate LetsIn(u: User, email: string, password: string, cfg: Config) {
    u.email == Lower(Strip(email)) && u.password == cfg.hashing(password)
  }

  lemma BootstrapReasons(s: State, cfg: Config)
    ensures BootstrapRefusal(s, cfg) ==
            if !cfg.bootstrapEnabled then Some(BootstrapDisabled)
            else if |s.users| > 0 then Some(BootstrapClosed)
            else None
  {
  }

  // ----- What a request leaves behind ---------------------------------------------------------

  /** The bootstrap leaves one active owner, a creation one more active account with the role that was asked for. */
  lemma NewAccount(s: State, step: Step, cfg: Config)
    requires (step.Bootstrap? || step.CreateUser?) && Refused(s, step, cfg).None?
    ensures var t := Next(s, step, cfg); var u := t.users[|t.users| - 1];
            && |t.users| == |s.users| + 1 && t.users[..|s.users|] == s.users
            && u.email == Lower(step.email) && u.name == step.name && u.password == cfg.hashing(step.password)
            && u.status == Active && u.role == (if step.Bootstrap? then Owner else step.role)
            && u.lastLogin == None && u.failedLogins == 0
  {
  }

  /** An update sets what was asked for and nothing else; nothing can be set to null. */
  lemma UpdatedAccount(s: State, step: Step, cfg: Config)
    requires step.UpdateUser? && Refused(s, step, cfg).None?
    ensures var t := Next(s, step, cfg); var u, v := s.users[step.target], t.users[step.target];
            && t.tokens == s.tokens && |t.users| == |s.users|
            && (forall i :: 0 <= i < |s.users| && i != step.target ==> t.users[i] == s.users[i])
            && v.email == u.email && v.password == u.password && v.lastLogin == u.lastLogin
            && v.name == (if step.changes.name.Some? then step.changes.name else u.name)
            && (match step.changes.role case Some(role) => v.role == role case None => v.role == u.role)
            && (match step.changes.status case Some(status) => v.status == status case None => v.status == u.status)
  {
  }

  /** A new token is live and lives as long as configured; the signed expiry drops the fraction of a second. */
  lemma NewToken(s: State, step: Step, cfg: Config)
    requires step.Bootstrap? || step.Login? || step.Refresh?
    requires Refused(s, step, cfg).None?
    ensures var t := Next(s, step, cfg); var token := t.tokens[|t.tokens| - 1];
            && |t.tokens| == |s.tokens| + 1
            && token.revoked == None && token.expires == step.now + cfg.renewalLife
            && token.hash.signed && token.hash.kind == Renewal && token.hash.subject == token.user
            && token.hash.exp <= token.expires < token.hash.exp + 1_000_000 && token.hash.exp % 1_000_000 == 0
  {
  }

  /** A login is remembered. */
  lemma LoginIsRemembered(s: State, step: Step, cfg: Config)
    requires step.Login? && Refused(s, step, cfg).None?
    ensures var t := Next(s, step, cfg); var user := t.tokens[|s.tokens|].user;
            && user < |s.users| && |t.users| == |s.users|
            && t.users[user].lastLogin == Some(step.now) && t.users[user].failedLogins == 0
            && forall i :: 0 <= i < |s.users| && i != user ==> t.users[i] == s.users[i]
  {
  }

  // ----- Sessions -----------------------------------------------------------------------------

  /** Why a refresh is refused, in the order of its checks. */
  lemma RefreshReasons(s: State, token: Jwt, now: int)
    ensures var r := RefreshRefusal(s, token, now); var i := ByHash(s.tokens, token);
            var genuine := token.signed && token.exp > now && token.kind == Renewal;
            && (!token.signed ==> r == Some(TokenInvalid))
            && (token.signed && token.exp <= now ==> r == Some(TokenExpired))
            && (token.signed && token.exp > now && token.kind != Renewal ==> r == Some(TokenTypeInvalid))
            && (genuine && (forall t :: t in s.tokens ==> t.hash != token) ==> r == Some(TokenRevoked))
            && (genuine && i.Some? ==>
                  var t := s.tokens[i.value];
                  && t.hash == token
                  && (t.revoked != None ==> r == Some(TokenRevoked))
                  && (t.revoked == None && t.expires < now ==> r == Some(TokenExpired))
                  && (t.revoked == None && t.expires >= now && t.jti != token.jti ==> r == Some(TokenInvalid))
                  && (t.revoked == None && t.expires >= now && t.jti == token.jti ==>
                        if t.user < |s.users| && s.users[t.user].status == Active then r == None
                        else r == Some(AccountInactive)))
  {
    if ByHash(s.tokens, token).Some? { assert s.tokens[ByHash(s.tokens, token).value] in s.tokens; }
  }

  /** A refresh revokes the token it was given, now, and nothing else but the new token changes. */
  lemma RefreshTells(s: State, token: Jwt, now: int, cfg: Config)
    requires RefreshRefusal(s, token, now).None?
    ensures var t := Next(s, Refresh(token, now), cfg); var i := ByHash(s.tokens, token).value;
            && t.users == s.users && |t.tokens| == |s.tokens| + 1
            && t.tokens[i] == s.tokens[i].(revoked := Some(now)) && t.tokens[|s.tokens|].user == s.tokens[i].user
            && forall j :: 0 <= j < |s.tokens| && j != i ==> t.tokens[j] == s.tokens[j]
  {
  }

  /** A logout revokes the stored token that was presented, if it was live, and nothing else happens. */
  lemma LogoutTells(s: State, presented: Option<Jwt>, now: int, cfg: Config)
    ensures var t := Next(s, Logout(presented, now), cfg);
            && t.users == s.users && |t.tokens| == |s.tokens|
            && forall j :: 0 <= j < |s.tokens| ==>
                 t.tokens[j] ==
                 if presented != None && ByHash(s.tokens, presented.value) == Some(j) && s.tokens[j].revoked == None
                 then s.tokens[j].(revoked := Some(now)) else s.tokens[j]
  {
  }

  /** A refresh carries the session of its token on; a login or the bootstrap starts a session of its own. */
  lemma SessionTells(s: State, step: Step, chains: seq<nat>, cfg: Config)
    requires |chains| == |s.tokens|
    ensures var after := ChainsAfter(s, step, chains, cfg);
            && (step.Refresh? && Refused(s, step, cfg).None? ==>
                  after == chains + [chains[ByHash(s.tokens, step.token).value]])
            && ((step.Login? || step.Bootstrap?) && Refused(s, step, cfg).None? ==> after == chains + [|chains|])
            && (Refused(s, step, cfg).Some? || step.Logout? || step.CreateUser? || step.UpdateUser? ==> after == chains)
  {
  }

  /** The same where rotations interleave with other requests. */
  lemma RacingSessionTells(r: Races.Race, act: Races.Act, chains: seq<nat>, cfg: Config)
    requires |chains| == |r.db.tokens|
    ensures var after := RacingSessions.ChainsAfterAct(r, act, chains, cfg);
            var more := |Races.Next(r, act, cfg).db.tokens| > |chains|;
            && (act.Rotate? && act.client in r.holding && r.holding[act.client] < |chains| ==>
                  after == chains + [chains[r.holding[act.client]]])
            && (!act.Rotate? ==> after == if more then chains + [|chains|] else chains)
  {
    RacingSessions.OneMoreToken(r, act, cfg);
  }

  // ----- Owners -------------------------------------------------------------------------------

  /** In state s this step makes account i an owner: the bootstrap does, or an active owner who asks for that role. */
  ghost predicate MakesOwner(s: State, step: Step, i: nat, cfg: Config) {
    && !(i < |s.users| && s.users[i].role == Owner)
    && i < |Next(s, step, cfg).users| && Next(s, step, cfg).users[i].role == Owner
    && match step
       case Bootstrap(_, _, _, _) => s.users == [] && i == 0
       case CreateUser(actor, _, _, _, role) =>
         && role == Owner && i == |s.users|
         && actor < |s.users| && s.users[actor].role == Owner && s.users[actor].status == Active
       case UpdateUser(actor, target, changes) =>
         && changes.role == Some(Owner) && target == i && actor != i
         && actor < |s.users| && s.users[actor].role == Owner && s.users[actor].status == Active
       case _ => false
  }

  lemma OneStepMakesOwner(s: State, step: Step, i: nat, cfg: Config)
    requires !IsOwner(s, i) && IsOwner(Next(s, step, cfg), i)
    ensures MakesOwner(s, step, i, cfg)
  {
  }

  /** Every owner was bootstrapped or made one by an active owner who asked for it. */
  lemma {:induction false} EveryOwnerWasMade(steps: seq<Step>, i: nat, cfg: Config)
    requires IsOwner(Run(Nobody(), steps, cfg), i)
    ensures exists k :: 0 <= k < |steps| && MakesOwner(Run(Nobody(), steps[..k], cfg), steps[k], i, cfg)
    decreases |steps|
  {
    var k := |steps| - 1;
    if steps != [] {
      var before := Run(Nobody(), steps[..k], cfg);
      RunSplit(Nobody(), steps, k, cfg);
      assert steps[..k + 1] == steps;
      if IsOwner(before, i) {
        EveryOwnerWasMade(steps[..k], i, cfg);
        var j :| 0 <= j < k && MakesOwner(Run(Nobody(), steps[..k][..j], cfg), steps[..k][j], i, cfg);
        assert steps[..k][..j] == steps[..j];
      } else {
        OneStepMakesOwner(before, steps[k], i, cfg);
      }
    }
  }

  // ----- Writes of interleaving requests ------------------------------------------------------

  /** A column is written exactly if a value was given that differs from the one that was read. */
  lemma WrittenTells(u: User, seen: User, c: Changes)
    ensures var v := Races.Written(u, seen, c);
            && v == u.(name := v.name, role := v.role, status := v.status)
            && v.name == (if c.name == None || c.name == seen.name then u.name else c.name)
            && v.role == (match c.role case None => u.role
                                       case Some(role) => if role == seen.role then u.role else role)
            && v.status == (match c.status case None => u.status
                                           case Some(status) => if status == seen.status then u.status else status)
  {
  }

  /** Whatever is not split into steps happens at once, and what is does not happen otherwise. */
  lemma WholeIsAtomic(r: Races.Race, step: Step, cfg: Config)
    ensures step.Login? || step.Logout? || step.CreateUser? ==>
      Races.Next(r, Races.Whole(step), cfg) == r.(db := Next(r.db, step, cfg))
    ensures step.Bootstrap? || step.Refresh? || step.UpdateUser? ==> Races.Next(r, Races.Whole(step), cfg) == r
  {
  }

  /** Whoever writes an owner, carries a token on or writes an update is done with it, whatever comes of it. */
  lemma WritesEnd(r: Races.Race, act: Races.Act, cfg: Config)
    ensures act.WriteOwner? ==> Races.Next(r, act, cfg).waiting == r.waiting - {act.client}
    ensures act.Rotate? && act.client in r.holding && r.holding[act.client] < |r.db.tokens| ==>
      Races.Next(r, act, cfg).holding == r.holding - {act.client}
    ensures act.WriteUpdate? && act.client in r.pending && r.pending[act.client].Updating?
            && r.pending[act.client].target < |r.db.users| ==>
      Races.Next(r, act, cfg).pending == r.pending - {act.client}
  {
  }
}
