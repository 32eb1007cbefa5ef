/** What sessions keep when refresh requests overlap between look-up and rotation. */
module RacingSessions {
  import opened Prelude
  import opened Identity
  import opened Races

  /** The token this act rotates, if it rotates one. */
  function Rotates(r: Race, act: Act): Option<nat> {
    if act.Rotate? && act.client in r.holding && r.holding[act.client] < |r.db.tokens|
    then Some(r.holding[act.client]) else None
  }

  // ----- Live tokens of an account ------------------------------------------------------------

  /** A rotation preserves the account's number of live tokens, unless somebody revoked the token since it was read:
      then there is one more. */
  lemma RotationAddsIffRevoked(r: Race, act: Act, user: nat, cfg: Config)
    requires Rotates(r, act).Some?
    ensures var spent := r.db.tokens[Rotates(r, act).value];
            LiveOf(Races.Next(r, act, cfg).db.tokens, user)
            == LiveOf(r.db.tokens, user) + if spent.user == user && spent.revoked.Some? then 1 else 0
  {
    var i := Rotates(r, act).value;
    var revoked := Revoke(r.db, i, act.now).tokens;
    LiveRevoke(r.db.tokens, i, act.now, user);
    LiveAppend(revoked, Issued(r.db.tokens[i].user, |revoked|, act.now, cfg.renewalLife), user);
  }

  lemma {:induction false} RotationsOfRevoked(r: Race, n: nat, now: int, i: nat, cfg: Config)
    requires i < |r.db.tokens| && r.db.tokens[i].revoked.Some?
    requires forall c :: 1 <= c <= n ==> c in r.holding && r.holding[c] == i
    ensures LiveOf(Races.Run(r, Rotations(n, now), cfg).db.tokens, r.db.tokens[i].user)
         == LiveOf(r.db.tokens, r.db.tokens[i].user) + n
    decreases n
  {
    if n > 0 {
      var act := Rotate(n, now);
      assert Rotations(n, now)[0] == act && Rotations(n, now)[1..] == Rotations(n - 1, now);
      RotationAddsIffRevoked(r, act, r.db.tokens[i].user, cfg);
      RotationsOfRevoked(Races.Next(r, act, cfg), n - 1, now, i, cfg);
    }
  }

  lemma RotationsOfLive(r: Race, n: nat, now: int, i: nat, cfg: Config)
    requires n > 0 && i < |r.db.tokens| && r.db.tokens[i].revoked.None?
    requires forall c :: 1 <= c <= n ==> c in r.holding && r.holding[c] == i
    ensures LiveOf(Races.Run(r, Rotations(n, now), cfg).db.tokens, r.db.tokens[i].user)
         == LiveOf(r.db.tokens, r.db.tokens[i].user) + n - 1
  {
    var act := Rotate(n, now);
    assert Rotations(n, now)[0] == act && Rotations(n, now)[1..] == Rotations(n - 1, now);
    RotationAddsIffRevoked(r, act, r.db.tokens[i].user, cfg);
    RotationsOfRevoked(Races.Next(r, act, cfg), n - 1, now, i, cfg);
  }

  /** n overlapping refreshes of one token leave n - 1 live tokens more than one would. */
  lemma OverlappingRefreshesMultiply(r: Race, n: nat, token: Jwt, now: int, i: nat, cfg: Config)
    requires n > 0 && r.holding == map[]
    requires RefreshRefusal(r.db, token, now).None? && ByHash(r.db.tokens, token) == Some(i)
    ensures LiveOf(Races.Run(r, TokenReads(n, token, now) + Rotations(n, now), cfg).db.tokens, r.db.tokens[i].user)
         == LiveOf(r.db.tokens, r.db.tokens[i].user) + n - 1
  {
    RunAppend(r, TokenReads(n, token, now), Rotations(n, now), cfg);
    TokenReadsHold(r, n, token, now, i, cfg);
    RotationsOfLive(Races.Run(r, TokenReads(n, token, now), cfg), n, now, i, cfg);
  }

  /** From nothing, n overlapping refreshes of the owner's first token leave n live ones. */
  lemma ManyLiveTokens(n: nat, cfg: Config)
    requires n > 0 && cfg.bootstrapEnabled && cfg.renewalLife >= SECOND
    ensures LiveOf(Races.Run(Start(), Refreshes(n, cfg), cfg).db.tokens, 0) == n
  {
    var token := Issued(0, 0, 0, cfg.renewalLife).hash;
    var first := [ReadCount(0), WriteOwner(0, "", None, "", 0)];
    Bootstrapped(cfg);
    RunAppend(Start(), first, TokenReads(n, token, 0) + Rotations(n, 0), cfg);
    OverlappingRefreshesMultiply(Races.Run(Start(), first, cfg), n, token, 0, 0, cfg);
  }

  // ----- Session chains -----------------------------------------------------------------------

  /** A rotation carries the session of its token on, any other new token starts one. */
  function ChainsAfterAct(r: Race, act: Act, chains: seq<nat>, cfg: Config): seq<nat>
    requires |chains| == |r.db.tokens|
  {
    if |Races.Next(r, act, cfg).db.tokens| == |chains| then chains
    else match Rotates(r, act)
      case Some(i) => chains + [chains[i]]
      case None => chains + [|chains|]
  }

  lemma OneMoreToken(r: Race, act: Act, cfg: Config)
    ensures |r.db.tokens| <= |Races.Next(r, act, cfg).db.tokens| <= |r.db.tokens| + 1
    ensures forall i :: 0 <= i < |r.db.tokens| && r.db.tokens[i].revoked.Some? ==>
      Races.Next(r, act, cfg).db.tokens[i].revoked.Some?
    ensures Rotates(r, act).Some? ==> forall i :: 0 <= i < |r.db.tokens| && i != Rotates(r, act).value ==>
      Races.Next(r, act, cfg).db.tokens[i] == r.db.tokens[i]
  {
    if act.Whole? { TokensStay(r.db, act.step, cfg); }
  }

  /** No token after i in the session of token i is live. */
  ghost predicate NoLiveSuccessor(tokens: seq<Token>, chains: seq<nat>, i: nat)
    requires |chains| == |tokens|
  {
    forall j :: i < j < |chains| && chains[j] == chains[i] ==> tokens[j].revoked.Some?
  }

  lemma RotationKeepsNewestIff(r: Race, act: Act, chains: seq<nat>, cfg: Config)
    requires NewestLive(r.db.tokens, chains) && Rotates(r, act).Some?
    ensures NewestLive(Races.Next(r, act, cfg).db.tokens, ChainsAfterAct(r, act, chains, cfg)) <==>
      NoLiveSuccessor(r.db.tokens, chains, Rotates(r, act).value)
  {
    var i := Rotates(r, act).value;
    var t, after := Races.Next(r, act, cfg).db.tokens, ChainsAfterAct(r, act, chains, cfg);
    OneMoreToken(r, act, cfg);
    assert |t| == |chains| + 1 && after == chains + [chains[i]];
    if NoLiveSuccessor(r.db.tokens, chains, i) {
      forall j | 0 <= j < |chains| && chains[j] == chains[i] ensures t[j].revoked.Some? {
        SameSession(r.db.tokens, chains, j, i);
      }
    } else {
      var j :| i < j < |chains| && chains[j] == chains[i] && r.db.tokens[j].revoked.None?;
      assert t[j].revoked.None? && after[j] == after[|chains|];
    }
  }

  lemma OthersKeepNewest(r: Race, act: Act, chains: seq<nat>, cfg: Config)
    requires NewestLive(r.db.tokens, chains) && Rotates(r, act).None?
    ensures NewestLive(Races.Next(r, act, cfg).db.tokens, ChainsAfterAct(r, act, chains, cfg))
  {
    OneMoreToken(r, act, cfg);
  }

  /** At every moment of the run, only the newest token of a session can be live. */
  ghost predicate AlwaysNewest(r: Race, acts: seq<Act>, chains: seq<nat>, cfg: Config)
    requires |chains| == |r.db.tokens|
    decreases |acts|
  {
    && NewestLive(r.db.tokens, chains)
    && (acts != [] ==>
         (OneMoreToken(r, acts[0], cfg);
          AlwaysNewest(Races.Next(r, acts[0], cfg), acts[1..], ChainsAfterAct(r, acts[0], chains, cfg), cfg)))
  }

  /** Whenever a token is rotated, its session has gone no further, or what came after it is revoked. */
  ghost predicate RotatesInTurn(r: Race, acts: seq<Act>, chains: seq<nat>, cfg: Config)
    requires |chains| == |r.db.tokens|
    decreases |acts|
  {
    acts != [] ==>
      && (Rotates(r, acts[0]).Some? ==> NoLiveSuccessor(r.db.tokens, chains, Rotates(r, acts[0]).value))
      && (OneMoreToken(r, acts[0], cfg);
          RotatesInTurn(Races.Next(r, acts[0], cfg), acts[1..], ChainsAfterAct(r, acts[0], chains, cfg), cfg))
  }

  lemma {:induction false} NewestIffInTurn(r: Race, acts: seq<Act>, chains: seq<nat>, cfg: Config)
    requires NewestLive(r.db.tokens, chains)
    ensures AlwaysNewest(r, acts, chains, cfg) <==> RotatesInTurn(r, acts, chains, cfg)
    decreases |acts|
  {
    if acts != [] {
      var next, after := Races.Next(r, acts[0], cfg), ChainsAfterAct(r, acts[0], chains, cfg);
      OneMoreToken(r, acts[0], cfg);
      if Rotates(r, acts[0]).Some? {
        RotationKeepsNewestIff(r, acts[0], chains, cfg);
      } else {
        OthersKeepNewest(r, acts[0], chains, cfg);
      }
      if NewestLive(next.db.tokens, after) { NewestIffInTurn(next, acts[1..], after, cfg); }
    }
  }

  /** A session has one live token at every moment of a run exactly if no rotation comes after another one has carried
      the session on to a token that is still live. */
  lemma OneLiveTokenIff(acts: seq<Act>, cfg: Config)
    ensures AlwaysNewest(Start(), acts, [], cfg) <==> RotatesInTurn(Start(), acts, [], cfg)
  {
    NewestIffInTurn(Start(), acts, [], cfg);
  }

  // ----- Refreshes that do not overlap --------------------------------------------------------

  /** No two refreshes under way have found the same token good. */
  ghost predicate Exclusive(r: Race) {
    forall c, d :: c in r.holding && d in r.holding && c != d ==> r.holding[c] != r.holding[d]
  }

  ghost predicate AlwaysExclusive(r: Race, acts: seq<Act>, cfg: Config)
    decreases |acts|
  {
    Exclusive(r) && (acts != [] ==> AlwaysExclusive(Races.Next(r, acts[0], cfg), acts[1..], cfg))
  }

  /** What is held is the last token of its session. */
  ghost predicate HeldIsLast(r: Race, chains: seq<nat>) {
    && |chains| == |r.db.tokens|
    && (forall c :: c in r.holding ==> r.holding[c] < |chains|)
    && forall c, j :: c in r.holding && r.holding[c] < j < |chains| ==> chains[j] != chains[r.holding[c]]
  }

  lemma LastIsInTurn(r: Race, act: Act, chains: seq<nat>)
    requires HeldIsLast(r, chains) && Rotates(r, act).Some?
    ensures NoLiveSuccessor(r.db.tokens, chains, Rotates(r, act).value)
  {
    assert act.client in r.holding;
  }

  lemma ReadHoldsLast(r: Race, act: Act, chains: seq<nat>, cfg: Config)
    requires HeldIsLast(r, chains) && NewestLive(r.db.tokens, chains) && act.ReadToken?
    ensures HeldIsLast(Races.Next(r, act, cfg), chains)
  {
    var t := Races.Next(r, act, cfg);
    forall c, j | c in t.holding && t.holding[c] < j < |chains| ensures chains[j] != chains[t.holding[c]] {
      if c !in r.holding { SameSession(r.db.tokens, chains, t.holding[c], j); }
    }
  }

  /** Two held tokens that are the last of the same session are one token. */
  lemma LastIsUnique(r: Race, chains: seq<nat>, c: nat, d: nat)
    requires HeldIsLast(r, chains) && Exclusive(r) && c in r.holding && d in r.holding && c != d
    ensures chains[r.holding[c]] != chains[r.holding[d]]
  {
    assert r.holding[c] != r.holding[d];
  }

  lemma RotationHoldsLast(r: Race, act: Act, chains: seq<nat>, cfg: Config)
    requires HeldIsLast(r, chains) && Exclusive(r) && Rotates(r, act).Some?
    ensures HeldIsLast(Races.Next(r, act, cfg), ChainsAfterAct(r, act, chains, cfg))
  {
    var t, after := Races.Next(r, act, cfg), ChainsAfterAct(r, act, chains, cfg);
    forall c, j | c in t.holding && t.holding[c] < j < |after| ensures after[j] != after[t.holding[c]] {
      if j == |chains| { LastIsUnique(r, chains, c, act.client); }
    }
  }

  lemma OthersHoldLast(r: Race, act: Act, chains: seq<nat>, cfg: Config)
    requires HeldIsLast(r, chains) && NewestLive(r.db.tokens, chains) && !act.ReadToken? && Rotates(r, act).None?
    ensures HeldIsLast(Races.Next(r, act, cfg), ChainsAfterAct(r, act, chains, cfg))
  {
    var t, after := Races.Next(r, act, cfg), ChainsAfterAct(r, act, chains, cfg);
    OneMoreToken(r, act, cfg);
    assert t.holding == r.holding;
  }

  lemma {:induction false} ExclusiveIsInTurn(r: Race, acts: seq<Act>, chains: seq<nat>, cfg: Config)
    requires HeldIsLast(r, chains) && NewestLive(r.db.tokens, chains) && AlwaysExclusive(r, acts, cfg)
    ensures RotatesInTurn(r, acts, chains, cfg)
    decreases |acts|
  {
    if acts != [] {
      var act := acts[0];
      OneMoreToken(r, act, cfg);
      if Rotates(r, act).Some? {
        LastIsInTurn(r, act, chains);
        RotationKeepsNewestIff(r, act, chains, cfg);
        RotationHoldsLast(r, act, chains, cfg);
      } else {
        OthersKeepNewest(r, act, chains, cfg);
        if act.ReadToken? { ReadHoldsLast(r, act, chains, cfg); } else { OthersHoldLast(r, act, chains, cfg); }
      }
      ExclusiveIsInTurn(Races.Next(r, act, cfg), acts[1..], ChainsAfterAct(r, act, chains, cfg), cfg);
    }
  }

  /** If no two refreshes of the same token ever overlap, a session has one live token at every moment. */
  lemma OneLiveTokenApart(acts: seq<Act>, cfg: Config)
    requires AlwaysExclusive(Start(), acts, cfg)
    ensures AlwaysNewest(Start(), acts, [], cfg)
  {
    ExclusiveIsInTurn(Start(), acts, [], cfg);
    NewestIffInTurn(Start(), acts, [], cfg);
  }
}
