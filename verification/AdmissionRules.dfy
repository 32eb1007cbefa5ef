/** Who is let in and how often, told by the stored columns of a key and its counter. */
module AdmissionRules {
  import opened Prelude
  import opened Text
  import opened RateLimit
  import opened Admission

  // ----- The limit of a key -------------------------------------------------------------------

  /** A key's own limit counts unless it is zero. */
  lemma OwnLimitCounts(key: ApiKey, default: int)
    ensures key.rateLimit != 0 ==> LimitOf(key, default) == key.rateLimit
    ensures key.rateLimit == 0 ==> LimitOf(key, default) == default
  {
  }

  /** Over all interleavings a key with a limit of its own has a hit let through exactly if fewer hits than that came
      before it in the lifetime of its counter. */
  lemma KeyIsHeldToItsLimit(key: ApiKey, default: int, now: int, steps: seq<Step>, window: int, k: nat)
    requires k < |Run(Init(now), steps, LimitOf(key, default), window).log|
    ensures var log := Run(Init(now), steps, LimitOf(key, default), window).log;
            && (key.rateLimit != 0 ==> (log[k].allowed <==> HitsIn(log[..k], log[k].life) < key.rateLimit))
            && (key.rateLimit == 0 ==> (log[k].allowed <==> HitsIn(log[..k], log[k].life) < default))
  {
    LifeAdmitsItsFirstHits(now, steps, LimitOf(key, default), window);
  }

  /** So one lifetime of the counter lets at most that many through. */
  lemma LifetimeOfKey(key: ApiKey, default: int, now: int, steps: seq<Step>, window: int, life: nat)
    requires life < |Run(Init(now), steps, LimitOf(key, default), window).births|
    ensures var admitted := AllowedPerLife(Run(Init(now), steps, LimitOf(key, default), window).log, life);
            && (key.rateLimit > 0 ==> admitted <= key.rateLimit)
            && (key.rateLimit < 0 ==> admitted == 0)
            && (key.rateLimit == 0 && default >= 0 ==> admitted <= default)
  {
    LifeAdmitsAtMostLimit(now, steps, LimitOf(key, default), window, life);
  }

  // ----- The counter of a key -----------------------------------------------------------------

  /** The number that a hit is given. */
  function Counted(e: Option<Entry>, now: int): nat {
    match e
    case None => 1
    case Some(entry) =>
      match entry.expires
      case Some(at) => if at <= now then 1 else entry.count + 1
      case None => entry.count + 1
  }

  lemma HitIsCounted(e: Option<Entry>, now: int)
    ensures Incr(e, now).count == Counted(e, now)
    ensures Incr(e, now).expires == (if e.Some? && Counted(e, now) == e.value.count + 1 && Live(e, now) == e
                                     then e.value.expires else None)
  {
  }

  /** Who is judged is let through exactly if the number of the hit is within the limit, and told what is left. */
  lemma JudgedByCount(e: Option<Entry>, now: int, limit: int, window: int)
    ensures var r := Judged(e, now, limit, window);
            && (r.allowed <==> Counted(e, now) <= limit) && r.limit == limit
            && (Counted(e, now) <= limit ==> r.remaining == limit - Counted(e, now) && r.retryAfter == 0)
            && (Counted(e, now) > limit ==> r.remaining == 0 && r.retryAfter == RetryAfter(e, now, window))
  {
    HitIsCounted(e, now);
  }

  /** Who is refused is told the nearest second to the time left, or a whole window if nothing limits the key yet. */
  lemma RetryIsNearest(e: Option<Entry>, now: int, window: int)
    ensures var r := RetryAfter(e, now, window);
            if e.Some? && e.value.expires.Some? && now < e.value.expires.value
            then 1000 * r - 500 <= e.value.expires.value - now < 1000 * r + 500
            else r == window
  {
  }

  /** An answered EXPIRE gives the key a whole window from then on, unless it is gone by then. */
  lemma ExpiryIsAWindow(e: Entry, now: int, window: int)
    requires e.expires.None?
    ensures Expire(Some(e), now, window) == if window > 0 then Some(e.(expires := Some(now + window))) else None
    ensures Expire(None, now, window) == None
  {
  }

  /** Every key has a counter of its own, named after its prefix. */
  lemma CounterTells(limiter: ScopedRateLimiter, key: ApiKey)
    ensures Counter(limiter, key) == limiter.namespace + (":api_key:" + key.prefix)
  {
    assert ":" + "api_key" + ":" == ":api_key:";
    Associates(limiter.namespace, ":", "api_key");
    Associates(limiter.namespace, ":" + "api_key", ":");
    Associates(limiter.namespace, ":api_key:", key.prefix);
  }

  // ----- Keys ---------------------------------------------------------------------------------

  /** A secret is accepted by the key that stores its hash, while that is enabled, not revoked and not expired. */
  lemma AcceptsIff(k: ApiKey, presented: string, hashing: string -> string, now: int)
    ensures Accepts(k, presented, hashing, now) <==>
      && |presented| >= 8 && presented[..8] == "xrx_live" && k.hash == hashing(presented)
      && k.enabled && k.revokedAt == None
      && match k.expiresAt case None => true case Some(at) => now < at
  {
  }

  /** Only the three known scopes can be given. */
  lemma ScopesTell(scopes: seq<string>)
    ensures ScopesKnown(Some(scopes)) <==>
      forall k :: 0 <= k < |scopes| ==> scopes[k] == "chat" || scopes[k] == "embeddings" || scopes[k] == "models"
    ensures ScopesKnown(None)
  {
    assert forall k :: 0 <= k < |scopes| ==> scopes[k] in scopes;
  }

  /** A field that is present replaces its column, one that is absent leaves it. */
  lemma PatchTells(row: KeyRow, p: Patch)
    ensures var r := Patched(row, p);
            && (p.name.Some? ==> r.name == p.name.value) && (p.name.None? ==> r.name == row.name)
            && (p.rateLimit.Some? ==> r.rateLimit == p.rateLimit.value)
            && (p.rateLimit.None? ==> r.rateLimit == row.rateLimit)
            && (p.quota.Some? ==> r.quota == p.quota.value) && (p.quota.None? ==> r.quota == row.quota)
            && (p.enabled.Some? ==> r.enabled == p.enabled.value) && (p.enabled.None? ==> r.enabled == row.enabled)
            && (p.expiresAt.Some? ==> r.expiresAt == p.expiresAt.value)
            && (p.expiresAt.None? ==> r.expiresAt == row.expiresAt)
            && (p.scopes.Some? ==> r.scopes == p.scopes.value) && (p.scopes.None? ==> r.scopes == row.scopes)
            && r.revokedAt == row.revokedAt && r.lastUsedAt == row.lastUsedAt
  {
  }

  /** Disabling stops a key at once and enabling lets it in again, unless it was revoked or has expired. */
  lemma EnablingDecides(row: KeyRow, enabled: bool, now: int)
    requires row.revokedAt.None? && (row.expiresAt.Some? ==> now < row.expiresAt.value)
    ensures EditedBy(row, Change(Patch(None, None, None, Some(enabled), None, None))).Usable(now) <==> enabled
  {
  }

  /** A revocation is recorded once and disables the key. */
  lemma RevocationTells(row: KeyRow, at: int)
    ensures var r := EditedBy(row, Revocation(at));
            && r == row.(revokedAt := r.revokedAt, enabled := r.enabled)
            && (row.revokedAt == None ==> r.revokedAt == Some(at) && !r.enabled)
            && (row.revokedAt != None ==> r == row)
  {
  }

  // ----- The presented secret -----------------------------------------------------------------

  lemma {:induction false} LowerLength(s: string)
    requires 'i' !in Lower(s)
    ensures |Lower(s)| == |s|
  {
    if s != [] {
      assert forall ch :: ch in Lower(s[1..]) ==> ch in Lower(s);
      assert LowerOf(s[0])[0] in Lower(s);
      LowerLength(s[1..]);
    }
  }

  /** A bearer token, however the word is cased, is taken without the space around it, whatever the other header
      says. */
  lemma BearerWins(word: string, token: string, xApiKey: Option<string>)
    requires Lower(word) == "bearer "
    ensures Presented(Some(word + token), xApiKey) == Strip(token)
  {
    LowerLength(word);
    LowerConcat(word, token);
    assert (word + token)[7..] == token;
    assert "bearer " <= Lower(word + token);
  }

  /** Otherwise the other header counts. */
  lemma OtherHeaderCounts(authorization: Option<string>, xApiKey: Option<string>)
    requires authorization.Some? ==> |Lower(authorization.value)| < 7 || Lower(authorization.value)[..7] != "bearer "
    ensures Presented(authorization, xApiKey) == match xApiKey case None => "" case Some(secret) => secret
  {
  }

  /** Who cannot be judged is let through with the whole limit left. */
  lemma LetThroughTells(limit: int)
    ensures var r := LetThrough(limit);
            r.allowed && r.remaining == limit && r.retryAfter == 0 && r.limit == limit && r.backend == Bypassed
  {
  }
}
