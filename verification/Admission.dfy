/** API keys and the checks a gateway request passes before its route runs. */
module Admission {
  import opened Prelude
  import opened Text
  import opened RateLimit
  import Gateway
  import Quota

  // ----- API keys ------------------------------------------------------------------------------

  /** The columns an operator or the gateway can change. */
  datatype KeyRow = KeyRow(name: string, scopes: seq<string>, rateLimit: int, quota: Option<int>, enabled: bool,
                           expiresAt: Option<int>, revokedAt: Option<int>, lastUsedAt: Option<int>)
  {
    predicate Usable(now: int) {
      enabled && revokedAt.None? && (expiresAt.Some? ==> now < expiresAt.value)
    }
  }

  /** The fields present in an update. */
  datatype Patch = Patch(name: Option<string>, rateLimit: Option<int>, quota: Option<Option<int>>,
                         enabled: Option<bool>, expiresAt: Option<Option<int>>, scopes: Option<seq<string>>)

  const KNOWN_SCOPES := ["chat", "embeddings", "models"]

  predicate ScopesKnown(scopes: Option<seq<string>>) {
    scopes.Some? ==> forall s :: s in scopes.value ==> s in KNOWN_SCOPES
  }

  function Patched(row: KeyRow, p: Patch): KeyRow {
    row.(name := p.name.Or(row.name), rateLimit := p.rateLimit.Or(row.rateLimit), quota := p.quota.Or(row.quota),
         enabled := p.enabled.Or(row.enabled), expiresAt := p.expiresAt.Or(row.expiresAt),
         scopes := p.scopes.Or(row.scopes))
  }

  function RevokedAt(row: KeyRow, now: int): KeyRow {
    if row.revokedAt.None? then row.(revokedAt := Some(now), enabled := false) else row
  }

  class ApiKey {
    const id: nat
    const prefix: string
    const hash: string
    var name: string
    var scopes: seq<string>
    var rateLimit: int
    var quota: Option<int>
    var enabled: bool
    var expiresAt: Option<int>
    var revokedAt: Option<int>
    var lastUsedAt: Option<int>

    constructor (id: nat, prefix: string, hash: string, name: string, scopes: seq<string>, rateLimit: int,
                 quota: Option<int>, expiresAt: Option<int>)
      ensures this.id == id && this.prefix == prefix && this.hash == hash
      ensures Row() == KeyRow(name, if scopes == [] then KNOWN_SCOPES else scopes, rateLimit, quota, true,
                              expiresAt, None, None)
    {
      this.id, this.prefix, this.hash, this.name, this.rateLimit := id, prefix, hash, name, rateLimit;
      this.scopes := if scopes == [] then KNOWN_SCOPES else scopes;
      this.quota, this.expiresAt := quota, expiresAt;
      enabled, revokedAt, lastUsedAt := true, None, None;
    }

    function Row(): KeyRow
      reads this
    {
      KeyRow(name, scopes, rateLimit, quota, enabled, expiresAt, revokedAt, lastUsedAt)
    }

    /** An update with an unknown scope is refused as a whole. */
    method Update(p: Patch) returns (ok: bool)
      modifies this
      ensures ok == ScopesKnown(p.scopes)
      ensures Row() == if ok then Patched(old(Row()), p) else old(Row())
    {
      if !ScopesKnown(p.scopes) {
        return false;
      }
      if p.name.Some? { name := p.name.value; }
      if p.rateLimit.Some? { rateLimit := p.rateLimit.value; }
      if p.quota.Some? { quota := p.quota.value; }
      if p.enabled.Some? { enabled := p.enabled.value; }
      if p.expiresAt.Some? { expiresAt := p.expiresAt.value; }
      if p.scopes.Some? { scopes := p.scopes.value; }
      return true;
    }

    method Revoke(now: int)
      modifies this
      ensures Row() == RevokedAt(old(Row()), now)
    {
      if revokedAt.None? {
        revokedAt := Some(now);
        enabled := false;
      }
    }

    method Touch(now: int)
      modifies this`lastUsedAt
      ensures lastUsedAt == Some(now)
    {
      lastUsedAt := Some(now);
    }
  }

  datatype Edit = Change(p: Patch) | Revocation(at: int) | Use(at: int)

  function EditedBy(row: KeyRow, edit: Edit): KeyRow {
    match edit
    case Change(p) => if ScopesKnown(p.scopes) then Patched(row, p) else row
    case Revocation(at) => RevokedAt(row, at)
    case Use(at) => row.(lastUsedAt := Some(at))
  }

  function Edited(row: KeyRow, edits: seq<Edit>): KeyRow
    decreases |edits|
  {
    if edits == [] then row else Edited(EditedBy(row, edits[0]), edits[1..])
  }

  /** A revoked key stays unusable whatever is changed afterwards, even when it is enabled again. */
  lemma {:induction false} RevocationIsFinal(row: KeyRow, edits: seq<Edit>, now: int)
    requires row.revokedAt.Some?
    ensures Edited(row, edits).revokedAt == row.revokedAt && !Edited(row, edits).Usable(now)
    decreases |edits|
  {
    if edits != [] { RevocationIsFinal(EditedBy(row, edits[0]), edits[1..], now); }
  }

  // ----- Authentication ----------------------------------------------------------------------------

  const KEY_PREFIX := "xrx_live"

  predicate StartsWith(s: string, prefix: string) {
    prefix <= s
  }

  /** The key whose hash is stored; hashes are unique. */
  function ByHash(keys: seq<ApiKey>, hash: string): (r: Option<ApiKey>)
    ensures r.Some? ==> r.value in keys && r.value.hash == hash
    ensures r.None? ==> forall k :: k in keys ==> k.hash != hash
  {
    if keys == [] then None else if keys[0].hash == hash then Some(keys[0]) else ByHash(keys[1..], hash)
  }

  ghost predicate DistinctHashes(keys: seq<ApiKey>) {
    forall j, k :: j in keys && k in keys && j.hash == k.hash ==> j == k
  }

  /** The presented secret is this key's, and the key may be used now. */
  predicate Accepts(k: ApiKey, presented: string, hashing: string -> string, now: int)
    reads k
  {
    StartsWith(presented, KEY_PREFIX) && k.hash == hashing(presented) && k.Row().Usable(now)
  }

  class ApiKeyService {
    var keys: seq<ApiKey>
    const hashing: string -> string

    constructor (keys: seq<ApiKey>, hashing: string -> string)
      ensures this.keys == keys && this.hashing == hashing
    {
      this.keys, this.hashing := keys, hashing;
    }

    /** Finds the one key that accepts the secret, if there is one. */
    method Authenticate(presented: string, now: int) returns (key: Option<ApiKey>)
      requires DistinctHashes(keys)
      ensures key.Some? ==> key.value in keys && Accepts(key.value, presented, hashing, now)
      ensures key.None? ==> forall k :: k in keys ==> !Accepts(k, presented, hashing, now)
    {
      if !StartsWith(presented, KEY_PREFIX) {
        return None;
      }
      key := ByHash(keys, hashing(presented));
      if key.None? || !key.value.enabled || key.value.revokedAt.Some? {
        return None;
      }
      if key.value.expiresAt.Some? && key.value.expiresAt.value <= now {
        return None;
      }
    }

    method QuotaExceeded(key: ApiKey, ledger: Gateway.Ledger) returns (exceeded: bool)
      ensures exceeded == Quota.Exceeded(key.quota, Quota.Used(ledger, key.id))
    {
      if key.quota.None? {
        return false;
      }
      var consumed := Quota.Used(ledger, key.id);
      return consumed >= key.quota.value;
    }
  }

  // ----- The admission sequence --------------------------------------------------------------------

  /** The secret a request presents, "" if none: a bearer token wins over the x-api-key header, even a blank one. */
  function Presented(authorization: Option<string>, xApiKey: Option<string>): string {
    if authorization.Some? && StartsWith(Lower(authorization.value), "bearer ") && |authorization.value| >= 7
    then Strip(authorization.value[7..])
    else xApiKey.Or("")
  }

  datatype Decision =
    | Admitted(key: ApiKey, scopes: seq<string>)
    | Rejected(status: int, code: string, retryAfter: int)

  /** A limit of zero means the deployment's default. */
  function LimitOf(key: ApiKey, default: int): int
    reads key
  {
    if key.rateLimit == 0 then default else key.rateLimit
  }

  datatype Settings = Settings(gatewayEnabled: bool, limiterEnabled: bool, redisRequired: bool, defaultLimit: int)

  function Counter(limiter: ScopedRateLimiter, key: ApiKey): string {
    CacheKey(limiter.namespace, "api_key", key.prefix)
  }

  /** One hit is counted for the key, as far as Redis was reached, and for nothing else. */
  twostate predicate CountedOnce(limiter: ScopedRateLimiter, key: ApiKey, link: Link, now: int, later: int)
    reads limiter.redis
  {
    && limiter.redis.Get(Counter(limiter, key))
       == Left(old(limiter.redis.Get(Counter(limiter, key))), link, now, later, 60 * SECOND)
    && limiter.redis.Untouched(old(limiter.redis.keys), Counter(limiter, key))
  }

  /** The limiter is on and does not get its answers. */
  predicate Unanswered(limiter: ScopedRateLimiter, key: ApiKey, settings: Settings, link: Link, now: int)
    reads limiter.redis
  {
    settings.limiterEnabled && Outage(limiter.redis.Get(Counter(limiter, key)), link, now)
  }

  /** The hit about to be counted is within the key's limit, or cannot be judged and need not be. */
  predicate WithinLimit(limiter: ScopedRateLimiter, key: ApiKey, settings: Settings, link: Link, now: int)
    reads limiter.redis, key
  {
    if Unanswered(limiter, key, settings, link, now) then !settings.redisRequired
    else settings.limiterEnabled ==>
      Incr(limiter.redis.Get(Counter(limiter, key)), now).count <= LimitOf(key, settings.defaultLimit)
  }

  /** The first check that fails. */
  twostate function Refusal(limiter: ScopedRateLimiter, key: ApiKey, settings: Settings, link: Link, now: int): Decision
    reads limiter.redis, key
  {
    if old(WithinLimit(limiter, key, settings, link, now)) then Rejected(429, "quota_exceeded", 0)
    else if old(Unanswered(limiter, key, settings, link, now)) then Rejected(503, "dependency_unavailable", 0)
    else
      Rejected(429, "rate_limit_exceeded", old(RetryAfter(limiter.redis.Get(Counter(limiter, key)), now, 60)))
  }

  /** Rate and quota checks of an authenticated key. */
  method AdmitKey(service: ApiKeyService, key: ApiKey, limiter: ScopedRateLimiter, settings: Settings,
                  ledger: Gateway.Ledger, link: Link, now: int, later: int) returns (d: Decision)
    requires now <= later
    modifies limiter.redis, key`lastUsedAt
    ensures if settings.limiterEnabled then CountedOnce(limiter, key, link, now, later)
            else limiter.redis.keys == old(limiter.redis.keys)
    ensures d.Admitted? <==>
      old(WithinLimit(limiter, key, settings, link, now)) && !Quota.Exceeded(key.quota, Quota.Used(ledger, key.id))
    ensures d.Admitted? ==> d.key == key && d.scopes == key.scopes && key.lastUsedAt == Some(now)
    ensures d.Rejected? ==> d == Refusal(limiter, key, settings, link, now) && key.lastUsedAt == old(key.lastUsedAt)
    ensures var e := old(limiter.redis.Get(Counter(limiter, key)));
            var limit := if key.rateLimit != 0 then key.rateLimit else settings.defaultLimit;
            && (d.Admitted? && settings.limiterEnabled && !Outage(e, link, now) ==> Incr(e, now).count <= limit)
            && (d.Rejected? ==>
                  || (d.status == 429 && d.code == "rate_limit_exceeded" && settings.limiterEnabled
                      && !Outage(e, link, now) && Incr(e, now).count > limit && d.retryAfter == RetryAfter(e, now, 60))
                  || (d.status == 503 && d.code == "dependency_unavailable" && settings.limiterEnabled
                      && Outage(e, link, now) && settings.redisRequired)
                  || (d.status == 429 && d.code == "quota_exceeded" && d.retryAfter == 0 && key.quota.Some?
                      && Quota.Used(ledger, key.id) >= key.quota.value))
  {
    var limit := LimitOf(key, settings.defaultLimit);
    var result := limiter.Hit(key.prefix, Some(limit), Some(60), Some("api_key"), settings.limiterEnabled,
                              settings.redisRequired, link, now, later);
    if result.None? {
      return Rejected(503, "dependency_unavailable", 0);
    }
    if !result.value.allowed {
      return Rejected(429, "rate_limit_exceeded", result.value.retryAfter);
    }
    var exceeded := service.QuotaExceeded(key, ledger);
    if exceeded {
      return Rejected(429, "quota_exceeded", 0);
    }
    key.Touch(now);
    return Admitted(key, key.scopes);
  }

  /** The whole sequence: nothing is counted or touched unless a usable key was presented, and the key is
      touched only when it is admitted. */
  method RequireGatewayKey(service: ApiKeyService, limiter: ScopedRateLimiter, settings: Settings,
                           ledger: Gateway.Ledger, authorization: Option<string>, xApiKey: Option<string>,
                           link: Link, now: int, later: int)
    returns (d: Decision)
    requires now <= later && DistinctHashes(service.keys)
    modifies limiter.redis, service.keys`lastUsedAt
    ensures !settings.gatewayEnabled ==> d == Rejected(503, "gateway_disabled", 0)
    ensures d.Admitted? ==> settings.gatewayEnabled && d.key in service.keys && d.key.lastUsedAt == Some(now)
    ensures d.Admitted? ==> old(Accepts(d.key, Presented(authorization, xApiKey), service.hashing, now))
    ensures d.Admitted? ==> old(WithinLimit(limiter, d.key, settings, link, now))
    ensures d.Admitted? ==>
      var e := old(limiter.redis.Get(Counter(limiter, d.key)));
      settings.limiterEnabled && !Outage(e, link, now) ==>
        Incr(e, now).count <= if d.key.rateLimit != 0 then d.key.rateLimit else settings.defaultLimit
    ensures d.Admitted? ==> !Quota.Exceeded(d.key.quota, Quota.Used(ledger, d.key.id))
    ensures forall k :: k in service.keys && (d.Admitted? ==> k != d.key) ==> k.lastUsedAt == old(k.lastUsedAt)
    ensures settings.gatewayEnabled ==>
      forall k :: k in service.keys && old(Accepts(k, Presented(authorization, xApiKey), service.hashing, now)) ==>
        d == if old(WithinLimit(limiter, k, settings, link, now))
                && !Quota.Exceeded(k.quota, Quota.Used(ledger, k.id))
             then Admitted(k, k.scopes) else Refusal(limiter, k, settings, link, now)
    ensures d == Rejected(401, "invalid_api_key", 0) <==>
      (settings.gatewayEnabled && forall k :: k in service.keys ==>
         !old(Accepts(k, Presented(authorization, xApiKey), service.hashing, now)))
    ensures d.Rejected? && d.code in {"gateway_disabled", "invalid_api_key"} ==>
      limiter.redis.keys == old(limiter.redis.keys)
    ensures settings.gatewayEnabled && settings.limiterEnabled ==>
      forall k :: k in service.keys && old(Accepts(k, Presented(authorization, xApiKey), service.hashing, now)) ==>
        CountedOnce(limiter, k, link, now, later)
  {
    if !settings.gatewayEnabled {
      return Rejected(503, "gateway_disabled", 0);
    }
    var presented := Presented(authorization, xApiKey);
    if presented == "" {
      return Rejected(401, "invalid_api_key", 0);
    }
    var key := service.Authenticate(presented, now);
    if key.None? {
      return Rejected(401, "invalid_api_key", 0);
    }
    d := AdmitKey(service, key.value, limiter, settings, ledger, link, now, later);
  }
}
