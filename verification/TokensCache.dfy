/** internal/auth/tokens_cache.go, and the revocation test of internal/auth/jwt.go. */
module TokensCache {
  import opened Wrappers

  /** A time.Time, counted in nanoseconds from the Unix epoch. */
  type Time = int

  /** time.Time{}: the first instant of year 1, which IsZero recognises. */
  const ZERO_TIME: Time := -62_135_596_800_000_000_000

  type Values = map<string, Time>

  /** Claims.IsRevokedBy: a token without iat is never revoked, nor is any token by the zero time. */
  predicate IsRevokedBy(issuedAt: Option<Time>, tva: Time) {
    tva != ZERO_TIME && issuedAt.Some? && issuedAt.value < tva
  }

  /** A token is revoked exactly when it says when it was issued, a cut-off other than the first instant of year 1 is
      known, and the token is older. */
  lemma {:induction false} RevokedMeans(issuedAt: Option<Time>, tva: Time)
    ensures IsRevokedBy(issuedAt, tva) <==>
            match issuedAt case None => false case Some(at) => at < tva && tva != -62_135_596_800_000_000_000
  {
  }

  /** What the per-user loader answers when Get calls it. */
  datatype Loader = NoLoader | LoadFailed | Loaded(tva: Time)

  /** `values` after a locked write of one user's time. */
  function Stored(values: Values, userId: string, tva: Time): Values {
    if userId == "" then values else values[userId := tva]
  }

  /** `values` after Get: only a miss with a successful load writes. */
  function Filled(values: Values, userId: string, loader: Loader): Values {
    if userId !in values && loader.Loaded? then Stored(values, userId, loader.tva) else values
  }

  /** What Get answers: the cached value, else the loaded one, else the zero time. */
  function Lookup(values: Values, userId: string, loader: Loader): (Time, bool) {
    if userId == "" then (ZERO_TIME, false)
    else if userId in values then (values[userId], true)
    else if loader.Loaded? then (loader.tva, true)
    else (ZERO_TIME, false)
  }

  class TokensCache {
    var values: Values

    constructor ()
      ensures values == map[]
    {
      values := map[];
    }

    method Get(userId: string, loader: Loader) returns (tva: Time, ok: bool)
      modifies this
      ensures userId == "" ==> ok == false && tva == ZERO_TIME && values == old(values)
      ensures userId in old(values) && userId != "" ==> ok && tva == old(values)[userId] && values == old(values)
      ensures userId !in old(values) && userId != "" && loader.Loaded? ==>
        ok && tva == loader.tva && values == old(values)[userId := loader.tva]
      ensures userId !in old(values) && !loader.Loaded? ==> ok == false && tva == ZERO_TIME && values == old(values)
      ensures values == Filled(old(values), userId, loader)
      ensures (tva, ok) == Lookup(old(values), userId, loader)
    {
      if userId == "" {
        return ZERO_TIME, false;
      }
      if userId in values {
        return values[userId], true;
      }
      match loader {
        case NoLoader => return ZERO_TIME, false;
        case LoadFailed => return ZERO_TIME, false;
        case Loaded(loaded) =>
          values := values[userId := loaded];
          return loaded, true;
      }
    }

    method Set(userId: string, tva: Time)
      modifies this
      ensures values == if userId == "" then old(values) else old(values)[userId := tva]
      ensures values == Stored(old(values), userId, tva)
    {
      if userId == "" {
        return;
      }
      values := values[userId := tva];
    }

    method Invalidate(userId: string)
      modifies this
      ensures values == old(values) - {userId}
      ensures userId == "" && userId !in old(values) ==> values == old(values)
    {
      values := values - {userId};
    }

    /** Replaces the whole map by a copy of the snapshot, ranging over it in any order. */
    method SetBatch(snapshot: Values)
      modifies this
      ensures values == snapshot
    {
      values := map[];
      var rest := snapshot.Keys;
      while rest != {}
        invariant rest <= snapshot.Keys
        invariant values == map k | k in snapshot.Keys - rest :: snapshot[k]
        decreases |rest|
      {
        var k :| k in rest;
        values := values[k := snapshot[k]];
        rest := rest - {k};
      }
    }
  }
}
