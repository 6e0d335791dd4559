/** internal/auth/ratelimit/ratelimit.go: the Redis commands it uses, and the limiter built on them. */
module RateLimiter {
  import opened Wrappers

  /** Milliseconds since the Unix epoch. */
  type Millis = int

  datatype Options = Options(window: Millis, maxAttempts: int, lockoutPeriod: Millis, keyPrefix: string)

  function WithDefaults(o: Options): Options {
    Options(
      if o.window <= 0 then 60_000 else o.window,
      if o.maxAttempts <= 0 then 5 else o.maxAttempts,
      if o.lockoutPeriod <= 0 then 900_000 else o.lockoutPeriod,
      if o.keyPrefix == "" then "ratelimit:login" else o.keyPrefix)
  }

  /** What withDefaults leaves behind. */
  predicate ValidOptions(o: Options) {
    0 < o.window && 0 < o.maxAttempts && 0 < o.lockoutPeriod && o.keyPrefix != ""
  }

  // ---- Redis ----

  datatype Entry = SortedSet(members: map<string, Millis>) | Text(value: string, expiresAt: Millis)

  type Store = map<string, Entry>

  function Members(store: Store, key: string): map<string, Millis> {
    if key in store && store[key].SortedSet? then store[key].members else map[]
  }

  function ZCard(store: Store, key: string): nat {
    |Members(store, key)|
  }

  function ZAdd(store: Store, key: string, score: Millis, member: string): Store {
    store[key := SortedSet(Members(store, key)[member := score])]
  }

  /** ZREMRANGEBYSCORE key 0 max, both ends included. */
  function ZRemRange(store: Store, key: string, max: Millis): Store {
    var members := Members(store, key);
    store[key := SortedSet(map m | m in members && !(0 <= members[m] <= max) :: members[m])]
  }

  predicate Exists(store: Store, key: string, now: Millis) {
    key in store && (store[key].Text? ==> now < store[key].expiresAt)
  }

  function SetNX(store: Store, key: string, value: string, ttl: Millis, now: Millis): Store {
    if Exists(store, key, now) then store else store[key := Text(value, now + ttl)]
  }

  // ---- keys ----

  function FailuresKey(o: Options, ip: string): string {
    o.keyPrefix + ":ip:" + ip + ":failures"
  }

  function LockoutKey(o: Options, ip: string): string {
    o.keyPrefix + ":ip:" + ip + ":lockout"
  }

  lemma {:induction false} SameAffixes(prefix: string, suffix: string, a: string, b: string)
    requires prefix + a + suffix == prefix + b + suffix
    ensures a == b
  {
    var x, y := prefix + a + suffix, prefix + b + suffix;
    assert x[|prefix|..|x| - |suffix|] == a;
    assert y[|prefix|..|y| - |suffix|] == b;
  }

  /** No two addresses share a key, and no failure key is a lockout key. */
  lemma {:induction false} KeysDistinct(o: Options, a: string, b: string)
    ensures FailuresKey(o, a) == FailuresKey(o, b) ==> a == b
    ensures LockoutKey(o, a) == LockoutKey(o, b) ==> a == b
    ensures FailuresKey(o, a) != LockoutKey(o, b)
  {
    var f, l := FailuresKey(o, a), LockoutKey(o, b);
    assert f[|f| - 1] == 's' && l[|l| - 1] == 't';
    if FailuresKey(o, a) == FailuresKey(o, b) {
      SameAffixes(o.keyPrefix + ":ip:", ":failures", a, b);
    }
    if LockoutKey(o, a) == LockoutKey(o, b) {
      SameAffixes(o.keyPrefix + ":ip:", ":lockout", a, b);
    }
  }

  // ---- Check and Record, each as one uninterrupted call ----

  predicate Locked(o: Options, store: Store, ip: string, now: Millis) {
    Exists(store, LockoutKey(o, ip), now)
  }

  predicate OverLimit(o: Options, store: Store, ip: string) {
    o.maxAttempts <= ZCard(store, FailuresKey(o, ip))
  }

  function SetLockout(o: Options, store: Store, ip: string, now: Millis): Store {
    SetNX(store, LockoutKey(o, ip), "1", o.lockoutPeriod, now)
  }

  function AddFailure(o: Options, store: Store, ip: string, at: Millis, member: string): Store {
    ZAdd(store, FailuresKey(o, ip), at, member)
  }

  function PruneFailures(o: Options, store: Store, ip: string, at: Millis): Store {
    ZRemRange(store, FailuresKey(o, ip), at - o.window)
  }

  function ClearAddress(o: Options, store: Store, ip: string): Store {
    store - {FailuresKey(o, ip), LockoutKey(o, ip)}
  }

  // ---- the same, in keys and scores ----

  /** The failures of an address with the times they were recorded. */
  ghost function Failures(o: Options, store: Store, ip: string): map<string, Millis> {
    var key := o.keyPrefix + ":ip:" + ip + ":failures";
    if key in store && store[key].SortedSet? then store[key].members else map[]
  }

  /** The lockout key is there and has not expired. */
  ghost predicate LockoutLives(o: Options, store: Store, ip: string, now: Millis) {
    var key := o.keyPrefix + ":ip:" + ip + ":lockout";
    key in store && (match store[key] case SortedSet(_) => true case Text(_, expiresAt) => now < expiresAt)
  }

  /** Those among the failures that a failure recorded at `now` leaves: it drops what is a window old or older. */
  ghost function Remaining(o: Options, failures: map<string, Millis>, now: Millis): map<string, Millis> {
    map m | m in failures && !(0 <= failures[m] <= now - o.window) :: failures[m]
  }

  lemma {:induction false} CommandsMean(o: Options, store: Store, ip: string, now: Millis, member: string)
    ensures Locked(o, store, ip, now) <==> LockoutLives(o, store, ip, now)
    ensures OverLimit(o, store, ip) <==> |Failures(o, store, ip)| >= o.maxAttempts
    ensures !Locked(o, store, ip, now) ==>
            SetLockout(o, store, ip, now) == store[o.keyPrefix + ":ip:" + ip + ":lockout" := Text("1", now + o.lockoutPeriod)]
    ensures PruneFailures(o, AddFailure(o, store, ip, now, member), ip, now)
            == store[o.keyPrefix + ":ip:" + ip + ":failures" :=
                       SortedSet(Remaining(o, Failures(o, store, ip)[member := now], now))]
    ensures ClearAddress(o, store, ip)
            == store - {o.keyPrefix + ":ip:" + ip + ":failures", o.keyPrefix + ":ip:" + ip + ":lockout"}
  {
  }

  class Limiter {
    const opts: Options
    var store: Store

    constructor (opts: Options)
      ensures this.opts == WithDefaults(opts) && ValidOptions(this.opts) && store == map[]
      ensures this.opts.window == (if opts.window > 0 then opts.window else 60 * 1000)
      ensures this.opts.maxAttempts == (if opts.maxAttempts > 0 then opts.maxAttempts else 5)
      ensures this.opts.lockoutPeriod == (if opts.lockoutPeriod > 0 then opts.lockoutPeriod else 15 * 60 * 1000)
      ensures this.opts.keyPrefix == (if opts.keyPrefix != "" then opts.keyPrefix else "ratelimit:login")
    {
      this.opts := WithDefaults(opts);
      store := map[];
    }

    method Check(ip: string, now: Millis) returns (r: Result<()>)
      modifies this
      ensures ip == "" ==> r == Ok(()) && store == old(store)
      ensures ip != "" ==>
        (r.Ok? <==> !LockoutLives(opts, old(store), ip, now) && |Failures(opts, old(store), ip)| < opts.maxAttempts)
      ensures r.Err? ==> r.error == ErrRateLimited
      ensures r.Err? && !LockoutLives(opts, old(store), ip, now) ==>
        store == old(store)[opts.keyPrefix + ":ip:" + ip + ":lockout" := Text("1", now + opts.lockoutPeriod)]
      ensures r.Ok? || LockoutLives(opts, old(store), ip, now) ==> store == old(store)
      ensures ip != "" ==>
        r == if Locked(opts, old(store), ip, now) || OverLimit(opts, old(store), ip)
             then Err(ErrRateLimited) else Ok(())
      ensures ip != "" ==>
        store == if !Locked(opts, old(store), ip, now) && OverLimit(opts, old(store), ip)
                 then SetLockout(opts, old(store), ip, now) else old(store)
    {
      CommandsMean(opts, store, ip, now, "");
      if ip == "" {
        return Ok(());
      }
      if Exists(store, LockoutKey(opts, ip), now) {
        return Err(ErrRateLimited);
      }
      var count := ZCard(store, FailuresKey(opts, ip));
      if opts.maxAttempts <= count {
        store := SetNX(store, LockoutKey(opts, ip), "1", opts.lockoutPeriod, now);
        return Err(ErrRateLimited);
      }
      return Ok(());
    }

    method Record(ip: string, success: bool, now: Millis, member: string)
      modifies this
      ensures ip == "" ==> store == old(store)
      ensures ip != "" && success ==>
        store == old(store) - {opts.keyPrefix + ":ip:" + ip + ":failures", opts.keyPrefix + ":ip:" + ip + ":lockout"}
      ensures ip != "" && !success ==>
        store == old(store)[opts.keyPrefix + ":ip:" + ip + ":failures" :=
                              SortedSet(Remaining(opts, Failures(opts, old(store), ip)[member := now], now))]
      ensures store ==
        if ip == "" then old(store)
        else if success then ClearAddress(opts, old(store), ip)
        else PruneFailures(opts, AddFailure(opts, old(store), ip, now, member), ip, now)
    {
      CommandsMean(opts, store, ip, now, member);
      if ip == "" {
        return;
      }
      if success {
        store := store - {FailuresKey(opts, ip), LockoutKey(opts, ip)};
        return;
      }
      store := ZAdd(store, FailuresKey(opts, ip), now, member);
      store := ZRemRange(store, FailuresKey(opts, ip), now - opts.window);
    }
  }
}
