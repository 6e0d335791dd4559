/**
 * Any number of logins against one rate limiter. Each Redis command of Check and Record is one step,
 * with the password verification in between, and other logins may run between any two steps. The clock
 * is monotone. Logins without an address bypass the limiter and are not tracked.
 */
module LoginThrottle {
  import opened Wrappers
  import opened RateLimiter

  datatype Phase =
    | Started             // Check has been called
    | Probed              // no lockout key was seen
    | Over                // the failure count was at the limit; the lockout key is set next
    | Verifying           // Check passed; the password is being verified
    | Stamped(at: Millis) // verification failed and Record read the clock
    | Added(at: Millis)   // the failure is in the set; pruning is next

  datatype Login = Login(ip: string, phase: Phase)

  datatype State = State(now: Millis, store: Store, logins: map<nat, Login>)

  datatype Step =
    | Tick(now: Millis)
    | Begin(id: nat, ip: string)
    | Probe(id: nat)
    | Count(id: nat)
    | Lock(id: nat)
    | Fail(id: nat)
    | Add(id: nat, member: string)
    | Prune(id: nat)
    | Succeed(id: nat)
    | Abandon(id: nat)    // an error, or a disabled account: nothing is recorded

  predicate InPhase(s: State, id: nat, phase: Phase) {
    id in s.logins && s.logins[id].phase == phase
  }

  /** Members carry the clock and eight random bytes, so an added member is new. */
  predicate Enabled(o: Options, s: State, step: Step) {
    match step
    case Tick(now) => s.now <= now
    case Begin(id, ip) => id !in s.logins && ip != ""
    case Probe(id) => InPhase(s, id, Started)
    case Count(id) => InPhase(s, id, Probed)
    case Lock(id) => InPhase(s, id, Over)
    case Fail(id) => InPhase(s, id, Verifying)
    case Add(id, member) =>
      id in s.logins && s.logins[id].phase.Stamped? &&
      member !in Members(s.store, FailuresKey(o, s.logins[id].ip))
    case Prune(id) => id in s.logins && s.logins[id].phase.Added?
    case Succeed(id) => InPhase(s, id, Verifying)
    case Abandon(id) => id in s.logins
  }

  function Move(s: State, id: nat, phase: Phase): State
    requires id in s.logins
  {
    s.(logins := s.logins[id := s.logins[id].(phase := phase)])
  }

  function Finish(s: State, id: nat, store: Store): State {
    s.(store := store, logins := s.logins - {id})
  }

  function Next(o: Options, s: State, step: Step): State
    requires Enabled(o, s, step)
  {
    match step
    case Tick(now) => s.(now := now)
    case Begin(id, ip) => s.(logins := s.logins[id := Login(ip, Started)])
    case Probe(id) =>
      if Locked(o, s.store, s.logins[id].ip, s.now) then Finish(s, id, s.store) else Move(s, id, Probed)
    case Count(id) =>
      if OverLimit(o, s.store, s.logins[id].ip) then Move(s, id, Over) else Move(s, id, Verifying)
    case Lock(id) => Finish(s, id, SetLockout(o, s.store, s.logins[id].ip, s.now))
    case Fail(id) => Move(s, id, Stamped(s.now))
    case Add(id, member) =>
      var at := s.logins[id].phase.at;
      Move(s, id, Added(at)).(store := AddFailure(o, s.store, s.logins[id].ip, at, member))
    case Prune(id) =>
      Finish(s, id, PruneFailures(o, s.store, s.logins[id].ip, s.logins[id].phase.at))
    case Succeed(id) => Finish(s, id, ClearAddress(o, s.store, s.logins[id].ip))
    case Abandon(id) => Finish(s, id, s.store)
  }

  ghost predicate Runs(o: Options, s: State, steps: seq<Step>)
    decreases |steps|, 0
  {
    steps != [] ==>
      && Runs(o, s, steps[..|steps| - 1])
      && Enabled(o, After(o, s, steps[..|steps| - 1]), steps[|steps| - 1])
  }

  ghost function After(o: Options, s: State, steps: seq<Step>): State
    requires Runs(o, s, steps)
    decreases |steps|, 1
  {
    if steps == [] then s else Next(o, After(o, s, steps[..|steps| - 1]), steps[|steps| - 1])
  }

  /** Holds in every state a server reaches from an empty store: clock readings were taken in the past,
      and lockout keys hold text. */
  ghost predicate Sane(o: Options, s: State) {
    && (forall id :: id in s.logins && (s.logins[id].phase.Stamped? || s.logins[id].phase.Added?) ==>
         s.logins[id].phase.at <= s.now)
    && (forall ip :: LockoutKey(o, ip) in s.store ==> s.store[LockoutKey(o, ip)].Text?)
  }

  lemma {:induction false} SaneStep(o: Options, s: State, step: Step)
    requires Sane(o, s) && Enabled(o, s, step)
    ensures Sane(o, Next(o, s, step)) && s.now <= Next(o, s, step).now
  {
    var s' := Next(o, s, step);
    forall ip | LockoutKey(o, ip) in s'.store
      ensures s'.store[LockoutKey(o, ip)].Text?
    {
      if !step.Tick? && !step.Begin? {
        KeysDistinct(o, s.logins[step.id].ip, ip);
      }
    }
  }

  lemma {:induction false} SaneRun(o: Options, s: State, steps: seq<Step>)
    requires Sane(o, s) && Runs(o, s, steps)
    ensures Sane(o, After(o, s, steps)) && s.now <= After(o, s, steps).now
  {
    if steps != [] {
      var before := steps[..|steps| - 1];
      SaneRun(o, s, before);
      SaneStep(o, After(o, s, before), steps[|steps| - 1]);
    }
  }

  // ---- one login at a time is the limiter's own calls ----

  lemma {:induction false} CheckSteps(o: Options, s: State, id: nat)
    requires Enabled(o, s, Probe(id))
    ensures var ip := s.logins[id].ip; var s1 := Next(o, s, Probe(id));
            if Locked(o, s.store, ip, s.now) then s1 == Finish(s, id, s.store)
            else
              && s1 == Move(s, id, Probed) && Enabled(o, s1, Count(id))
              && Next(o, s1, Count(id)) == Move(s, id, if OverLimit(o, s.store, ip) then Over else Verifying)
  {
    var s1 := Next(o, s, Probe(id));
    if !Locked(o, s.store, s.logins[id].ip, s.now) {
      var phase := if OverLimit(o, s.store, s.logins[id].ip) then Over else Verifying;
      assert s1.logins[id := Login(s.logins[id].ip, phase)] == s.logins[id := Login(s.logins[id].ip, phase)];
    }
  }

  /** Probe and Count with nothing in between, and then Lock, are one Check: the login goes on exactly when neither the
      lockout lives nor the failures have reached the limit, and the store is what Check leaves. */
  lemma {:induction false} UninterruptedCheck(o: Options, s: State, id: nat)
    requires Enabled(o, s, Probe(id))
    ensures var ip := s.logins[id].ip; var s1 := Next(o, s, Probe(id));
            if LockoutLives(o, s.store, ip, s.now) then s1 == Finish(s, id, s.store)
            else
              && Enabled(o, s1, Count(id))
              && Next(o, s1, Count(id)) == Move(s, id, if |Failures(o, s.store, ip)| < o.maxAttempts then Verifying else Over)
  {
    CheckSteps(o, s, id);
    CommandsMean(o, s.store, s.logins[id].ip, s.now, "");
  }

  lemma {:induction false} LockSets(o: Options, s: State, id: nat)
    requires Enabled(o, s, Lock(id)) && !LockoutLives(o, s.store, s.logins[id].ip, s.now)
    ensures Next(o, s, Lock(id))
            == Finish(s, id, s.store[o.keyPrefix + ":ip:" + s.logins[id].ip + ":lockout" := Text("1", s.now + o.lockoutPeriod)])
  {
    CommandsMean(o, s.store, s.logins[id].ip, s.now, "");
  }

  lemma {:induction false} RecordSteps(o: Options, s: State, id: nat, member: string)
    requires InPhase(s, id, Verifying) && member !in Members(s.store, FailuresKey(o, s.logins[id].ip))
    ensures var ip := s.logins[id].ip; var s1 := Next(o, s, Fail(id));
            && Enabled(o, s1, Add(id, member))
            && var s2 := Next(o, s1, Add(id, member));
               && Enabled(o, s2, Prune(id)) && Next(o, s2, Prune(id)).logins == s.logins - {id}
               && Next(o, s2, Prune(id)).store
                  == PruneFailures(o, AddFailure(o, s.store, ip, s.now, member), ip, s.now)
  {
  }

  /** Fail, Add and Prune with nothing in between are Record of a failure. */
  lemma {:induction false} UninterruptedFailure(o: Options, s: State, id: nat, ip: string, member: string)
    requires InPhase(s, id, Verifying) && ip == s.logins[id].ip && member !in Failures(o, s.store, ip)
    ensures var s1 := Next(o, s, Fail(id));
            && Enabled(o, s1, Add(id, member)) && Enabled(o, Next(o, s1, Add(id, member)), Prune(id))
            && var s3 := Next(o, Next(o, s1, Add(id, member)), Prune(id));
               && s3.logins == s.logins - {id}
               && s3.store == s.store[o.keyPrefix + ":ip:" + ip + ":failures" :=
                                        SortedSet(Remaining(o, Failures(o, s.store, ip)[member := s.now], s.now))]
  {
    assert Members(s.store, FailuresKey(o, ip)) == Failures(o, s.store, ip);
    RecordSteps(o, s, id, member);
    var pruned := PruneFailures(o, AddFailure(o, s.store, ip, s.now, member), ip, s.now);
    var s3 := Next(o, Next(o, Next(o, s, Fail(id)), Add(id, member)), Prune(id));
    assert s3.store == pruned;
    FailureRecorded(o, s.store, ip, s.now, member);
  }

  lemma {:induction false} FailureRecorded(o: Options, store: Store, ip: string, now: Millis, member: string)
    ensures PruneFailures(o, AddFailure(o, store, ip, now, member), ip, now)
            == store[o.keyPrefix + ":ip:" + ip + ":failures" :=
                       SortedSet(Remaining(o, Failures(o, store, ip)[member := now], now))]
  {
    CommandsMean(o, store, ip, now, member);
  }

  /** Succeed is Record of a success. */
  lemma {:induction false} SuccessRecorded(o: Options, s: State, id: nat)
    requires InPhase(s, id, Verifying)
    ensures var ip := s.logins[id].ip;
            Next(o, s, Succeed(id))
            == Finish(s, id, s.store - {o.keyPrefix + ":ip:" + ip + ":failures", o.keyPrefix + ":ip:" + ip + ":lockout"})
  {
    CommandsMean(o, s.store, s.logins[id].ip, s.now, "");
  }

  /** A login begins by calling Check; one given up at any point leaves the store as it is, and one given up at once
      leaves no trace. */
  lemma {:induction false} GivenUp(o: Options, s: State, id: nat, ip: string)
    ensures id !in s.logins && ip != "" ==>
              && Enabled(o, s, Begin(id, ip)) && Enabled(o, Next(o, s, Begin(id, ip)), Probe(id))
              && Next(o, s, Begin(id, ip)).logins[id].ip == ip
              && Next(o, Next(o, s, Begin(id, ip)), Abandon(id)) == s
    ensures id in s.logins ==>
              && Enabled(o, s, Abandon(id)) && Next(o, s, Abandon(id)).store == s.store
              && Next(o, s, Abandon(id)).now == s.now && Next(o, s, Abandon(id)).logins == s.logins - {id}
  {
    if id !in s.logins && ip != "" {
      assert s.logins[id := Login(ip, Started)] - {id} == s.logins;
    }
  }

  // ---- the attempt bound ----

  /** Logins of an address between a passed Check and the moment their failure is in the set. */
  function InFlight(s: State, ip: string): set<nat> {
    set id | id in s.logins && s.logins[id].ip == ip &&
             (s.logins[id].phase.Verifying? || s.logins[id].phase.Stamped?)
  }

  /** Seen during a run: logins of `ip` that passed Check and are still in flight, and how many failures
      were recorded by logins that had passed Check within the run. */
  datatype Tally = Tally(passed: set<nat>, failed: nat)

  function Noted(o: Options, s: State, t: Tally, step: Step, ip: string): Tally
    requires Enabled(o, s, step)
  {
    match step
    case Count(id) =>
      if s.logins[id].ip == ip && !OverLimit(o, s.store, ip) then t.(passed := t.passed + {id}) else t
    case Add(id, _) => if id in t.passed then Tally(t.passed - {id}, t.failed + 1) else t
    case Succeed(id) => t.(passed := t.passed - {id})
    case Abandon(id) => t.(passed := t.passed - {id})
    case _ => t
  }

  ghost function Observe(o: Options, s: State, steps: seq<Step>, ip: string): Tally
    requires Runs(o, s, steps)
  {
    if steps == [] then Tally({}, 0)
    else
      var before := steps[..|steps| - 1];
      Noted(o, After(o, s, before), Observe(o, s, before, ip), steps[|steps| - 1], ip)
  }

  ghost predicate NoSuccess(o: Options, s: State, steps: seq<Step>, ip: string)
    requires Runs(o, s, steps)
  {
    steps != [] ==>
      var before := steps[..|steps| - 1];
      var last := steps[|steps| - 1];
      && NoSuccess(o, s, before, ip)
      && (last.Succeed? ==> After(o, s, before).logins[last.id].ip != ip)
  }

  ghost predicate AtMostInFlight(o: Options, s: State, steps: seq<Step>, ip: string, m: nat)
    requires Runs(o, s, steps)
  {
    && |InFlight(After(o, s, steps), ip)| <= m
    && (steps != [] ==> AtMostInFlight(o, s, steps[..|steps| - 1], ip, m))
  }

  /** Failures of an address scored at `since` or later. */
  function Recent(o: Options, store: Store, ip: string, since: Millis): set<string> {
    var members := Members(store, FailuresKey(o, ip));
    set x | x in members && since <= members[x]
  }

  /** No step other than a success of the address, or a prune stamped a full window after `since`,
      takes a recent failure away; recording one adds it. */
  lemma {:induction false} RecentStep(o: Options, s: State, step: Step, ip: string, since: Millis)
    requires Enabled(o, s, step)
    requires step.Succeed? ==> s.logins[step.id].ip != ip
    requires step.Prune? ==> s.logins[step.id].phase.at < since + o.window
    ensures Recent(o, s.store, ip, since) <= Recent(o, Next(o, s, step).store, ip, since)
    ensures step.Add? && s.logins[step.id].ip == ip && since <= s.logins[step.id].phase.at ==>
      Recent(o, Next(o, s, step).store, ip, since) == Recent(o, s.store, ip, since) + {step.member}
  {
    if !step.Tick? && !step.Begin? {
      KeysDistinct(o, ip, s.logins[step.id].ip);
    }
  }

  lemma {:induction false} SubsetSize<T>(a: set<T>, b: set<T>)
    requires a <= b
    ensures |a| <= |b|
  {
    assert b == a + (b - a);
  }

  /** What the tally says about the current state of a run that began at time `since`. */
  ghost predicate TallyFits(o: Options, s: State, t: Tally, ip: string, since: Millis) {
    && t.passed <= InFlight(s, ip)
    && (forall id :: id in t.passed && s.logins[id].phase.Stamped? ==> since <= s.logins[id].phase.at)
    && t.failed <= |Recent(o, s.store, ip, since)|
  }

  lemma {:induction false} PassedStep(o: Options, s: State, t: Tally, step: Step, ip: string, since: Millis)
    requires Enabled(o, s, step) && TallyFits(o, s, t, ip, since) && since <= s.now
    ensures var s', t' := Next(o, s, step), Noted(o, s, t, step, ip);
            && t'.passed <= InFlight(s', ip)
            && forall id :: id in t'.passed && s'.logins[id].phase.Stamped? ==> since <= s'.logins[id].phase.at
  {
  }

  lemma {:induction false} FailedStep(o: Options, s: State, t: Tally, step: Step, ip: string, since: Millis)
    requires Enabled(o, s, step) && TallyFits(o, s, t, ip, since)
    requires step.Succeed? ==> s.logins[step.id].ip != ip
    requires step.Prune? ==> s.logins[step.id].phase.at < since + o.window
    ensures Noted(o, s, t, step, ip).failed <= |Recent(o, Next(o, s, step).store, ip, since)|
  {
    RecentStep(o, s, step, ip, since);
    SubsetSize(Recent(o, s.store, ip, since), Recent(o, Next(o, s, step).store, ip, since));
  }

  lemma {:induction false} TallyStep(o: Options, s: State, t: Tally, step: Step, ip: string, since: Millis)
    requires ValidOptions(o) && Sane(o, s) && Enabled(o, s, step) && TallyFits(o, s, t, ip, since)
    requires since <= s.now && Next(o, s, step).now < since + o.window
    requires step.Succeed? ==> s.logins[step.id].ip != ip
    ensures TallyFits(o, Next(o, s, step), Noted(o, s, t, step, ip), ip, since)
  {
    PassedStep(o, s, t, step, ip, since);
    FailedStep(o, s, t, step, ip, since);
  }

  /** The bound itself moves only when a login passes Check, and then at most maxAttempts - 1 failures are
      recent; recording a failure trades a login in flight for a recorded failure. */
  lemma {:induction false} BoundStep(o: Options, s: State, t: Tally, step: Step, ip: string, since: Millis, m: nat)
    requires ValidOptions(o) && Enabled(o, s, step)
    requires TallyFits(o, s, t, ip, since)
    requires Noted(o, s, t, step, ip).passed <= InFlight(Next(o, s, step), ip)
    requires |InFlight(Next(o, s, step), ip)| <= m
    requires t.failed + |t.passed| <= o.maxAttempts - 1 + m
    ensures var t' := Noted(o, s, t, step, ip); t'.failed + |t'.passed| <= o.maxAttempts - 1 + m
  {
    var t' := Noted(o, s, t, step, ip);
    if step.Count? && t' != t {
      RecentWithin(o, s.store, ip, since);
      SubsetSize(t'.passed, InFlight(Next(o, s, step), ip));
    } else {
      SubsetSize(t'.passed, t.passed);
    }
  }

  lemma {:induction false} TallyBounded(o: Options, s: State, steps: seq<Step>, ip: string, m: nat)
    requires ValidOptions(o) && Sane(o, s) && Runs(o, s, steps)
    requires After(o, s, steps).now - s.now < o.window
    requires NoSuccess(o, s, steps, ip) && AtMostInFlight(o, s, steps, ip, m)
    ensures var t := Observe(o, s, steps, ip);
            && TallyFits(o, After(o, s, steps), t, ip, s.now)
            && t.failed + |t.passed| <= o.maxAttempts - 1 + m
  {
    if steps != [] {
      var before, step := steps[..|steps| - 1], steps[|steps| - 1];
      var s1, t := After(o, s, before), Observe(o, s, before, ip);
      SaneRun(o, s, before);
      SaneStep(o, s1, step);
      TallyBounded(o, s, before, ip, m);
      TallyStep(o, s1, t, step, ip, s.now);
      BoundStep(o, s1, t, step, ip, s.now, m);
    }
  }

  lemma {:induction false} RecentWithin(o: Options, store: Store, ip: string, since: Millis)
    ensures |Recent(o, store, ip, since)| <= ZCard(store, FailuresKey(o, ip))
  {
    SubsetSize(Recent(o, store, ip, since), Members(store, FailuresKey(o, ip)).Keys);
  }

  /** In any stretch of a run shorter than the window, without a recorded success and with at most m logins
      of the address in flight at once, at most maxAttempts + m - 1 attempts pass Check and record a failure.
      With one login at a time that is exactly the configured maximum. */
  lemma {:induction false} FailuresBounded(o: Options, s: State, steps: seq<Step>, ip: string, m: nat)
    requires ValidOptions(o) && Sane(o, s) && Runs(o, s, steps)
    requires After(o, s, steps).now - s.now < o.window
    requires NoSuccess(o, s, steps, ip) && AtMostInFlight(o, s, steps, ip, m)
    ensures Observe(o, s, steps, ip).failed <= o.maxAttempts + m - 1
  {
    TallyBounded(o, s, steps, ip, m);
  }

  // ---- addresses do not affect each other ----

  /** A step of one address leaves both keys of every other address as they were. */
  lemma {:induction false} OtherAddressUntouched(o: Options, s: State, step: Step, ip: string)
    requires Enabled(o, s, step)
    requires !step.Tick? && !step.Begin? ==> s.logins[step.id].ip != ip
    ensures var key := FailuresKey(o, ip); var store := Next(o, s, step).store;
            (key in store <==> key in s.store) && (key in store ==> store[key] == s.store[key])
    ensures var key := LockoutKey(o, ip); var store := Next(o, s, step).store;
            (key in store <==> key in s.store) && (key in store ==> store[key] == s.store[key])
  {
    if !step.Tick? && !step.Begin? {
      KeysDistinct(o, ip, s.logins[step.id].ip);
      KeysDistinct(o, s.logins[step.id].ip, ip);
    }
  }

  // ---- the lockout ----

  /** The lockout key of the address is present and lives until `until` or longer. */
  predicate LockedUntil(o: Options, s: State, ip: string, until: Millis) {
    var key := LockoutKey(o, ip);
    key in s.store && s.store[key].Text? && until <= s.store[key].expiresAt
  }

  lemma {:induction false} LockStep(o: Options, s: State, step: Step, ip: string, until: Millis)
    requires Enabled(o, s, step) && LockedUntil(o, s, ip, until) && s.now < until
    requires step.Succeed? ==> s.logins[step.id].ip != ip
    ensures LockedUntil(o, Next(o, s, step), ip, until)
  {
    if !step.Tick? && !step.Begin? {
      KeysDistinct(o, ip, s.logins[step.id].ip);
      KeysDistinct(o, s.logins[step.id].ip, ip);
    }
  }

  lemma {:induction false} LockKept(o: Options, s: State, steps: seq<Step>, ip: string, until: Millis)
    requires Sane(o, s) && Runs(o, s, steps) && LockedUntil(o, s, ip, until)
    requires NoSuccess(o, s, steps, ip) && After(o, s, steps).now < until
    ensures LockedUntil(o, After(o, s, steps), ip, until)
  {
    if steps != [] {
      var before := steps[..|steps| - 1];
      LockKept(o, s, before, ip, until);
      LockStep(o, After(o, s, before), steps[|steps| - 1], ip, until);
    }
  }

  /** While the lockout key is known to live, no login of the address gets past its look for the key. */
  lemma {:induction false} ProbedEarlier(o: Options, s: State, steps: seq<Step>, id: nat, ip: string, until: Millis)
    requires Sane(o, s) && Runs(o, s, steps) && LockedUntil(o, s, ip, until)
    requires NoSuccess(o, s, steps, ip) && After(o, s, steps).now < until
    requires InPhase(After(o, s, steps), id, Probed) && After(o, s, steps).logins[id].ip == ip
    ensures InPhase(s, id, Probed) && s.logins[id].ip == ip
  {
    if steps != [] {
      var before, step := steps[..|steps| - 1], steps[|steps| - 1];
      var s1 := After(o, s, before);
      LockKept(o, s, before, ip, until);
      if InPhase(s1, id, Probed) && s1.logins[id].ip == ip {
        ProbedEarlier(o, s, before, id, ip, until);
      } else {
        assert step == Probe(id) && Locked(o, s1.store, ip, s1.now);
        assert false;
      }
    }
  }

  /** From the step that sets the lockout key, for the whole lockout period and in every interleaving without a
      recorded success: a Check of the address that looks for the key is refused, and one that counts failures had
      already looked for the key before it was set; such a login passes exactly when the count is below the limit
      at that moment. */
  lemma {:induction false} LockoutHolds(o: Options, s: State, locker: nat, steps: seq<Step>, id: nat)
    requires ValidOptions(o) && Sane(o, s) && Enabled(o, s, Lock(locker))
    requires !Locked(o, s.store, s.logins[locker].ip, s.now)
    requires Runs(o, Next(o, s, Lock(locker)), steps)
    requires NoSuccess(o, Next(o, s, Lock(locker)), steps, s.logins[locker].ip)
    requires After(o, Next(o, s, Lock(locker)), steps).now < s.now + o.lockoutPeriod
    requires id in After(o, Next(o, s, Lock(locker)), steps).logins
    requires After(o, Next(o, s, Lock(locker)), steps).logins[id].ip == s.logins[locker].ip
    ensures var ip, s' := s.logins[locker].ip, After(o, Next(o, s, Lock(locker)), steps);
            && (InPhase(s', id, Started) ==> id !in Next(o, s', Probe(id)).logins)
            && (InPhase(s', id, Probed) ==>
                 && InPhase(s, id, Probed) && s.logins[id].ip == ip
                 && (InPhase(Next(o, s', Count(id)), id, Verifying) <==> !OverLimit(o, s'.store, ip)))
  {
    var s1 := Next(o, s, Lock(locker));
    var ip, until := s.logins[locker].ip, s.now + o.lockoutPeriod;
    LockKept(o, s1, steps, ip, until);
    if InPhase(After(o, s1, steps), id, Probed) {
      ProbedEarlier(o, s1, steps, id, ip, until);
    }
  }

  /** No login of the address is past its failure count. */
  predicate Quiet(s: State, ip: string) {
    forall id :: id in s.logins && s.logins[id].ip == ip ==>
      s.logins[id].phase.Started? || s.logins[id].phase.Probed? || s.logins[id].phase.Over?
  }

  /** In some continuation a login of the address passes Check. */
  ghost predicate MayPassAgain(o: Options, s: State, ip: string) {
    exists steps, id :: Runs(o, s, steps) && InPhase(After(o, s, steps), id, Verifying)
                        && After(o, s, steps).logins[id].ip == ip
  }

  lemma {:induction false} StaysOverLimit(o: Options, s: State, steps: seq<Step>, ip: string)
    requires Quiet(s, ip) && OverLimit(o, s.store, ip) && Runs(o, s, steps)
    ensures Quiet(After(o, s, steps), ip) && OverLimit(o, After(o, s, steps).store, ip)
  {
    if steps != [] {
      var before, step := steps[..|steps| - 1], steps[|steps| - 1];
      StaysOverLimit(o, s, before, ip);
      var s1 := After(o, s, before);
      if !step.Tick? && !step.Begin? {
        if s1.logins[step.id].ip == ip {
          KeysDistinct(o, ip, ip);
        } else {
          OtherAddressUntouched(o, s1, step, ip);
        }
      }
    }
  }

  lemma {:induction false} Extend(o: Options, s: State, steps: seq<Step>, step: Step)
    requires Runs(o, s, steps) && Enabled(o, After(o, s, steps), step)
    ensures Runs(o, s, steps + [step]) && After(o, s, steps + [step]) == Next(o, After(o, s, steps), step)
  {
    assert (steps + [step])[..|steps|] == steps;
  }

  lemma {:induction false} FreshId(s: State) returns (id: nat)
    ensures id !in s.logins
  {
    id := FreshIdIn(s.logins.Keys);
  }

  lemma {:induction false} FreshIdIn(ids: set<nat>) returns (id: nat)
    ensures forall x :: x in ids ==> x < id
  {
    if ids == {} {
      id := 0;
    } else {
      var x :| x in ids;
      var y := FreshIdIn(ids - {x});
      id := if x < y then y else x + 1;
      assert ids == (ids - {x}) + {x};
    }
  }

  /** A new login that starts at `later` passes Check if the lockout key is gone by then. */
  lemma {:induction false} NewLoginPasses(o: Options, s: State, ip: string, later: Millis, id: nat)
    requires ip != "" && id !in s.logins && s.now <= later
    requires !OverLimit(o, s.store, ip) && !Locked(o, s.store, ip, later)
    ensures var begun := s.(now := later, logins := s.logins[id := Login(ip, Started)]);
            && Enabled(o, s, Tick(later)) && Enabled(o, Next(o, s, Tick(later)), Begin(id, ip))
            && Next(o, Next(o, s, Tick(later)), Begin(id, ip)) == begun
            && Enabled(o, begun, Probe(id)) && Enabled(o, Next(o, begun, Probe(id)), Count(id))
            && InPhase(Next(o, Next(o, begun, Probe(id)), Count(id)), id, Verifying)
            && Next(o, Next(o, begun, Probe(id)), Count(id)).logins[id].ip == ip
  {
    var begun := s.(now := later, logins := s.logins[id := Login(ip, Started)]);
    assert Next(o, begun, Probe(id)) == Move(begun, id, Probed);
  }

  lemma {:induction false} PassesBelowLimit(o: Options, s: State, ip: string)
    requires Sane(o, s) && ip != "" && !OverLimit(o, s.store, ip)
    ensures MayPassAgain(o, s, ip)
  {
    var key := LockoutKey(o, ip);
    var later := if key in s.store && s.now < s.store[key].expiresAt then s.store[key].expiresAt else s.now;
    var id := FreshId(s);
    NewLoginPasses(o, s, ip, later, id);
    var r := [Tick(later)];
    OneStep(o, s, Tick(later));
    Extend(o, s, r, Begin(id, ip));
    Extend(o, s, r + [Begin(id, ip)], Probe(id));
    Extend(o, s, r + [Begin(id, ip)] + [Probe(id)], Count(id));
  }

  lemma {:induction false} OneStep(o: Options, s: State, step: Step)
    requires Enabled(o, s, step)
    ensures Runs(o, s, [step]) && After(o, s, [step]) == Next(o, s, step)
  {
    assert [step][..0] == [];
    assert Runs(o, s, []);
  }

  /** When no login of the address is past its count, a later Check can pass if and only if the failure set
      is below the limit. Check does not prune the set and nothing gives it a time to live, so an address at
      the limit stays refused however far the clock advances, long after the lockout key has expired. */
  lemma {:induction false} PassesAgainIffBelowLimit(o: Options, s: State, ip: string)
    requires ValidOptions(o) && Sane(o, s) && ip != "" && Quiet(s, ip)
    ensures MayPassAgain(o, s, ip) <==> !OverLimit(o, s.store, ip)
  {
    if OverLimit(o, s.store, ip) {
      forall steps, id | Runs(o, s, steps) && InPhase(After(o, s, steps), id, Verifying)
        ensures After(o, s, steps).logins[id].ip != ip
      {
        StaysOverLimit(o, s, steps, ip);
      }
    } else {
      PassesBelowLimit(o, s, ip);
    }
  }
}
