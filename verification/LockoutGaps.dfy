/**
 * What can slip past a lockout, and runs that show it. A login may have looked for the lockout key before it was
 * set and count failures after a concurrent failure's pruning has emptied the set.
 */
module LockoutGaps {
  import opened RateLimiter
  import opened LoginThrottle

  /** The failures that pruning at time `at` leaves. */
  function Unpruned(o: Options, store: Store, ip: string, at: Millis): set<string> {
    var members := Members(store, FailuresKey(o, ip));
    set m | m in members && !(0 <= members[m] <= at - o.window)
  }

  /** By recording its failure before `until`, login `id` can bring the failure set of its address below the limit. */
  predicate Frees(o: Options, s: State, id: nat, ip: string, until: Millis) {
    && id in s.logins && s.logins[id].ip == ip
    && match s.logins[id].phase
       case Verifying => |Unpruned(o, s.store, ip, until - 1)| + 1 < o.maxAttempts
       case Stamped(at) => |Unpruned(o, s.store, ip, at)| + 1 < o.maxAttempts
       case Added(at) => |Unpruned(o, s.store, ip, at)| < o.maxAttempts
       case _ => false
  }

  ghost predicate CanFree(o: Options, s: State, ip: string, until: Millis) {
    !OverLimit(o, s.store, ip) || exists id :: Frees(o, s, id, ip, until)
  }

  ghost predicate SomeoneProbed(s: State, ip: string) {
    exists id :: InPhase(s, id, Probed) && s.logins[id].ip == ip
  }

  /** The run ends before `until` with login `id` of the address about to pass Check. */
  ghost predicate Passes(o: Options, s: State, steps: seq<Step>, id: nat, ip: string, until: Millis) {
    && Runs(o, s, steps) && NoSuccess(o, s, steps, ip) && After(o, s, steps).now < until
    && InPhase(After(o, s, steps), id, Probed) && After(o, s, steps).logins[id].ip == ip
    && !OverLimit(o, After(o, s, steps).store, ip)
  }

  ghost predicate MayPassBefore(o: Options, s: State, ip: string, until: Millis) {
    exists steps, id :: Passes(o, s, steps, id, ip, until)
  }

  // ---- only if ----

  lemma {:induction false} UnprunedShrinks(o: Options, store: Store, ip: string, at: Millis, later: Millis)
    requires at <= later
    ensures |Unpruned(o, store, ip, later)| <= |Unpruned(o, store, ip, at)| <= ZCard(store, FailuresKey(o, ip))
  {
    SubsetSize(Unpruned(o, store, ip, later), Unpruned(o, store, ip, at));
    SubsetSize(Unpruned(o, store, ip, at), Members(store, FailuresKey(o, ip)).Keys);
  }

  lemma {:induction false} UnprunedAdded(o: Options, store: Store, ip: string, at: Millis, member: string, x: Millis)
    requires ValidOptions(o) && member !in Members(store, FailuresKey(o, ip))
    ensures var store' := AddFailure(o, store, ip, at, member);
            && |Unpruned(o, store, ip, x)| <= |Unpruned(o, store', ip, x)|
            && (x <= at ==> |Unpruned(o, store', ip, x)| == |Unpruned(o, store, ip, x)| + 1)
            && ZCard(store', FailuresKey(o, ip)) == ZCard(store, FailuresKey(o, ip)) + 1
  {
    var store' := AddFailure(o, store, ip, at, member);
    SubsetSize(Unpruned(o, store, ip, x), Unpruned(o, store', ip, x));
    if x <= at {
      assert Unpruned(o, store', ip, x) == Unpruned(o, store, ip, x) + {member};
    }
  }

  lemma {:induction false} UnprunedPruned(o: Options, store: Store, ip: string, at: Millis, x: Millis)
    ensures var store' := PruneFailures(o, store, ip, at);
            && Unpruned(o, store', ip, x) == Unpruned(o, store, ip, if x < at then at else x)
            && ZCard(store', FailuresKey(o, ip)) == |Unpruned(o, store, ip, at)|
  {
    var store' := PruneFailures(o, store, ip, at);
    assert Members(store', FailuresKey(o, ip)).Keys == Unpruned(o, store, ip, at);
  }

  lemma {:induction false} AddFreesNone(o: Options, s: State, id: nat, member: string, ip: string, until: Millis)
    requires ValidOptions(o) && Enabled(o, s, Add(id, member)) && !CanFree(o, s, ip, until) && s.logins[id].ip == ip
    ensures !CanFree(o, Next(o, s, Add(id, member)), ip, until)
  {
    var s' := Next(o, s, Add(id, member));
    var at := s.logins[id].phase.at;
    UnprunedAdded(o, s.store, ip, at, member, at);
    forall x
      ensures !Frees(o, s', x, ip, until)
    {
      assert !Frees(o, s, x, ip, until);
      UnprunedAdded(o, s.store, ip, at, member, until - 1);
      if x in s.logins && (s.logins[x].phase.Stamped? || s.logins[x].phase.Added?) {
        UnprunedAdded(o, s.store, ip, at, member, s.logins[x].phase.at);
      }
    }
  }

  lemma {:induction false} PruneFreesNone(o: Options, s: State, id: nat, ip: string, until: Millis)
    requires ValidOptions(o) && Enabled(o, s, Prune(id)) && !CanFree(o, s, ip, until) && s.logins[id].ip == ip
    requires s.logins[id].phase.at < until
    ensures !CanFree(o, Next(o, s, Prune(id)), ip, until)
  {
    var s' := Next(o, s, Prune(id));
    var at := s.logins[id].phase.at;
    assert !Frees(o, s, id, ip, until);
    UnprunedPruned(o, s.store, ip, at, at);
    forall x
      ensures !Frees(o, s', x, ip, until)
    {
      assert !Frees(o, s, x, ip, until);
      UnprunedPruned(o, s.store, ip, at, until - 1);
      if x in s.logins && (s.logins[x].phase.Stamped? || s.logins[x].phase.Added?) {
        UnprunedPruned(o, s.store, ip, at, s.logins[x].phase.at);
      }
    }
  }

  lemma {:induction false} FailFreesNone(o: Options, s: State, id: nat, ip: string, until: Millis)
    requires Enabled(o, s, Fail(id)) && !CanFree(o, s, ip, until) && s.now < until
    ensures !CanFree(o, Next(o, s, Fail(id)), ip, until)
  {
    UnprunedShrinks(o, s.store, ip, s.now, until - 1);
    forall x
      ensures !Frees(o, Next(o, s, Fail(id)), x, ip, until)
    {
      assert !Frees(o, s, x, ip, until);
    }
  }

  lemma {:induction false} OtherKeepsMembers(o: Options, s: State, step: Step, ip: string)
    requires Enabled(o, s, step)
    requires step.Add? || step.Prune? || step.Succeed? ==> s.logins[step.id].ip != ip
    ensures Members(Next(o, s, step).store, FailuresKey(o, ip)) == Members(s.store, FailuresKey(o, ip))
  {
    if !step.Tick? && !step.Begin? {
      KeysDistinct(o, ip, s.logins[step.id].ip);
    }
  }

  lemma {:induction false} OtherFreesNone(o: Options, s: State, step: Step, ip: string, until: Millis)
    requires Enabled(o, s, step) && !CanFree(o, s, ip, until)
    requires step.Add? || step.Prune? || step.Succeed? ==> s.logins[step.id].ip != ip
    requires !step.Fail?
    ensures !CanFree(o, Next(o, s, step), ip, until)
  {
    var s' := Next(o, s, step);
    OtherKeepsMembers(o, s, step, ip);
    forall x
      ensures !Frees(o, s', x, ip, until)
    {
      assert !Frees(o, s, x, ip, until);
    }
  }

  lemma {:induction false} NoneFreed(o: Options, s: State, steps: seq<Step>, ip: string, until: Millis)
    requires ValidOptions(o) && Sane(o, s) && Runs(o, s, steps) && NoSuccess(o, s, steps, ip)
    requires !CanFree(o, s, ip, until) && After(o, s, steps).now < until
    ensures !CanFree(o, After(o, s, steps), ip, until)
  {
    if steps != [] {
      var before, step := steps[..|steps| - 1], steps[|steps| - 1];
      var s1 := After(o, s, before);
      SaneRun(o, s, before);
      NoneFreed(o, s, before, ip, until);
      match step {
        case Fail(id) => FailFreesNone(o, s1, id, ip, until);
        case Add(id, member) =>
          if s1.logins[id].ip == ip { AddFreesNone(o, s1, id, member, ip, until); }
          else { OtherFreesNone(o, s1, step, ip, until); }
        case Prune(id) =>
          if s1.logins[id].ip == ip { PruneFreesNone(o, s1, id, ip, until); }
          else { OtherFreesNone(o, s1, step, ip, until); }
        case _ => OtherFreesNone(o, s1, step, ip, until);
      }
    }
  }

  // ---- if ----

  lemma {:induction false} Prepend(o: Options, s: State, step: Step, steps: seq<Step>, ip: string)
    requires Enabled(o, s, step) && Runs(o, Next(o, s, step), steps) && NoSuccess(o, Next(o, s, step), steps, ip)
    requires step.Succeed? ==> s.logins[step.id].ip != ip
    ensures Runs(o, s, [step] + steps) && NoSuccess(o, s, [step] + steps, ip)
    ensures After(o, s, [step] + steps) == After(o, Next(o, s, step), steps)
  {
    if steps == [] {
      assert [step] + steps == [] + [step];
      assert Runs(o, s, []);
      Extend(o, s, [], step);
      assert ([] + [step])[..0] == [];
    } else {
      var before := steps[..|steps| - 1];
      Prepend(o, s, step, before, ip);
      assert ([step] + steps)[..|steps|] == [step] + before;
    }
  }

  lemma {:induction false} PassesLater(o: Options, s: State, step: Step, ip: string, until: Millis)
    requires Enabled(o, s, step) && (step.Succeed? ==> s.logins[step.id].ip != ip)
    requires MayPassBefore(o, Next(o, s, step), ip, until)
    ensures MayPassBefore(o, s, ip, until)
  {
    var steps, id :| Passes(o, Next(o, s, step), steps, id, ip, until);
    Prepend(o, s, step, steps, ip);
    assert Passes(o, s, [step] + steps, id, ip, until);
  }

  lemma {:induction false} PassesNow(o: Options, s: State, ip: string, until: Millis)
    requires SomeoneProbed(s, ip) && !OverLimit(o, s.store, ip) && s.now < until
    ensures MayPassBefore(o, s, ip, until)
  {
    var id :| InPhase(s, id, Probed) && s.logins[id].ip == ip;
    assert Passes(o, s, [], id, ip, until);
  }

  lemma {:induction false} StillProbed(o: Options, s: State, step: Step, ip: string)
    requires Enabled(o, s, step) && SomeoneProbed(s, ip)
    requires step.Tick? || step.Fail? || step.Add? || step.Prune?
    ensures SomeoneProbed(Next(o, s, step), ip)
  {
    var id :| InPhase(s, id, Probed) && s.logins[id].ip == ip;
    assert InPhase(Next(o, s, step), id, Probed);
  }

  lemma {:induction false} PruneLetsPass(o: Options, s: State, id: nat, ip: string, until: Millis)
    requires SomeoneProbed(s, ip) && s.now < until && Frees(o, s, id, ip, until) && s.logins[id].phase.Added?
    ensures MayPassBefore(o, s, ip, until)
  {
    var at := s.logins[id].phase.at;
    UnprunedPruned(o, s.store, ip, at, at);
    StillProbed(o, s, Prune(id), ip);
    PassesNow(o, Next(o, s, Prune(id)), ip, until);
    PassesLater(o, s, Prune(id), ip, until);
  }

  lemma {:induction false} FreshMember(members: set<string>) returns (member: string)
    ensures member !in members
  {
    var lengths: set<nat> := set m | m in members :: |m|;
    var n := FreshIdIn(lengths);
    member := seq(n, _ => 'x');
    assert member in members ==> |member| in lengths;
  }

  lemma {:induction false} AddLetsPass(o: Options, s: State, id: nat, ip: string, until: Millis)
    requires ValidOptions(o) && SomeoneProbed(s, ip) && s.now < until
    requires Frees(o, s, id, ip, until) && s.logins[id].phase.Stamped?
    ensures MayPassBefore(o, s, ip, until)
  {
    var at := s.logins[id].phase.at;
    var member := FreshMember(Members(s.store, FailuresKey(o, ip)).Keys);
    UnprunedAdded(o, s.store, ip, at, member, at);
    StillProbed(o, s, Add(id, member), ip);
    PruneLetsPass(o, Next(o, s, Add(id, member)), id, ip, until);
    PassesLater(o, s, Add(id, member), ip, until);
  }

  lemma {:induction false} FailLetsPass(o: Options, s: State, id: nat, ip: string, until: Millis)
    requires ValidOptions(o) && SomeoneProbed(s, ip) && s.now < until
    requires Frees(o, s, id, ip, until) && s.logins[id].phase.Verifying?
    ensures MayPassBefore(o, s, ip, until)
  {
    var late := Next(o, s, Tick(until - 1));
    StillProbed(o, s, Tick(until - 1), ip);
    StillProbed(o, late, Fail(id), ip);
    AddLetsPass(o, Next(o, late, Fail(id)), id, ip, until);
    PassesLater(o, late, Fail(id), ip, until);
    PassesLater(o, s, Tick(until - 1), ip, until);
  }

  /** While the lockout key lives, some login of the address can still pass Check, without any recorded success, if
      and only if one has already looked for the key and the failure set is below the limit or can be brought there
      by one concurrent failure, which prunes as it is recorded. */
  lemma {:induction false} PassesDuringLockoutIff(o: Options, s: State, ip: string, until: Millis)
    requires ValidOptions(o) && Sane(o, s) && LockedUntil(o, s, ip, until) && s.now < until
    ensures MayPassBefore(o, s, ip, until) <==> SomeoneProbed(s, ip) && CanFree(o, s, ip, until)
  {
    if MayPassBefore(o, s, ip, until) {
      var steps, id :| Passes(o, s, steps, id, ip, until);
      ProbedEarlier(o, s, steps, id, ip, until);
      if !CanFree(o, s, ip, until) { NoneFreed(o, s, steps, ip, until); }
    }
    if SomeoneProbed(s, ip) && CanFree(o, s, ip, until) {
      if !OverLimit(o, s.store, ip) {
        PassesNow(o, s, ip, until);
      } else {
        var id :| Frees(o, s, id, ip, until);
        match s.logins[id].phase {
          case Verifying => FailLetsPass(o, s, id, ip, until);
          case Stamped(_) => AddLetsPass(o, s, id, ip, until);
          case Added(_) => PruneLetsPass(o, s, id, ip, until);
        }
      }
    }
  }

  // ---- whether an address can ever pass again ----

  /** Login `id` can bring the failure set of its address below the limit, whatever the time: by succeeding, which
      clears it, or by the pruning that comes with its failure. */
  predicate Recovers(o: Options, s: State, id: nat, ip: string) {
    && id in s.logins && s.logins[id].ip == ip
    && match s.logins[id].phase
       case Verifying => true
       case Stamped(at) => |Unpruned(o, s.store, ip, at)| + 1 < o.maxAttempts
       case Added(at) => |Unpruned(o, s.store, ip, at)| < o.maxAttempts
       case _ => false
  }

  ghost predicate CanRecover(o: Options, s: State, ip: string) {
    !OverLimit(o, s.store, ip) || exists id :: Recovers(o, s, id, ip)
  }

  /** Without a login in verification, recovering is freeing, and time does not matter. */
  lemma {:induction false} NoRecoveryMeans(o: Options, s: State, ip: string, until: Millis)
    ensures !CanRecover(o, s, ip) <==>
            !CanFree(o, s, ip, until) && forall id :: InPhase(s, id, Verifying) ==> s.logins[id].ip != ip
  {
    if !CanRecover(o, s, ip) {
      forall id
        ensures !Frees(o, s, id, ip, until)
      {
        assert !Recovers(o, s, id, ip);
      }
      forall id | InPhase(s, id, Verifying)
        ensures s.logins[id].ip != ip
      {
        assert !Recovers(o, s, id, ip);
      }
    } else if !CanFree(o, s, ip, until) {
      var id :| Recovers(o, s, id, ip);
      assert !Frees(o, s, id, ip, until);
    }
  }

  lemma {:induction false} NoneVerifying(o: Options, s: State, step: Step, ip: string)
    requires Enabled(o, s, step) && OverLimit(o, s.store, ip)
    requires forall id :: InPhase(s, id, Verifying) ==> s.logins[id].ip != ip
    ensures forall id :: InPhase(Next(o, s, step), id, Verifying) ==> Next(o, s, step).logins[id].ip != ip
  {
  }

  lemma {:induction false} NoRecoveryNext(o: Options, s: State, step: Step, ip: string)
    requires ValidOptions(o) && Sane(o, s) && Enabled(o, s, step) && !CanRecover(o, s, ip)
    ensures !CanRecover(o, Next(o, s, step), ip)
  {
    var until := s.now + 1;
    NoRecoveryMeans(o, s, ip, until);
    NoneVerifying(o, s, step, ip);
    match step {
      case Add(id, member) =>
        if s.logins[id].ip == ip { AddFreesNone(o, s, id, member, ip, until); }
        else { OtherFreesNone(o, s, step, ip, until); }
      case Prune(id) =>
        if s.logins[id].ip == ip { PruneFreesNone(o, s, id, ip, until); }
        else { OtherFreesNone(o, s, step, ip, until); }
      case Fail(id) => FailFreesNone(o, s, id, ip, until);
      case _ => OtherFreesNone(o, s, step, ip, until);
    }
    NoRecoveryMeans(o, Next(o, s, step), ip, until);
  }

  lemma {:induction false} NoRecoveryRun(o: Options, s: State, steps: seq<Step>, ip: string)
    requires ValidOptions(o) && Sane(o, s) && Runs(o, s, steps) && !CanRecover(o, s, ip)
    ensures !CanRecover(o, After(o, s, steps), ip)
  {
    if steps != [] {
      var before := steps[..|steps| - 1];
      SaneRun(o, s, before);
      NoRecoveryRun(o, s, before, ip);
      NoRecoveryNext(o, After(o, s, before), steps[|steps| - 1], ip);
    }
  }

  lemma {:induction false} AgainLater(o: Options, s: State, step: Step, ip: string)
    requires Enabled(o, s, step) && MayPassAgain(o, Next(o, s, step), ip)
    ensures MayPassAgain(o, s, ip)
  {
    var s' := Next(o, s, step);
    var steps, id :| Runs(o, s', steps) && InPhase(After(o, s', steps), id, Verifying)
                     && After(o, s', steps).logins[id].ip == ip;
    PrependAny(o, s, step, steps);
  }

  lemma {:induction false} PrependAny(o: Options, s: State, step: Step, steps: seq<Step>)
    requires Enabled(o, s, step) && Runs(o, Next(o, s, step), steps)
    ensures Runs(o, s, [step] + steps) && After(o, s, [step] + steps) == After(o, Next(o, s, step), steps)
  {
    if steps == [] {
      OneStep(o, s, step);
      assert [step] + steps == [step];
    } else {
      PrependAny(o, s, step, steps[..|steps| - 1]);
      assert ([step] + steps)[..|steps|] == [step] + steps[..|steps| - 1];
    }
  }

  lemma {:induction false} BelowAfter(o: Options, s: State, step: Step, ip: string)
    requires Sane(o, s) && ip != "" && Enabled(o, s, step) && !OverLimit(o, Next(o, s, step).store, ip)
    ensures MayPassAgain(o, s, ip)
  {
    SaneStep(o, s, step);
    PassesBelowLimit(o, Next(o, s, step), ip);
    AgainLater(o, s, step, ip);
  }

  lemma {:induction false} RecoveringPasses(o: Options, s: State, id: nat, ip: string)
    requires ValidOptions(o) && Sane(o, s) && ip != "" && Recovers(o, s, id, ip)
    ensures MayPassAgain(o, s, ip)
  {
    match s.logins[id].phase {
      case Verifying =>
        assert Runs(o, s, []) && After(o, s, []) == s;
      case Stamped(at) =>
        var member := FreshMember(Members(s.store, FailuresKey(o, ip)).Keys);
        UnprunedAdded(o, s.store, ip, at, member, at);
        var added := Next(o, s, Add(id, member));
        UnprunedPruned(o, added.store, ip, at, at);
        SaneStep(o, s, Add(id, member));
        BelowAfter(o, added, Prune(id), ip);
        AgainLater(o, s, Add(id, member), ip);
      case Added(at) =>
        UnprunedPruned(o, s.store, ip, at, at);
        BelowAfter(o, s, Prune(id), ip);
    }
  }

  /** In any state, a login of the address can be past Check again in some continuation if and only if the failure set
      is below the limit, or some login under way can bring it there. Time alone never does. */
  lemma {:induction false} PassesAgainIff(o: Options, s: State, ip: string)
    requires ValidOptions(o) && Sane(o, s) && ip != ""
    ensures MayPassAgain(o, s, ip) <==> CanRecover(o, s, ip)
  {
    if CanRecover(o, s, ip) {
      if !OverLimit(o, s.store, ip) {
        PassesBelowLimit(o, s, ip);
      } else {
        var id :| Recovers(o, s, id, ip);
        RecoveringPasses(o, s, id, ip);
      }
    } else {
      forall steps, id | Runs(o, s, steps) && InPhase(After(o, s, steps), id, Verifying)
        ensures After(o, s, steps).logins[id].ip != ip
      {
        NoRecoveryRun(o, s, steps, ip);
        assert !Recovers(o, After(o, s, steps), id, ip);
      }
    }
  }

  // ---- runs from an empty store ----

  const START := State(0, map[], map[])

  ghost predicate Reachable(o: Options, s: State) {
    exists steps :: Runs(o, START, steps) && After(o, START, steps) == s
  }

  lemma {:induction false} ReachableStart(o: Options)
    ensures Reachable(o, START)
  {
    assert Runs(o, START, []) && After(o, START, []) == START;
  }

  lemma {:induction false} ReachableStep(o: Options, s: State, step: Step)
    requires Reachable(o, s) && Enabled(o, s, step)
    ensures Reachable(o, Next(o, s, step))
  {
    var steps :| Runs(o, START, steps) && After(o, START, steps) == s;
    Extend(o, START, steps, step);
  }

  lemma {:induction false} Probing(o: Options, s: State, id: nat, ip: string)
    requires Reachable(o, s) && id !in s.logins && ip != "" && !Locked(o, s.store, ip, s.now)
    ensures Reachable(o, s.(logins := s.logins[id := Login(ip, Probed)]))
  {
    var begun := s.(logins := s.logins[id := Login(ip, Started)]);
    ReachableStep(o, s, Begin(id, ip));
    ReachableStep(o, begun, Probe(id));
    assert begun.logins[id := Login(ip, Probed)] == s.logins[id := Login(ip, Probed)];
  }

  lemma {:induction false} Counting(o: Options, s: State, id: nat)
    requires Reachable(o, s) && InPhase(s, id, Probed)
    ensures var ip := s.logins[id].ip;
            Reachable(o, Move(s, id, if OverLimit(o, s.store, ip) then Over else Verifying))
  {
    ReachableStep(o, s, Count(id));
  }

  /** A login that passes Check. */
  lemma {:induction false} Passing(o: Options, s: State, id: nat, ip: string)
    requires Reachable(o, s) && id !in s.logins && ip != "" && !Locked(o, s.store, ip, s.now)
    requires !OverLimit(o, s.store, ip)
    ensures Reachable(o, s.(logins := s.logins[id := Login(ip, Verifying)]))
  {
    Probing(o, s, id, ip);
    var probed := s.(logins := s.logins[id := Login(ip, Probed)]);
    Counting(o, probed, id);
    assert probed.logins[id := Login(ip, Verifying)] == s.logins[id := Login(ip, Verifying)];
  }

  /** A login in verification fails, and is recorded at once. */
  lemma {:induction false} Failing(o: Options, s: State, id: nat, member: string)
    requires Reachable(o, s) && InPhase(s, id, Verifying)
    requires member !in Members(s.store, FailuresKey(o, s.logins[id].ip))
    ensures var ip := s.logins[id].ip;
            Reachable(o, Finish(s, id, PruneFailures(o, AddFailure(o, s.store, ip, s.now, member), ip, s.now)))
  {
    var stamped := Next(o, s, Fail(id));
    var added := Next(o, stamped, Add(id, member));
    ReachableStep(o, s, Fail(id));
    ReachableStep(o, stamped, Add(id, member));
    ReachableStep(o, added, Prune(id));
    assert added.logins - {id} == s.logins - {id};
  }

  const TWO := Options(10, 2, 1000, "k")

  function Failed(o: Options, ip: string, members: map<string, Millis>): Store {
    map[FailuresKey(o, ip) := SortedSet(members)]
  }

  lemma {:induction false} RecordsIn(o: Options, ip: string, members: map<string, Millis>, member: string)
    requires ValidOptions(o) && forall m :: m in members ==> members[m] == 0
    ensures PruneFailures(o, AddFailure(o, Failed(o, ip, members), ip, 0, member), ip, 0)
            == Failed(o, ip, members[member := 0])
    ensures PruneFailures(o, AddFailure(o, map[], ip, 0, member), ip, 0) == Failed(o, ip, map[member := 0])
  {
    var added := members[member := 0];
    assert (map m | m in added && !(0 <= added[m] <= -o.window) :: added[m]) == added;
    var only := map[member := 0];
    assert (map m | m in only && !(0 <= only[m] <= -o.window) :: only[m]) == only;
  }

  const BOTH := map["a" := 0, "b" := 0]

  /** The moment before the lockout: two failures at 0, login 3 verifying since before the second, logins 4 and 5
      past their look for the key, login 5 over the limit. */
  function BeforeLock(ip: string): State {
    State(100, Failed(TWO, ip, BOTH), map[3 := Login(ip, Verifying), 4 := Login(ip, Probed), 5 := Login(ip, Over)])
  }

  lemma {:induction false} ThreeVerify(ip: string)
    requires ip != ""
    ensures var l := Login(ip, Verifying); Reachable(TWO, State(0, map[], map[1 := l, 2 := l, 3 := l]))
  {
    var l := Login(ip, Verifying);
    ReachableStart(TWO);
    Passing(TWO, START, 1, ip);
    Passing(TWO, State(0, map[], map[1 := l]), 2, ip);
    Passing(TWO, State(0, map[], map[1 := l, 2 := l]), 3, ip);
  }

  lemma {:induction false} FirstFails(ip: string)
    requires ip != ""
    ensures var l := Login(ip, Verifying); Reachable(TWO, State(0, Failed(TWO, ip, map["a" := 0]), map[2 := l, 3 := l]))
  {
    var l := Login(ip, Verifying);
    var three := State(0, map[], map[1 := l, 2 := l, 3 := l]);
    ThreeVerify(ip);
    Failing(TWO, three, 1, "a");
    RecordsIn(TWO, ip, map[], "a");
    assert three.logins - {1} == map[2 := l, 3 := l];
  }

  lemma {:induction false} BothFailed(ip: string)
    requires ip != ""
    ensures Reachable(TWO, State(0, Failed(TWO, ip, BOTH), map[3 := Login(ip, Verifying)]))
  {
    var l := Login(ip, Verifying);
    var two := State(0, Failed(TWO, ip, map["a" := 0]), map[2 := l, 3 := l]);
    FirstFails(ip);
    Failing(TWO, two, 2, "b");
    RecordsIn(TWO, ip, map["a" := 0], "b");
    assert two.logins - {2} == map[3 := l];
  }

  lemma {:induction false} BeforeLockReached(ip: string)
    requires ip != ""
    ensures Reachable(TWO, BeforeLock(ip))
  {
    BothFailed(ip);
    KeysDistinct(TWO, ip, ip);
    var v, p := Login(ip, Verifying), Login(ip, Probed);
    var store := Failed(TWO, ip, BOTH);
    Probing(TWO, State(0, store, map[3 := v]), 4, ip);
    Probing(TWO, State(0, store, map[3 := v, 4 := p]), 5, ip);
    var probed := State(0, store, map[3 := v, 4 := p, 5 := p]);
    assert BOTH.Keys == {"a", "b"};
    Counting(TWO, probed, 5);
    var over := State(0, store, map[3 := v, 4 := p, 5 := Login(ip, Over)]);
    assert Move(probed, 5, Over) == over;
    ReachableStep(TWO, over, Tick(100));
  }

  /** The same with the lockout set, and then with login 3's failure recorded. */
  function Locked5(ip: string): State {
    var s := BeforeLock(ip);
    State(100, s.store[LockoutKey(TWO, ip) := Text("1", 1100)], map[3 := Login(ip, Verifying), 4 := Login(ip, Probed)])
  }

  function Recorded3(ip: string): State {
    State(100, Failed(TWO, ip, map["c" := 100])[LockoutKey(TWO, ip) := Text("1", 1100)], map[4 := Login(ip, Probed)])
  }

  lemma {:induction false} LockSets(ip: string)
    ensures Enabled(TWO, BeforeLock(ip), Lock(5)) && Next(TWO, BeforeLock(ip), Lock(5)) == Locked5(ip)
    ensures LockedUntil(TWO, Locked5(ip), ip, 1100)
  {
    KeysDistinct(TWO, ip, ip);
    assert BeforeLock(ip).logins - {5} == Locked5(ip).logins;
  }

  /** ... and with the failure in the set but not yet pruned. */
  function Added3(ip: string): State {
    State(100, Failed(TWO, ip, BOTH["c" := 100])[LockoutKey(TWO, ip) := Text("1", 1100)],
          map[3 := Login(ip, LoginThrottle.Added(100)), 4 := Login(ip, Probed)])
  }

  function Stamped3(ip: string): State {
    Locked5(ip).(logins := map[3 := Login(ip, LoginThrottle.Stamped(100)), 4 := Login(ip, Probed)])
  }

  lemma {:induction false} FailureStamps(ip: string)
    ensures Enabled(TWO, Locked5(ip), Fail(3)) && Next(TWO, Locked5(ip), Fail(3)) == Stamped3(ip)
  {
    assert Next(TWO, Locked5(ip), Fail(3)).logins == Stamped3(ip).logins;
  }

  /** With a lockout in place, adding a failure changes the failure set alone. */
  lemma {:induction false} AddsBesideLockout(o: Options, ip: string, members: map<string, Millis>, lock: Entry, at: Millis,
                                             member: string)
    ensures var store := Failed(o, ip, members)[LockoutKey(o, ip) := lock];
            && Members(store, FailuresKey(o, ip)) == members
            && AddFailure(o, store, ip, at, member) == Failed(o, ip, members[member := at])[LockoutKey(o, ip) := lock]
  {
    KeysDistinct(o, ip, ip);
  }

  lemma {:induction false} FailureAdds(ip: string)
    ensures Enabled(TWO, Stamped3(ip), Add(3, "c")) && Next(TWO, Stamped3(ip), Add(3, "c")) == Added3(ip)
  {
    AddsBesideLockout(TWO, ip, BOTH, Text("1", 1100), 100, "c");
    assert Next(TWO, Stamped3(ip), Add(3, "c")).logins == Added3(ip).logins;
  }

  lemma {:induction false} PrunesBesideLockout(o: Options, ip: string, lock: Entry)
    requires o.window == 10
    ensures PruneFailures(o, Failed(o, ip, BOTH["c" := 100])[LockoutKey(o, ip) := lock], ip, 100)
            == Failed(o, ip, map["c" := 100])[LockoutKey(o, ip) := lock]
  {
    KeysDistinct(o, ip, ip);
    var members := BOTH["c" := 100];
    assert (map m | m in members && !(0 <= members[m] <= 90) :: members[m]) == map["c" := 100];
  }

  lemma {:induction false} FailureLeaves(ip: string)
    ensures Enabled(TWO, Added3(ip), Prune(3)) && Next(TWO, Added3(ip), Prune(3)) == Recorded3(ip)
  {
    PrunesBesideLockout(TWO, ip, Text("1", 1100));
    assert Next(TWO, Added3(ip), Prune(3)).logins == Recorded3(ip).logins;
  }

  lemma {:induction false} ThreeSteps(o: Options, s: State, a: Step, b: Step, c: Step)
    requires Enabled(o, s, a) && Enabled(o, Next(o, s, a), b) && Enabled(o, Next(o, Next(o, s, a), b), c)
    ensures Runs(o, s, [a, b, c]) && After(o, s, [a, b, c]) == Next(o, Next(o, Next(o, s, a), b), c)
  {
    OneStep(o, s, a);
    Extend(o, s, [a], b);
    Extend(o, s, [a] + [b], c);
    assert [a] + [b] + [c] == [a, b, c];
  }

  lemma {:induction false} FailurePrunes(ip: string)
    ensures Runs(TWO, Locked5(ip), [Fail(3), Add(3, "c"), Prune(3)])
    ensures After(TWO, Locked5(ip), [Fail(3), Add(3, "c"), Prune(3)]) == Recorded3(ip)
  {
    FailureStamps(ip);
    FailureAdds(ip);
    FailureLeaves(ip);
    ThreeSteps(TWO, Locked5(ip), Fail(3), Add(3, "c"), Prune(3));
  }

  /** A login passes Check during a lockout that was just set: while it sat between looking for the key and counting,
      a concurrent failure pruned the set below the limit. */
  lemma {:induction false} PassesDuringLockout(ip: string)
    requires ip != ""
    ensures Reachable(TWO, BeforeLock(ip)) && Enabled(TWO, BeforeLock(ip), Lock(5))
    ensures var s := Next(TWO, BeforeLock(ip), Lock(5));
            && LockedUntil(TWO, s, ip, 1100)
            && Runs(TWO, s, [Fail(3), Add(3, "c"), Prune(3)])
            && var s' := After(TWO, s, [Fail(3), Add(3, "c"), Prune(3)]);
               && s'.now < 1100 && Enabled(TWO, s', Count(4))
               && InPhase(Next(TWO, s', Count(4)), 4, Verifying) && Locked(TWO, s'.store, ip, s'.now)
  {
    BeforeLockReached(ip);
    LockSets(ip);
    FailurePrunes(ip);
    KeysDistinct(TWO, ip, ip);
    assert map["c" := 100].Keys == {"c"};
  }

  const ONE := Options(10, 1, 1000, "k")

  /** After one failure and any wait the address is idle, no lockout key was ever set, and no login of it can ever
      pass again. */
  lemma {:induction false} IdleAddressStaysRefused(ip: string, later: Millis)
    requires ip != "" && 0 <= later
    ensures var s := State(later, Failed(ONE, ip, map["a" := 0]), map[]);
            && Reachable(ONE, s) && s.logins == map[] && !Locked(ONE, s.store, ip, later)
            && !MayPassAgain(ONE, s, ip)
  {
    ReachableStart(ONE);
    Passing(ONE, START, 1, ip);
    var verifying := State(0, map[], map[1 := Login(ip, Verifying)]);
    Failing(ONE, verifying, 1, "a");
    RecordsIn(ONE, ip, map[], "a");
    var idle := State(0, Failed(ONE, ip, map["a" := 0]), map[]);
    assert verifying.logins - {1} == map[];
    ReachableStep(ONE, idle, Tick(later));
    var s := State(later, Failed(ONE, ip, map["a" := 0]), map[]);
    KeysDistinct(ONE, ip, ip);
    forall x | LockoutKey(ONE, x) in s.store
      ensures false
    {
      KeysDistinct(ONE, ip, x);
    }
    assert map["a" := 0].Keys == {"a"};
    PassesAgainIffBelowLimit(ONE, s, ip);
  }
}
