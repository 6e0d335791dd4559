/**
 * The token revocation protocol: one users table, any number of server instances each with its own
 * TokensCache. Looking in the cache, reading the database and taking the cache's lock are separate steps, so a
 * value read early can be written late. A bump carries the time its transaction began and lands when it commits,
 * so two bumps of one user may land in the other order. The users table never loses a row.
 */
module TokenRevocation {
  import opened Wrappers
  import opened TokensCache

  type User = string

  /** A value on its way into a cache: read by a missed Get, or passed to Set by Logout or ChangePassword. */
  datatype Write = LoadWrite(user: User, tva: Time) | SetWrite(user: User, tva: Time)

  /** `misses` are calls of Get that found nothing and have not read the row yet; `refresh` is the snapshot the
      refresher goroutine has read and not yet installed. */
  datatype Instance = Instance(values: Values, misses: multiset<User>, writes: multiset<Write>, refresh: Option<Values>)

  /** An update that has begun: `stamp` is its now(); a logout's server sets its cache once it has committed. */
  datatype Bump = Bump(user: User, stamp: Time, server: Option<nat>)

  /** `rows` is users.tokens_valid_after; `clock` is the database's. */
  datatype State = State(clock: Time, rows: map<User, Time>, bumps: multiset<Bump>, instances: map<nat, Instance>)

  datatype Step =
    | Tick(now: Time)
    | StartInstance(i: nat)
    | Register(user: User)               // a new row, tokens_valid_after = 'epoch'
    | BeginLogout(i: nat, user: User)    // BumpTokensValidAfter
    | BeginChange(user: User)            // UpdatePasswordHash
    | Commit(bump: Bump)
    | Rollback(bump: Bump)
    | ReadBack(i: nat, user: User)       // GetUserById after a password change has committed, for Set
    | Miss(i: nat, user: User)           // Get finds nothing under the read lock
    | MissRead(i: nat, user: User)       // its loader reads the row
    | MissFail(i: nat, user: User)       // its loader fails, and the request is let through
    | Install(i: nat, write: Write)      // the locked write
    | Drop(i: nat, write: Write)         // the request ends without writing
    | RefreshRead(i: nat)                // the full loader reads all rows
    | RefreshInstall(i: nat)             // SetBatch
    | RefreshDrop(i: nat)                // a failed full load: nothing is installed

  predicate Enabled(s: State, step: Step) {
    match step
    case Tick(now) => s.clock <= now
    case StartInstance(i) => i !in s.instances
    case Register(user) => user != "" && user !in s.rows
    case BeginLogout(i, user) => i in s.instances && user in s.rows
    case BeginChange(user) => user in s.rows
    case Commit(bump) => bump in s.bumps
    case Rollback(bump) => bump in s.bumps
    case ReadBack(i, user) => i in s.instances && user in s.rows
    case Miss(i, user) => i in s.instances && user !in s.instances[i].values
    case MissRead(i, user) => i in s.instances && user in s.instances[i].misses && user in s.rows
    case MissFail(i, user) => i in s.instances && user in s.instances[i].misses
    case Install(i, write) => i in s.instances && write in s.instances[i].writes
    case Drop(i, write) => i in s.instances && write in s.instances[i].writes
    case RefreshRead(i) => i in s.instances && s.instances[i].refresh.None?
    case RefreshInstall(i) => i in s.instances && s.instances[i].refresh.Some?
    case RefreshDrop(i) => i in s.instances && s.instances[i].refresh.Some?
  }

  function Queue(n: Instance, write: Write): Instance {
    n.(writes := n.writes + multiset{write})
  }

  /** What instance n becomes in the steps that are its own. */
  function Local(s: State, n: Instance, step: Step): Instance {
    match step
    case ReadBack(_, user) => if user in s.rows then Queue(n, SetWrite(user, s.rows[user])) else n
    case Miss(_, user) => n.(misses := n.misses + multiset{user})
    case MissRead(_, user) =>
      if user in s.rows then Queue(n.(misses := n.misses - multiset{user}), LoadWrite(user, s.rows[user])) else n
    case MissFail(_, user) => n.(misses := n.misses - multiset{user})
    case Install(_, write) => n.(writes := n.writes - multiset{write}, values := Stored(n.values, write.user, write.tva))
    case Drop(_, write) => n.(writes := n.writes - multiset{write})
    case RefreshRead(_) => n.(refresh := Some(s.rows))
    case RefreshInstall(_) => if n.refresh.Some? then n.(values := n.refresh.value, refresh := None) else n
    case RefreshDrop(_) => n.(refresh := None)
    case _ => n
  }

  predicate IsLocal(step: Step) {
    step.ReadBack? || step.Miss? || step.MissRead? || step.MissFail? || step.Install? || step.Drop? || step.RefreshRead?
    || step.RefreshInstall? || step.RefreshDrop?
  }

  function Next(s: State, step: Step): State
    requires Enabled(s, step)
  {
    match step
    case Tick(now) => s.(clock := now)
    case StartInstance(i) => s.(instances := s.instances[i := Instance(map[], multiset{}, multiset{}, None)])
    case Register(user) => s.(rows := s.rows[user := 0])
    case BeginLogout(i, user) => s.(bumps := s.bumps + multiset{Bump(user, s.clock, Some(i))})
    case BeginChange(user) => s.(bumps := s.bumps + multiset{Bump(user, s.clock, None)})
    case Commit(bump) =>
      s.(bumps := s.bumps - multiset{bump}, rows := s.rows[bump.user := bump.stamp],
         instances := if bump.server.Some? && bump.server.value in s.instances
                      then s.instances[bump.server.value :=
                             Queue(s.instances[bump.server.value], SetWrite(bump.user, bump.stamp))]
                      else s.instances)
    case Rollback(bump) => s.(bumps := s.bumps - multiset{bump})
    case _ => s.(instances := s.instances[step.i := Local(s, s.instances[step.i], step)])
  }

  ghost predicate Runs(s: State, steps: seq<Step>)
    decreases |steps|, 0
  {
    steps != [] ==>
      && Runs(s, steps[..|steps| - 1])
      && Enabled(After(s, steps[..|steps| - 1]), steps[|steps| - 1])
  }

  ghost function After(s: State, steps: seq<Step>): State
    requires Runs(s, steps)
    decreases |steps|, 1
  {
    if steps == [] then s else Next(After(s, steps[..|steps| - 1]), steps[|steps| - 1])
  }

  const INIT := State(0, map[], multiset{}, map[])

  ghost predicate Reachable(s: State) {
    exists steps :: Runs(INIT, steps) && After(INIT, steps) == s
  }

  lemma {:induction false} ReachableStart()
    ensures Reachable(INIT)
  {
    assert Runs(INIT, []) && After(INIT, []) == INIT;
  }

  lemma {:induction false} ReachableStep(s: State, step: Step)
    requires Reachable(s) && Enabled(s, step)
    ensures Reachable(Next(s, step))
  {
    var steps :| Runs(INIT, steps) && After(INIT, steps) == s;
    assert (steps + [step])[..|steps|] == steps;
    assert Runs(INIT, steps + [step]);
  }

  lemma {:induction false} ReachableRun(s: State, steps: seq<Step>)
    requires Reachable(s) && Runs(s, steps)
    ensures Reachable(After(s, steps))
  {
    if steps != [] {
      ReachableRun(s, steps[..|steps| - 1]);
      ReachableStep(After(s, steps[..|steps| - 1]), steps[|steps| - 1]);
    }
  }

  // ---- every value in a cache was once in the row ----

  /** Instance n carries tva for user: cached, queued for writing, or in the snapshot being installed. */
  predicate Carries(n: Instance, user: User, tva: Time) {
    || (user in n.values && n.values[user] == tva)
    || LoadWrite(user, tva) in n.writes
    || SetWrite(user, tva) in n.writes
    || (n.refresh.Some? && user in n.refresh.value && n.refresh.value[user] == tva)
  }

  /** After some prefix of the run the row of `user` held `tva`. */
  ghost predicate HeldDuring(steps: seq<Step>, user: User, tva: Time)
    requires Runs(INIT, steps)
  {
    exists k | 0 <= k <= |steps| ::
      Runs(INIT, steps[..k]) && var rows := After(INIT, steps[..k]).rows; user in rows && rows[user] == tva
  }

  lemma {:induction false} HeldLonger(steps: seq<Step>, user: User, tva: Time)
    requires steps != [] && Runs(INIT, steps) && HeldDuring(steps[..|steps| - 1], user, tva)
    ensures HeldDuring(steps, user, tva)
  {
    var before := steps[..|steps| - 1];
    var k :| 0 <= k <= |before| && Runs(INIT, before[..k]) &&
             var rows := After(INIT, before[..k]).rows; user in rows && rows[user] == tva;
    assert before[..k] == steps[..k];
  }

  lemma {:induction false} LocalCarries(s: State, n: Instance, step: Step, user: User, tva: Time)
    requires IsLocal(step) && Carries(Local(s, n, step), user, tva)
    requires step.Install? ==> step.write in n.writes
    ensures Carries(n, user, tva) || (user in s.rows && s.rows[user] == tva)
  {
  }

  /** One step lets an instance carry only what it carried before or what the row holds before or after. */
  lemma {:induction false} CarriedNext(s: State, step: Step, i: nat, user: User, tva: Time)
    requires Enabled(s, step) && i in Next(s, step).instances && Carries(Next(s, step).instances[i], user, tva)
    ensures || (i in s.instances && Carries(s.instances[i], user, tva))
            || (user in s.rows && s.rows[user] == tva)
            || (user in Next(s, step).rows && Next(s, step).rows[user] == tva)
  {
    if IsLocal(step) && step.i == i {
      LocalCarries(s, s.instances[i], step, user, tva);
    }
  }

  /** Whatever an instance carries was the row's value at some earlier point of the run. */
  lemma {:induction false} CarriedWasHeld(steps: seq<Step>, i: nat, user: User, tva: Time)
    requires Runs(INIT, steps)
    requires i in After(INIT, steps).instances && Carries(After(INIT, steps).instances[i], user, tva)
    ensures HeldDuring(steps, user, tva)
  {
    if steps != [] {
      var before := steps[..|steps| - 1];
      var s := After(INIT, before);
      CarriedNext(s, steps[|steps| - 1], i, user, tva);
      if i in s.instances && Carries(s.instances[i], user, tva) {
        CarriedWasHeld(before, i, user, tva);
        HeldLonger(steps, user, tva);
      } else {
        assert steps[..|before|] == before && steps[..|steps|] == steps;
      }
    }
  }

  // ---- bounds ----

  /** For `user`, the row, every bump under way and every value carried lie between `lo` and `hi`. */
  ghost predicate Within(s: State, user: User, lo: Time, hi: Time) {
    && (user in s.rows ==> lo <= s.rows[user] <= hi)
    && (forall b :: b in s.bumps && b.user == user ==> lo <= b.stamp <= hi)
    && (forall i, tva :: i in s.instances && Carries(s.instances[i], user, tva) ==> lo <= tva <= hi)
  }

  predicate Begins(step: Step, user: User) {
    (step.BeginLogout? || step.BeginChange?) && step.user == user
  }

  lemma {:induction false} WithinNext(s: State, step: Step, user: User, lo: Time, hi: Time)
    requires Enabled(s, step) && Within(s, user, lo, hi)
    requires Begins(step, user) ==> lo <= s.clock <= hi
    requires step == Register(user) ==> lo <= 0 <= hi
    ensures Within(Next(s, step), user, lo, hi)
  {
    var s' := Next(s, step);
    forall i, tva | i in s'.instances && Carries(s'.instances[i], user, tva)
      ensures lo <= tva <= hi
    {
      CarriedNext(s, step, i, user, tva);
    }
  }

  lemma {:induction false} WithinWiden(s: State, user: User, lo: Time, hi: Time, hi': Time)
    requires Within(s, user, lo, hi) && hi <= hi'
    ensures Within(s, user, lo, hi')
  {
  }

  lemma {:induction false} RunBounded(steps: seq<Step>, user: User)
    requires Runs(INIT, steps)
    ensures 0 <= After(INIT, steps).clock && Within(After(INIT, steps), user, 0, After(INIT, steps).clock)
  {
    if steps != [] {
      var before := steps[..|steps| - 1];
      var s := After(INIT, before);
      RunBounded(before, user);
      WithinNext(s, steps[|steps| - 1], user, 0, s.clock);
      WithinWiden(After(INIT, steps), user, 0, s.clock, After(INIT, steps).clock);
    }
  }

  /** In every reachable state the row, the bumps under way and all that is carried lie between the epoch and the
      clock. */
  lemma {:induction false} CarriedBounded(s: State, user: User)
    requires Reachable(s)
    ensures 0 <= s.clock && Within(s, user, 0, s.clock)
  {
    var steps :| Runs(INIT, steps) && After(INIT, steps) == s;
    RunBounded(steps, user);
  }

  // ---- does a row ever go back? ----

  /** The bumps of the user that commit do so in the order they began: none carries an earlier stamp than the row it
      overwrites. */
  ghost predicate InOrder(s: State, steps: seq<Step>, user: User)
    requires Runs(s, steps)
  {
    steps != [] ==>
      var before, last := steps[..|steps| - 1], steps[|steps| - 1];
      && InOrder(s, before, user)
      && (last.Commit? && last.bump.user == user && user in After(s, before).rows ==>
           After(s, before).rows[user] <= last.bump.stamp)
  }

  /** The row's time after any part of the run is no later than after any longer part. */
  ghost predicate RowGrows(s: State, steps: seq<Step>, user: User)
    requires Runs(s, steps)
  {
    forall j, k :: 0 <= j <= k <= |steps| && Runs(s, steps[..j]) && Runs(s, steps[..k])
                   && user in After(s, steps[..j]).rows ==>
      user in After(s, steps[..k]).rows && After(s, steps[..j]).rows[user] <= After(s, steps[..k]).rows[user]
  }

  lemma {:induction false} RowNext(s: State, step: Step, user: User)
    requires Enabled(s, step) && user in s.rows
    requires step.Commit? && step.bump.user == user ==> s.rows[user] <= step.bump.stamp
    ensures user in Next(s, step).rows && s.rows[user] <= Next(s, step).rows[user]
  {
  }

  lemma {:induction false} GrowsTo(s: State, steps: seq<Step>, j: nat, user: User)
    requires Runs(s, steps) && InOrder(s, steps, user) && j <= |steps|
    requires Runs(s, steps[..j]) && user in After(s, steps[..j]).rows
    ensures user in After(s, steps).rows && After(s, steps[..j]).rows[user] <= After(s, steps).rows[user]
    decreases |steps|
  {
    if j == |steps| {
      assert steps[..j] == steps;
    } else {
      var before := steps[..|steps| - 1];
      assert before[..j] == steps[..j];
      GrowsTo(s, before, j, user);
      RowNext(After(s, before), steps[|steps| - 1], user);
    }
  }

  lemma {:induction false} InOrderPrefix(s: State, steps: seq<Step>, k: nat, user: User)
    requires Runs(s, steps) && InOrder(s, steps, user) && k <= |steps|
    ensures Runs(s, steps[..k]) && InOrder(s, steps[..k], user)
    decreases |steps|
  {
    if k == |steps| {
      assert steps[..k] == steps;
    } else {
      InOrderPrefix(s, steps[..|steps| - 1], k, user);
      assert steps[..|steps| - 1][..k] == steps[..k];
    }
  }

  lemma {:induction false} GrowingIsInOrder(s: State, steps: seq<Step>, user: User)
    requires Runs(s, steps) && RowGrows(s, steps, user)
    ensures InOrder(s, steps, user)
    decreases |steps|
  {
    if steps != [] {
      var before := steps[..|steps| - 1];
      RowGrowsBefore(s, steps, user);
      GrowingIsInOrder(s, before, user);
      assert steps[..|before|] == before && steps[..|steps|] == steps;
    }
  }

  lemma {:induction false} RowGrowsBefore(s: State, steps: seq<Step>, user: User)
    requires steps != [] && Runs(s, steps) && RowGrows(s, steps, user)
    ensures RowGrows(s, steps[..|steps| - 1], user)
  {
    var before := steps[..|steps| - 1];
    forall j, k | 0 <= j <= k <= |before| && Runs(s, before[..j]) && Runs(s, before[..k])
                  && user in After(s, before[..j]).rows
      ensures user in After(s, before[..k]).rows
      ensures After(s, before[..j]).rows[user] <= After(s, before[..k]).rows[user]
    {
      assert before[..j] == steps[..j] && before[..k] == steps[..k];
    }
  }

  /** A row's time never decreases over a run exactly when the bumps of its user that commit do so in the order they
      began. The transaction's now() is taken before its row lock, so nothing makes them. */
  lemma {:induction false} RowsOnlyGrow(s: State, steps: seq<Step>, user: User)
    requires Runs(s, steps)
    ensures RowGrows(s, steps, user) <==> InOrder(s, steps, user)
  {
    if InOrder(s, steps, user) {
      forall j, k | 0 <= j <= k <= |steps| && Runs(s, steps[..j]) && Runs(s, steps[..k])
                    && user in After(s, steps[..j]).rows
        ensures user in After(s, steps[..k]).rows
        ensures After(s, steps[..j]).rows[user] <= After(s, steps[..k]).rows[user]
      {
        InOrderPrefix(s, steps, k, user);
        assert steps[..k][..j] == steps[..j];
        GrowsTo(s, steps[..k], j, user);
      }
    }
    if RowGrows(s, steps, user) {
      GrowingIsInOrder(s, steps, user);
    }
  }

  /** In a run whose row never went back, nothing carried is above the row. */
  lemma {:induction false} InOrderCarriedBounded(steps: seq<Step>, i: nat, user: User, tva: Time)
    requires Runs(INIT, steps) && InOrder(INIT, steps, user)
    requires i in After(INIT, steps).instances && Carries(After(INIT, steps).instances[i], user, tva)
    ensures user in After(INIT, steps).rows && tva <= After(INIT, steps).rows[user]
  {
    CarriedWasHeld(steps, i, user, tva);
    var k :| 0 <= k <= |steps| && Runs(INIT, steps[..k]) &&
             var rows := After(INIT, steps[..k]).rows; user in rows && rows[user] == tva;
    GrowsTo(INIT, steps, k, user);
  }

  // ---- what the middleware may decide ----

  /** Some check of instance n that is decided now may admit a token of `user` issued at `iat`:
      a miss whose load fails always admits; a hit compares the cached value; a request that is
      finishing its own load compares the value it loaded. */
  predicate MayAdmit(n: Instance, user: User, iat: Time) {
    || user !in n.values
    || user in n.misses
    || !IsRevokedBy(Some(iat), n.values[user])
    || exists w :: w in n.writes && w.LoadWrite? && w.user == user && !IsRevokedBy(Some(iat), w.tva)
  }

  /** Some check of instance i that is decided now may reject that token. */
  predicate MayReject(s: State, i: nat, user: User, iat: Time)
    requires i in s.instances
  {
    var n := s.instances[i];
    || IsRevokedBy(Some(iat), Lookup(n.values, user, LoadFailed).0)
    || (user in s.rows && (user !in n.values || user in n.misses) && IsRevokedBy(Some(iat), s.rows[user]))
    || exists w :: w in n.writes && w.LoadWrite? && w.user == user && IsRevokedBy(Some(iat), w.tva)
  }

  lemma {:induction false} NoneAboveNoneRejected(s: State, i: nat, user: User, iat: Time)
    requires Within(s, user, 0, iat) && i in s.instances
    ensures !MayReject(s, i, user, iat)
  {
    var n := s.instances[i];
    if user in n.values { assert Carries(n, user, n.values[user]); }
    forall w | w in n.writes && w.LoadWrite? && w.user == user
      ensures !IsRevokedBy(Some(iat), w.tva)
    {
      assert Carries(n, user, w.tva);
    }
  }

  lemma {:induction false} WithinRun(s: State, steps: seq<Step>, user: User, iat: Time)
    requires Runs(s, steps) && Within(s, user, 0, iat) && 0 <= iat
    requires forall k :: 0 <= k < |steps| ==> !Begins(steps[k], user)
    ensures Within(After(s, steps), user, 0, iat)
  {
    if steps != [] {
      var before := steps[..|steps| - 1];
      assert forall k :: 0 <= k < |before| ==> before[k] == steps[k];
      WithinRun(s, before, user, iat);
      WithinNext(After(s, before), steps[|steps| - 1], user, 0, iat);
    }
  }

  /** A token is rejected only by a bump that began after it was issued: when every bump of its user began at or before
      the token's time, no check of any instance ever rejects it, in whatever order those bumps, the loads and the
      refreshes land. */
  lemma {:induction false} FreshTokenNeverRejected(s: State, steps: seq<Step>, i: nat, user: User, iat: Time)
    requires Reachable(s) && s.clock <= iat && Runs(s, steps) && i in After(s, steps).instances
    requires forall k :: 0 <= k < |steps| ==> !Begins(steps[k], user)
    ensures !MayReject(After(s, steps), i, user, iat)
  {
    CarriedBounded(s, user);
    WithinWiden(s, user, 0, s.clock, iat);
    WithinRun(s, steps, user, iat);
    NoneAboveNoneRejected(After(s, steps), i, user, iat);
  }

  // ---- when revocation has reached an instance for good ----

  /** Nothing the instance holds or is about to install could let a token issued before T pass. */
  predicate Sealed(n: Instance, user: User, T: Time) {
    && user in n.values && T <= n.values[user] && user !in n.misses
    && NoOlderWrite(n, user, T)
    && (n.refresh.Some? ==> user in n.refresh.value && T <= n.refresh.value[user])
  }

  predicate NoOlderWrite(n: Instance, user: User, T: Time) {
    forall w :: w in n.writes && w.user == user ==> T <= w.tva
  }

  /** The row is at T or later, and no bump under way would put it back before T. */
  predicate Settled(s: State, user: User, T: Time) {
    user in s.rows && T <= s.rows[user] && forall b :: b in s.bumps && b.user == user ==> T <= b.stamp
  }

  lemma {:induction false} SettledNext(s: State, step: Step, user: User, T: Time)
    requires Reachable(s) && Enabled(s, step) && Settled(s, user, T)
    ensures Settled(Next(s, step), user, T)
  {
    CarriedBounded(s, user);
  }

  lemma {:induction false} LocalSealed(s: State, n: Instance, step: Step, user: User, T: Time)
    requires IsLocal(step) && Sealed(n, user, T) && Settled(s, user, T)
    requires step.Install? ==> step.write in n.writes
    requires step.Miss? ==> step.user !in n.values
    ensures Sealed(Local(s, n, step), user, T)
  {
  }

  lemma {:induction false} SealedStep(s: State, step: Step, i: nat, user: User, T: Time)
    requires Enabled(s, step) && i in s.instances && Sealed(s.instances[i], user, T) && Settled(s, user, T)
    ensures i in Next(s, step).instances && Sealed(Next(s, step).instances[i], user, T)
  {
    if IsLocal(step) && step.i == i {
      LocalSealed(s, s.instances[i], step, user, T);
    }
  }

  lemma {:induction false} SettledRun(s: State, steps: seq<Step>, user: User, T: Time)
    requires Reachable(s) && Runs(s, steps) && Settled(s, user, T)
    ensures Settled(After(s, steps), user, T)
  {
    if steps != [] {
      var before := steps[..|steps| - 1];
      SettledRun(s, before, user, T);
      ReachableRun(s, before);
      SettledNext(After(s, before), steps[|steps| - 1], user, T);
    }
  }

  lemma {:induction false} SealedRun(s: State, steps: seq<Step>, i: nat, user: User, T: Time)
    requires Reachable(s) && Runs(s, steps) && i in s.instances
    requires Sealed(s.instances[i], user, T) && Settled(s, user, T)
    ensures i in After(s, steps).instances
    ensures Sealed(After(s, steps).instances[i], user, T) && Settled(After(s, steps), user, T)
  {
    SettledRun(s, steps, user, T);
    if steps != [] {
      var before := steps[..|steps| - 1];
      SealedRun(s, before, i, user, T);
      SealedStep(After(s, before), steps[|steps| - 1], i, user, T);
    }
  }

  /** In every continuation, every check of instance i rejects every token of `user` issued before T. */
  ghost predicate RejectsForever(s: State, i: nat, user: User, T: Time) {
    forall steps, iat :: Runs(s, steps) && i in After(s, steps).instances && iat < T ==>
      !MayAdmit(After(s, steps).instances[i], user, iat)
  }

  lemma {:induction false} SealedRejects(s: State, i: nat, user: User, T: Time)
    requires Reachable(s) && i in s.instances && Sealed(s.instances[i], user, T) && Settled(s, user, T)
    ensures RejectsForever(s, i, user, T)
  {
    forall steps, iat | Runs(s, steps) && i in After(s, steps).instances && iat < T
      ensures !MayAdmit(After(s, steps).instances[i], user, iat)
    {
      SealedRun(s, steps, i, user, T);
      ReachableRun(s, steps);
      SealedNow(After(s, steps), i, user, T, iat);
    }
  }

  lemma {:induction false} SealedNow(s: State, i: nat, user: User, T: Time, iat: Time)
    requires Reachable(s) && i in s.instances && Sealed(s.instances[i], user, T) && iat < T
    ensures !MayAdmit(s.instances[i], user, iat)
  {
    var n := s.instances[i];
    CarriedBounded(s, user);
    assert Carries(n, user, n.values[user]);
    forall w | w in n.writes && w.LoadWrite? && w.user == user
      ensures IsRevokedBy(Some(iat), w.tva)
    {
      assert Carries(n, user, w.tva);
    }
  }

  lemma {:induction false} Prepend(s: State, step: Step, steps: seq<Step>)
    requires Enabled(s, step) && Runs(Next(s, step), steps)
    ensures Runs(s, [step] + steps) && After(s, [step] + steps) == After(Next(s, step), steps)
  {
    if steps == [] {
      assert [step] + steps == [step] && [step][..0] == [];
      assert Runs(s, []);
    } else {
      Prepend(s, step, steps[..|steps| - 1]);
      assert ([step] + steps)[..|steps|] == [step] + steps[..|steps| - 1];
    }
  }

  lemma {:induction false} AdmitsNow(s: State, i: nat, user: User, T: Time, iat: Time)
    requires i in s.instances && iat < T && MayAdmit(s.instances[i], user, iat)
    ensures !RejectsForever(s, i, user, T)
  {
    assert Runs(s, []) && After(s, []) == s;
  }

  lemma {:induction false} AdmitsLater(s: State, step: Step, i: nat, user: User, T: Time)
    requires Enabled(s, step) && !RejectsForever(Next(s, step), i, user, T)
    ensures !RejectsForever(s, i, user, T)
  {
    var s' := Next(s, step);
    var steps, iat :| Runs(s', steps) && i in After(s', steps).instances && iat < T
                      && MayAdmit(After(s', steps).instances[i], user, iat);
    Prepend(s, step, steps);
  }

  /** A refresh that finds an old row, or none. */
  lemma {:induction false} OldRowAdmits(s: State, i: nat, user: User, T: Time)
    requires i in s.instances && s.instances[i].refresh.None? && (user in s.rows ==> s.rows[user] < T)
    ensures !RejectsForever(s, i, user, T)
  {
    var s1 := Next(s, RefreshRead(i));
    var s2 := Next(s1, RefreshInstall(i));
    assert s2.instances[i].values == s.rows;
    AdmitsNow(s2, i, user, T, if user in s.rows then s.rows[user] else T - 1);
    AdmitsLater(s1, RefreshInstall(i), i, user, T);
    AdmitsLater(s, RefreshRead(i), i, user, T);
  }

  lemma {:induction false} UnsettledAdmits(s: State, i: nat, user: User, T: Time)
    requires i in s.instances && !Settled(s, user, T)
    ensures !RejectsForever(s, i, user, T)
    decreases s.instances[i].refresh.Some?
  {
    if s.instances[i].refresh.Some? {
      UnsettledAdmits(Next(s, RefreshDrop(i)), i, user, T);
      AdmitsLater(s, RefreshDrop(i), i, user, T);
    } else if user in s.rows && T <= s.rows[user] {
      var b :| b in s.bumps && b.user == user && b.stamp < T;
      OldRowAdmits(Next(s, Commit(b)), i, user, T);
      AdmitsLater(s, Commit(b), i, user, T);
    } else {
      OldRowAdmits(s, i, user, T);
    }
  }

  lemma {:induction false} UnsealedAdmits(s: State, i: nat, user: User, T: Time)
    requires Reachable(s) && i in s.instances && !Sealed(s.instances[i], user, T) && Settled(s, user, T)
    ensures !RejectsForever(s, i, user, T)
  {
    var n := s.instances[i];
    if user !in n.values || user in n.misses {
      AdmitsNow(s, i, user, T, T - 1);
    } else if n.values[user] < T {
      AdmitsNow(s, i, user, T, n.values[user]);
    } else if !NoOlderWrite(n, user, T) {
      var w :| w in n.writes && w.user == user && w.tva < T;
      RowsNamed(s, user);
      assert Next(s, Install(i, w)).instances[i].values[user] == w.tva;
      AdmitsNow(Next(s, Install(i, w)), i, user, T, w.tva);
      AdmitsLater(s, Install(i, w), i, user, T);
    } else {
      var n' := Next(s, RefreshInstall(i)).instances[i];
      AdmitsNow(Next(s, RefreshInstall(i)), i, user, T, if user in n'.values then n'.values[user] else T - 1);
      AdmitsLater(s, RefreshInstall(i), i, user, T);
    }
  }

  lemma {:induction false} RowsNamed(s: State, user: User)
    requires Reachable(s) && user in s.rows
    ensures user != ""
  {
    var steps :| Runs(INIT, steps) && After(INIT, steps) == s;
    RowsNamedRun(steps);
  }

  lemma {:induction false} RowsNamedRun(steps: seq<Step>)
    requires Runs(INIT, steps)
    ensures "" !in After(INIT, steps).rows && forall b :: b in After(INIT, steps).bumps ==> b.user != ""
  {
    if steps != [] { RowsNamedRun(steps[..|steps| - 1]); }
  }

  /** The exact condition: instance i rejects every token of `user` issued before T, for ever and in every
      interleaving, if and only if the row and every bump under way are at or after T, and so are its cache and
      everything it has in flight, and no lookup of the user that missed is waiting to read. */
  lemma {:induction false} RejectsForeverIffSealed(s: State, i: nat, user: User, T: Time)
    requires Reachable(s) && i in s.instances
    ensures RejectsForever(s, i, user, T) <==> Sealed(s.instances[i], user, T) && Settled(s, user, T)
  {
    if !Settled(s, user, T) {
      UnsettledAdmits(s, i, user, T);
    } else if Sealed(s.instances[i], user, T) {
      SealedRejects(s, i, user, T);
    } else {
      UnsealedAdmits(s, i, user, T);
    }
  }

  // ---- a refresh that began after the bump ----

  predicate RefreshesOf(step: Step, i: nat) {
    step == RefreshInstall(i) || step == RefreshDrop(i)
  }

  lemma {:induction false} SnapshotKept(s: State, steps: seq<Step>, i: nat)
    requires i in s.instances && s.instances[i].refresh.Some? && Runs(s, steps)
    requires forall k :: 0 <= k < |steps| ==> !RefreshesOf(steps[k], i)
    ensures i in After(s, steps).instances && After(s, steps).instances[i].refresh == s.instances[i].refresh
  {
    if steps != [] {
      var before := steps[..|steps| - 1];
      assert forall k :: 0 <= k < |before| ==> before[k] == steps[k];
      SnapshotKept(s, before, i);
    }
  }

  /** Once the row is at T or later and no older bump is under way, a refresh is loaded, anything happens, and that
      refresh is installed: from then on instance i rejects tokens issued before T for ever if and only if at that
      moment no write of an older value and no missed lookup of the user is still waiting there. */
  lemma {:induction false} RefreshAfterBump(s: State, steps: seq<Step>, i: nat, user: User, T: Time)
    requires Reachable(s) && Settled(s, user, T)
    requires Enabled(s, RefreshRead(i)) && Runs(Next(s, RefreshRead(i)), steps)
    requires forall k :: 0 <= k < |steps| ==> !RefreshesOf(steps[k], i)
    ensures var loaded := After(Next(s, RefreshRead(i)), steps);
            && Enabled(loaded, RefreshInstall(i))
            && var n := Next(loaded, RefreshInstall(i)).instances[i];
               (RejectsForever(Next(loaded, RefreshInstall(i)), i, user, T)
                <==> NoOlderWrite(n, user, T) && user !in n.misses)
  {
    var s1 := Next(s, RefreshRead(i));
    SnapshotKept(s1, steps, i);
    var loaded := After(s1, steps);
    var installed := Next(loaded, RefreshInstall(i));
    ReachableStep(s, RefreshRead(i));
    ReachableRun(s1, steps);
    ReachableStep(loaded, RefreshInstall(i));
    SettledNext(s, RefreshRead(i), user, T);
    SettledRun(s1, steps, user, T);
    SettledNext(loaded, RefreshInstall(i), user, T);
    RejectsForeverIffSealed(installed, i, user, T);
  }

  // ---- the server that logs a user out ----

  /** Nothing of the user is under way on the server. */
  predicate Undisturbed(n: Instance, user: User) {
    user !in n.misses && (forall w :: w in n.writes ==> w.user != user) && n.refresh.None?
  }

  /** A logout takes effect at once on the server that handles it: with nothing else of the user under way, once its
      bump has committed and its own write is in, the server rejects every token issued before the bump, forever. */
  lemma {:induction false} LogoutSealsItself(s: State, i: nat, user: User)
    requires Reachable(s) && i in s.instances && user in s.rows && Undisturbed(s.instances[i], user)
    requires forall b :: b in s.bumps ==> b.user != user
    ensures var bump, write := Bump(user, s.clock, Some(i)), SetWrite(user, s.clock);
            && Enabled(s, BeginLogout(i, user))
            && var s1 := Next(s, BeginLogout(i, user));
               && Enabled(s1, Commit(bump))
               && var s2 := Next(s1, Commit(bump));
                  && s2.rows[user] == s.clock && Enabled(s2, Install(i, write))
                  && RejectsForever(Next(s2, Install(i, write)), i, user, s.clock)
  {
    var bump, write := Bump(user, s.clock, Some(i)), SetWrite(user, s.clock);
    var s1 := Next(s, BeginLogout(i, user));
    ReachableStep(s, BeginLogout(i, user));
    var s2 := Next(s1, Commit(bump));
    ReachableStep(s1, Commit(bump));
    RowsNamed(s, user);
    var s3 := Next(s2, Install(i, write));
    ReachableStep(s2, Install(i, write));
    assert s3.instances[i].values[user] == s.clock;
    SealedRejects(s3, i, user, s.clock);
  }

  /** A password change takes effect there as soon as the row read back after its commit is in the cache. */
  lemma {:induction false} ChangeSealsItself(s: State, i: nat, user: User)
    requires Reachable(s) && i in s.instances && user in s.rows && Undisturbed(s.instances[i], user)
    requires forall b :: b in s.bumps ==> b.user != user
    ensures var bump, write := Bump(user, s.clock, None), SetWrite(user, s.clock);
            && Enabled(s, BeginChange(user))
            && var s1 := Next(s, BeginChange(user));
               && Enabled(s1, Commit(bump))
               && var s2 := Next(s1, Commit(bump));
                  && Enabled(s2, ReadBack(i, user))
                  && var s3 := Next(s2, ReadBack(i, user));
                     && Enabled(s3, Install(i, write))
                     && RejectsForever(Next(s3, Install(i, write)), i, user, s.clock)
  {
    var bump, write := Bump(user, s.clock, None), SetWrite(user, s.clock);
    var s1 := Next(s, BeginChange(user));
    ReachableStep(s, BeginChange(user));
    var s2 := Next(s1, Commit(bump));
    ReachableStep(s1, Commit(bump));
    var s3 := Next(s2, ReadBack(i, user));
    ReachableStep(s2, ReadBack(i, user));
    RowsNamed(s, user);
    var s4 := Next(s3, Install(i, write));
    ReachableStep(s3, Install(i, write));
    assert s4.instances[i].values[user] == s.clock;
    SealedRejects(s4, i, user, s.clock);
  }

  // ---- work that is given up ----

  /** A bump that is rolled back leaves the system as it was. */
  lemma {:induction false} RolledBack(s: State, i: nat, user: User)
    requires i in s.instances && user in s.rows
    ensures var s' := Next(s, BeginLogout(i, user)); var bump := Bump(user, s.clock, Some(i));
            Enabled(s', Rollback(bump)) && Next(s', Rollback(bump)) == s
    ensures var s' := Next(s, BeginChange(user)); var bump := Bump(user, s.clock, None);
            Enabled(s', Rollback(bump)) && Next(s', Rollback(bump)) == s
  {
  }

  /** Two states that differ at most in one instance, which is the same, are the same. */
  lemma {:induction false} SameInstance(s: State, s': State, i: nat)
    requires i in s.instances && s' == s.(instances := s'.instances)
    requires s'.instances == s.instances[i := s.instances[i]]
    ensures s' == s
  {
    assert s'.instances == s.instances;
  }

  /** So does a snapshot that is dropped, */
  lemma {:induction false} SnapshotDropped(s: State, i: nat)
    requires i in s.instances && s.instances[i].refresh.None?
    ensures var s' := Next(s, RefreshRead(i)); Enabled(s', RefreshDrop(i)) && Next(s', RefreshDrop(i)) == s
  {
    var n := s.instances[i];
    var s' := Next(s, RefreshRead(i));
    assert Next(s', RefreshDrop(i)).instances[i] == n.(refresh := None) == n;
    SameInstance(s, Next(s', RefreshDrop(i)), i);
  }

  /** a missed lookup whose loader fails, */
  lemma {:induction false} LookupFailed(s: State, i: nat, user: User)
    requires i in s.instances && user !in s.instances[i].values
    ensures var s' := Next(s, Miss(i, user)); Enabled(s', MissFail(i, user)) && Next(s', MissFail(i, user)) == s
  {
    var n := s.instances[i];
    var s' := Next(s, Miss(i, user));
    assert Next(s', MissFail(i, user)).instances[i] == n.(misses := n.misses + multiset{user} - multiset{user}) == n;
    SameInstance(s, Next(s', MissFail(i, user)), i);
  }

  /** and a queued value that is not written. */
  lemma {:induction false} WriteDropped(s: State, i: nat, user: User)
    requires i in s.instances && user in s.rows
    ensures var s' := Next(s, ReadBack(i, user)); var write := SetWrite(user, s.rows[user]);
            Enabled(s', Drop(i, write)) && Next(s', Drop(i, write)) == s
  {
    var n := s.instances[i];
    var write := SetWrite(user, s.rows[user]);
    var s' := Next(s, ReadBack(i, user));
    assert Next(s', Drop(i, write)).instances[i] == n.(writes := n.writes + multiset{write} - multiset{write}) == n;
    SameInstance(s, Next(s', Drop(i, write)), i);
  }

  /** A missed lookup that nothing interrupts caches the row's time and changes nothing else. */
  lemma {:induction false} LookupLoads(s: State, i: nat, user: User)
    requires i in s.instances && user in s.rows && user !in s.instances[i].values && user != ""
    ensures var s1 := Next(s, Miss(i, user)); var write := LoadWrite(user, s.rows[user]);
            && Enabled(s1, MissRead(i, user))
            && var s2 := Next(s1, MissRead(i, user));
               && Enabled(s2, Install(i, write))
               && Next(s2, Install(i, write)) == s.(instances := s.instances[i :=
                    s.instances[i].(values := s.instances[i].values[user := s.rows[user]])])
  {
    var n := s.instances[i];
    var write := LoadWrite(user, s.rows[user]);
    var s1 := Next(s, Miss(i, user));
    var s2 := Next(s1, MissRead(i, user));
    assert s1.instances[i].misses == n.misses + multiset{user};
    assert s2.instances[i] == n.(misses := n.misses + multiset{user} - multiset{user}, writes := n.writes + multiset{write});
    assert n.misses + multiset{user} - multiset{user} == n.misses;
    var s3 := Next(s2, Install(i, write));
    assert n.writes + multiset{write} - multiset{write} == n.writes;
    assert s3.instances[i] == n.(values := n.values[user := s.rows[user]]);
    assert s3.instances == s.instances[i := s3.instances[i]];
  }

  /** A server starts with an empty cache: every user is looked up, and nothing is on its way in. */
  lemma {:induction false} StartsEmpty(s: State, i: nat)
    requires i !in s.instances
    ensures var s' := Next(s, StartInstance(i));
            && (forall user :: Enabled(s', Miss(i, user)))
            && (forall user, tva :: !Carries(s'.instances[i], user, tva))
            && (forall user :: !Enabled(s', MissRead(i, user)))
            && (forall j :: j in s.instances ==> s'.instances[j] == s.instances[j])
  {
    assert Next(s, StartInstance(i)).instances[i].values == map[];
  }

  // ---- two runs ----

  /** Two servers and one registered user. */
  function Started(i: nat, j: nat, user: User): State
    requires user != "" && i != j
  {
    Next(Next(Next(INIT, StartInstance(i)), StartInstance(j)), Register(user))
  }

  lemma {:induction false} StartedReachable(i: nat, j: nat, user: User)
    requires user != "" && i != j
    ensures Reachable(Started(i, j, user))
  {
    ReachableStart();
    ReachableStep(INIT, StartInstance(i));
    ReachableStep(Next(INIT, StartInstance(i)), StartInstance(j));
    ReachableStep(Next(Next(INIT, StartInstance(i)), StartInstance(j)), Register(user));
  }

  /** Why the moment matters: a value read before the bump and written after the refresh was installed
      puts the old time back, and a token issued before the bump passes again. */
  lemma {:induction false} LateLoadUndoesRefresh(i: nat, j: nat, user: User)
    requires user != "" && i != j
    ensures exists s :: Reachable(s) && i in s.instances && user in s.rows && s.rows[user] == 10 && s.bumps == multiset{}
                        && s.instances[i].writes == multiset{} && MayAdmit(s.instances[i], user, 5)
  {
    var s0 := Started(i, j, user);
    StartedReachable(i, j, user);
    var s1 := Next(s0, Miss(i, user));
    ReachableStep(s0, Miss(i, user));
    var s2 := Next(s1, MissRead(i, user));
    ReachableStep(s1, MissRead(i, user));
    var s3 := Next(s2, Tick(10));
    ReachableStep(s2, Tick(10));
    var bump := Bump(user, 10, Some(j));
    var s4 := Next(s3, BeginLogout(j, user));
    ReachableStep(s3, BeginLogout(j, user));
    LandsAndRefreshes(s4, i, j, bump);
  }

  lemma {:induction false} LandsAndRefreshes(s: State, i: nat, j: nat, bump: Bump)
    requires Reachable(s) && s.bumps == multiset{bump} && bump.server == Some(j) && bump.stamp == 10 && bump.user != ""
    requires i in s.instances && j in s.instances && i != j && s.instances[i].refresh.None?
    requires s.instances[i].writes == multiset{LoadWrite(bump.user, 0)}
    ensures exists s' :: Reachable(s') && i in s'.instances && bump.user in s'.rows && s'.rows[bump.user] == 10
                         && s'.bumps == multiset{} && s'.instances[i].writes == multiset{}
                         && MayAdmit(s'.instances[i], bump.user, 5)
  {
    var s1 := Next(s, Commit(bump));
    ReachableStep(s, Commit(bump));
    var s2 := Next(s1, RefreshRead(i));
    ReachableStep(s1, RefreshRead(i));
    var s3 := Next(s2, RefreshInstall(i));
    ReachableStep(s2, RefreshInstall(i));
    assert s3.instances[i].values[bump.user] == 10;
    var late := LoadWrite(bump.user, 0);
    var s4 := Next(s3, Install(i, late));
    ReachableStep(s3, Install(i, late));
    assert s4.instances[i].values[bump.user] == 0;
  }

  /** Two bumps that overlap: the first began at 5, the second at 6. */
  function Overlapping(user: User): State {
    State(6, map[user := 0], multiset{Bump(user, 5, None), Bump(user, 6, None)}, map[])
  }

  lemma {:induction false} OverlappingReachable(user: User)
    requires user != ""
    ensures Reachable(Overlapping(user))
  {
    ReachableStart();
    ReachableStep(INIT, Register(user));
    var s0 := State(0, map[user := 0], multiset{}, map[]);
    ReachableStep(s0, Tick(5));
    ReachableStep(s0.(clock := 5), BeginChange(user));
    var s1 := State(5, map[user := 0], multiset{Bump(user, 5, None)}, map[]);
    ReachableStep(s1, Tick(6));
    ReachableStep(s1.(clock := 6), BeginChange(user));
    assert multiset{Bump(user, 5, None)} + multiset{Bump(user, 6, None)} == Overlapping(user).bumps;
  }

  /** Overlapping bumps that commit in the other order put the row back: the later one's cut-off is lost. */
  lemma {:induction false} OverlapPutsRowBack(user: User)
    requires user != ""
    ensures var first, second := Bump(user, 5, None), Bump(user, 6, None); var s := Overlapping(user);
            && Reachable(s) && Enabled(s, Commit(second)) && Enabled(Next(s, Commit(second)), Commit(first))
            && Next(s, Commit(second)).rows[user] == 6
            && Next(Next(s, Commit(second)), Commit(first)).rows[user] == 5
  {
    OverlappingReachable(user);
  }
}
