/** internal/service/auth_service.go: Login, Logout and ChangePassword on one server, each as one call that
    drives the limiter, the users table and the revocation cache. Emails arrive trimmed and lower-cased. */
module AuthService {
  import opened Wrappers
  import opened Text
  import Tokens = TokensCache
  import Limits = RateLimiter

  datatype User = User(source: string, passwordHash: string, isDisabled: bool, tokensValidAfter: Tokens.Time)

  /** Password verification, as argon2id answers it: an error, or whether the password matches. */
  type Verifier = (string, string) -> Result<bool>

  /** One row of login_attempts. */
  datatype Attempt = Attempt(email: string, ip: string, success: bool, userId: string)

  /** Which database accesses of a call fail, and how. */
  datatype Faults = Faults(lookup: Option<Error>, write: Option<Error>, readBack: Option<Error>)

  class AuthService {
    const limiter: Limits.Limiter
    const cache: Tokens.TokensCache
    const verify: Verifier
    const passwordMinLen: nat
    var users: map<string, User>     // by id
    var emails: map<string, string>  // users_email_active_uidx: email to id
    var attempts: seq<Attempt>

    ghost predicate Valid()
      reads this
    {
      forall e :: e in emails ==> emails[e] in users
    }

    constructor (limiter: Limits.Limiter, cache: Tokens.TokensCache, verify: Verifier, passwordMinLen: nat)
      ensures this.limiter == limiter && this.cache == cache && this.verify == verify
      ensures this.passwordMinLen == passwordMinLen && users == map[] && emails == map[] && attempts == [] && Valid()
    {
      this.limiter, this.cache, this.verify, this.passwordMinLen := limiter, cache, verify, passwordMinLen;
      users, emails, attempts := map[], map[], [];
    }

    /** The limiter lets the address through: no lockout key, and fewer failures than allowed. A login without an
        address is always let through. */
    ghost predicate LetThrough(ip: string, now: Limits.Millis)
      reads this, limiter
    {
      ip == "" || (!Limits.Locked(limiter.opts, limiter.store, ip, now) && !Limits.OverLimit(limiter.opts, limiter.store, ip))
    }

    /** The email is registered, to a password account. */
    ghost predicate HasPassword(email: string)
      requires Valid()
      reads this
    {
      email in emails && users[emails[email]].source == "password" && users[emails[email]].passwordHash != ""
    }

    /** The account's password verifies. */
    ghost predicate Proves(email: string, password: string)
      requires Valid()
      reads this
    {
      HasPassword(email) && verify(users[emails[email]].passwordHash, password) == Ok(true)
    }

    /** The login gets as far as the account lookup, which answers, be it that there is none. */
    ghost predicate Judged(email: string, password: string, ip: string, now: Limits.Millis, lookup: Option<Error>)
      reads this, limiter
    {
      email != "" && password != "" && LetThrough(ip, now) && (lookup == None || lookup == Some(ErrNotFound))
    }

    ghost predicate Succeeds(email: string, password: string, ip: string, now: Limits.Millis, lookup: Option<Error>)
      requires Valid()
      reads this, limiter
    {
      && email != "" && password != "" && LetThrough(ip, now) && lookup == None
      && Proves(email, password) && users[emails[email]].isDisabled == false
    }

    /** What counts as a failure of the address: no such account, no password account, or a password that does not
        verify. */
    ghost predicate Fails(email: string, password: string, ip: string, now: Limits.Millis, lookup: Option<Error>)
      requires Valid()
      reads this, limiter
    {
      Judged(email, password, ip, now, lookup) && (lookup == Some(ErrNotFound) || !Proves(email, password))
    }

    method NoteFailure(email: string, ip: string, userId: string, now: Limits.Millis, member: string)
      modifies this`attempts, limiter
      ensures attempts == old(attempts) + [Attempt(email, ip, false, userId)]
      ensures limiter.store == if ip == "" then old(limiter.store)
                               else Limits.PruneFailures(limiter.opts, Limits.AddFailure(limiter.opts,
                                 old(limiter.store), ip, now, member), ip, now)
    {
      attempts := attempts + [Attempt(email, ip, false, userId)];
      limiter.Record(ip, false, now, member);
    }

    /** Who gets in, and with which answer everybody else is refused; which attempt is recorded; what the limiter
        counts. A disabled account is refused like a wrong password and recorded, but not counted; a failing lookup is
        neither. */
    method Login(email: string, password: string, ip: string, now: Limits.Millis, member: string, lookup: Option<Error>)
      returns (r: Result<string>)
      requires Valid()
      modifies this`attempts, limiter
      ensures Valid()
      ensures r.Ok? <==> old(Succeeds(email, password, ip, now, lookup))
      ensures r.Ok? ==> email in emails && r.value == emails[email]
      ensures r.Err? ==>
        r.error == if email == "" || password == "" then ErrBadCredentials
                   else if !old(LetThrough(ip, now)) then ErrRateLimited
                   else if lookup.Some? && lookup.value != ErrNotFound then lookup.value
                   else ErrBadCredentials
      ensures attempts == if old(Judged(email, password, ip, now, lookup))
                          then old(attempts) + [Attempt(email, ip, r.Ok?,
                                                        if lookup == None && email in emails then emails[email] else "")]
                          else old(attempts)
      ensures ip == "" ==> limiter.store == old(limiter.store)
      ensures ip != "" && r.Ok? ==> limiter.store == Limits.ClearAddress(limiter.opts, old(limiter.store), ip)
      ensures ip != "" && old(Fails(email, password, ip, now, lookup)) ==>
        limiter.store == Limits.PruneFailures(limiter.opts, Limits.AddFailure(limiter.opts, old(limiter.store), ip, now,
                                                                              member), ip, now)
      ensures ip != "" && email != "" && password != "" && !old(LetThrough(ip, now)) ==>
        limiter.store == if old(Limits.Locked(limiter.opts, limiter.store, ip, now)) then old(limiter.store)
                         else Limits.SetLockout(limiter.opts, old(limiter.store), ip, now)
      ensures email == "" || password == ""
              || (old(LetThrough(ip, now)) && r.Err? && !old(Fails(email, password, ip, now, lookup))) ==>
        limiter.store == old(limiter.store)
    {
      if email == "" || password == "" {
        return Err(ErrBadCredentials);
      }
      var admitted := limiter.Check(ip, now);
      if admitted.Err? {
        return Err(admitted.error);
      }
      if lookup.Some? && lookup.value != ErrNotFound {
        return Err(lookup.value);
      }
      if lookup.Some? || email !in emails {
        NoteFailure(email, ip, "", now, member);
        return Err(ErrBadCredentials);
      }
      var userId := emails[email];
      var u := users[userId];
      if u.source != "password" || u.passwordHash == "" {
        NoteFailure(email, ip, userId, now, member);
        return Err(ErrBadCredentials);
      }
      var ok := verify(u.passwordHash, password);
      if ok.Err? || !ok.value {
        NoteFailure(email, ip, userId, now, member);
        return Err(ErrBadCredentials);
      }
      if u.isDisabled {
        attempts := attempts + [Attempt(email, ip, false, userId)];
        return Err(ErrBadCredentials);
      }
      limiter.Record(ip, true, now, member);
      attempts := attempts + [Attempt(email, ip, true, userId)];
      return Ok(userId);
    }

    /** `now` is the database clock; the row and this server's cache both move to it. The store trims the id it is
        given, the cache does not. */
    method Logout(userId: string, now: Tokens.Time, write: Option<Error>) returns (r: Result<()>)
      requires Valid()
      modifies this`users, cache
      ensures Valid()
      ensures r == if userId == "" then Err(ErrInvalidArgument)
                   else if TrimSpace(userId) == "" then Err(ErrNotFound)
                   else if write.Some? then Err(write.value)
                   else if TrimSpace(userId) !in old(users) then Err(ErrNotFound) else Ok(())
      ensures r.Err? ==> users == old(users) && cache.values == old(cache.values)
      ensures r.Ok? ==> var id := TrimSpace(userId); users == old(users)[id := old(users)[id].(tokensValidAfter := now)]
      ensures r.Ok? ==> cache.values == old(cache.values)[userId := now]
    {
      if userId == "" {
        return Err(ErrInvalidArgument);
      }
      var id := TrimSpace(userId);
      if id == "" {
        return Err(ErrNotFound);
      }
      if write.Some? {
        return Err(write.value);
      }
      if id !in users {
        return Err(ErrNotFound);
      }
      users := users[id := users[id].(tokensValidAfter := now)];
      cache.Set(userId, now);
      return Ok(());
    }

    /** The arguments are complete, the new password is long enough, and the old one is the account's. */
    ghost predicate MayChange(userId: string, oldPassword: string, newPassword: string, lookup: Option<Error>)
      reads this
    {
      && userId != "" && oldPassword != "" && newPassword != "" && passwordMinLen <= ByteLength(newPassword)
      && lookup == None && TrimSpace(userId) != "" && TrimSpace(userId) in users
      && verify(users[TrimSpace(userId)].passwordHash, oldPassword) == Ok(true)
    }

    /** The new hash and the bump are one row update, which is read back after its commit for the cache. When only that
        read fails the change stands, an error is answered, and this server's cache keeps the old time. `hash` is the
        hasher's answer for the new password. */
    method ChangePassword(userId: string, oldPassword: string, newPassword: string, hash: Result<string>,
                          now: Tokens.Time, faults: Faults)
      returns (r: Result<()>)
      requires Valid()
      modifies this`users, cache
      ensures Valid()
      ensures r.Ok? <==>
        && old(MayChange(userId, oldPassword, newPassword, faults.lookup)) && hash.Ok?
        && faults.write == None && faults.readBack == None
      ensures users ==
        if old(MayChange(userId, oldPassword, newPassword, faults.lookup)) && hash.Ok? && faults.write == None
        then var id := TrimSpace(userId);
             old(users)[id := old(users)[id].(passwordHash := hash.value, tokensValidAfter := now)]
        else old(users)
      ensures cache.values == if r.Ok? && userId != "" then old(cache.values)[userId := now] else old(cache.values)
      ensures (userId == "" || oldPassword == "" || newPassword == "" || ByteLength(newPassword) < passwordMinLen
               || TrimSpace(userId) == "") ==> r == Err(ErrInvalidArgument)
      ensures (r.Err? && userId != "" && oldPassword != "" && newPassword != ""
               && passwordMinLen <= ByteLength(newPassword) && TrimSpace(userId) != "") ==>
        r.error == if faults.lookup.Some? && faults.lookup.value != ErrNotFound then faults.lookup.value
                   else if faults.lookup.Some? || TrimSpace(userId) !in old(users) then ErrInvalidArgument
                   else
                     match verify(old(users)[TrimSpace(userId)].passwordHash, oldPassword)
                     case Err(e) => e
                     case Ok(matches) =>
                       if !matches then ErrBadCredentials
                       else if hash.Err? then hash.error
                       else if faults.write.Some? then faults.write.value
                       else if faults.readBack.Some? then faults.readBack.value
                       else ErrOther
    {
      if userId == "" || oldPassword == "" || newPassword == "" || ByteLength(newPassword) < passwordMinLen {
        return Err(ErrInvalidArgument);
      }
      var id := TrimSpace(userId);
      if id == "" {
        return Err(ErrInvalidArgument);
      }
      if faults.lookup.Some? {
        return Err(if faults.lookup.value == ErrNotFound then ErrInvalidArgument else faults.lookup.value);
      }
      if id !in users {
        return Err(ErrInvalidArgument);
      }
      var ok := verify(users[id].passwordHash, oldPassword);
      if ok.Err? {
        return Err(ok.error);
      }
      if !ok.value {
        return Err(ErrBadCredentials);
      }
      if hash.Err? {
        return Err(hash.error);
      }
      if faults.write.Some? {
        return Err(faults.write.value);
      }
      users := users[id := users[id].(passwordHash := hash.value, tokensValidAfter := now)];
      if faults.readBack.Some? {
        return Err(faults.readBack.value);
      }
      cache.Set(userId, users[id].tokensValidAfter);
      return Ok(());
    }
  }
}
