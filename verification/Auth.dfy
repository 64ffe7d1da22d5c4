/** Account lockout, password-plus-code login and two-factor recovery:
    internal/auth/service.go and internal/auth/totp.go. All operations work on
    the one user record; each reads the clock once. Instants and durations are
    nanoseconds, and None is Go's zero time.  */
module Auth {
  import opened Wrappers
  import opened Text
  import opened Totp
  import opened Arith

  datatype User = User(
    passwordHash: string,
    lastLogin: Option<int>,
    failed: int,
    lockedUntil: Option<int>,
    totpEnabled: bool,
    totpSecret: string,
    pendingSecret: string,
    recovery: seq<string>)

  datatype Policy = Policy(threshold: int, duration: int)

  datatype Outcome =
    | Success | InvalidCredentials | AccountLocked | NotFound | Failed
    | TotpNotEnabled | TotpAlreadyEnabled | NoPendingTotp | InvalidCode

  predicate Locked(u: User, now: int) { u.lockedUntil.Some? && now < u.lockedUntil.value }

  /** `recordFailure`: a threshold of zero or less switches lockout off. */
  function RecordFailure(p: Policy, u: User, now: int): User {
    if p.threshold <= 0 then u
    else
      var v := u.(failed := u.failed + 1);
      if v.failed >= p.threshold then v.(lockedUntil := Some(now + p.duration)) else v
  }

  /** What a user must present: the password, followed by a current code when
      two-factor is on. */
  ghost predicate Credentials(c: Crypto, u: User, secret: string, now: int)
    requires Sha1Sized(c)
  {
    if !u.totpEnabled then c.verifyPassword(secret, u.passwordHash)
    else
      && |secret| > 6
      && AllDigits(secret[|secret| - 6..])
      && c.verifyPassword(secret[..|secret| - 6], u.passwordHash)
      && Accepts(c, u.totpSecret, secret[|secret| - 6..], now)
  }

  /** Whether a stored recovery hash is that of `code`. */
  predicate HasRecoveryCode(c: Crypto, u: User, code: string) {
    code != "" && c.hashToken(code) in u.recovery
  }

  function ClearTotp(u: User): User {
    u.(totpEnabled := false, totpSecret := "", pendingSecret := "", recovery := [])
  }

  // --------------------------------------------------- one call, as a function

  ghost function LoginStep(p: Policy, c: Crypto, u: User, secret: string, now: int): (User, Outcome)
    requires Sha1Sized(c)
  {
    if Locked(u, now) then (u, AccountLocked)
    else if Credentials(c, u, secret, now) then
      (u.(failed := 0, lockedUntil := None, lastLogin := Some(now)), Success)
    else
      var v := RecordFailure(p, u, now);
      (v, if Locked(v, now) then AccountLocked else InvalidCredentials)
  }

  function RecoverStep(p: Policy, c: Crypto, u: User, password: string, code: string, now: int): (User, Outcome) {
    if Locked(u, now) then (u, AccountLocked)
    else if !c.verifyPassword(password, u.passwordHash) then (RecordFailure(p, u, now), InvalidCredentials)
    else if !u.totpEnabled then (u, TotpNotEnabled)
    else if !HasRecoveryCode(c, u, code) then (RecordFailure(p, u, now), InvalidCode)
    else (ClearTotp(u).(failed := 0), Success)
  }

  /** `drawn` is the new secret, None when the random source fails. */
  function BeginStep(u: User, drawn: Option<string>): (User, Outcome) {
    if u.totpEnabled then (u, TotpAlreadyEnabled)
    else match drawn
      case None => (u, Failed)
      case Some(secret) => (u.(pendingSecret := secret), Success)
  }

  ghost function ActivateStep(c: Crypto, u: User, code: string, now: int, drawn: Option<seq<string>>): (User, Outcome)
    requires Sha1Sized(c)
  {
    if u.totpEnabled then (u, TotpAlreadyEnabled)
    else if u.pendingSecret == "" then (u, NoPendingTotp)
    else if !Accepts(c, u.pendingSecret, code, now) then (u, InvalidCode)
    else match drawn
      case None => (u, Failed)
      case Some(codes) =>
        (u.(totpSecret := u.pendingSecret, pendingSecret := "", totpEnabled := true,
            recovery := seq(|codes|, i requires 0 <= i < |codes| => c.hashToken(codes[i]))), Success)
  }

  ghost function DisableStep(c: Crypto, u: User, code: string, now: int): (User, Outcome)
    requires Sha1Sized(c)
  {
    if !u.totpEnabled then (u, TotpNotEnabled)
    else if !Accepts(c, u.totpSecret, code, now) && !HasRecoveryCode(c, u, code) then (u, InvalidCode)
    else (ClearTotp(u), Success)
  }

  // ------------------------------------------------------------- the service

  class Service {
    const crypto: Crypto
    var users: map<string, User>
    var policy: Policy

    ghost predicate Valid()
      reads this
    {
      Sha1Sized(crypto) && policy.duration > 0
    }

    constructor (crypto: Crypto, users: map<string, User>)
      requires Sha1Sized(crypto)
      ensures Valid() && this.users == users && this.crypto == crypto
      ensures policy == Policy(5, 15 * 60 * SECOND)
    {
      this.crypto, this.users := crypto, users;
      policy := Policy(5, 15 * 60 * SECOND);
    }

    /** A duration that is not positive leaves the old one in force. */
    method SetLockoutPolicy(threshold: int, duration: int)
      requires Valid()
      modifies this`policy
      ensures Valid() && policy.threshold == threshold
      ensures policy.duration == if duration > 0 then duration else old(policy.duration)
    {
      policy := policy.(threshold := threshold);
      if duration > 0 {
        policy := policy.(duration := duration);
      }
    }

    method VerifyCredentials(u: User, secret: string, now: int) returns (ok: bool)
      requires Valid()
      ensures ok <==> Credentials(crypto, u, secret, now)
    {
      if !u.totpEnabled {
        return crypto.verifyPassword(secret, u.passwordHash);
      }
      if |secret| <= 6 {
        return false;
      }
      var base, code := secret[..|secret| - 6], secret[|secret| - 6..];
      var digits := IsAllDigits(code);
      if !digits {
        return false;
      }
      if !crypto.verifyPassword(base, u.passwordHash) {
        return false;
      }
      ok := VerifyTotpAt(crypto, u.totpSecret, code, now);
    }

    /** `Authenticate`; `id` is what the look-up by name yields. */
    method Authenticate(id: string, secret: string, now: int) returns (r: Outcome)
      requires Valid()
      modifies this`users
      ensures id !in old(users) ==> r == InvalidCredentials && users == old(users)
      ensures id in old(users) ==>
        var (u, o) := LoginStep(policy, crypto, old(users)[id], secret, now);
        r == o && users == old(users)[id := u]
    {
      if id !in users {
        return InvalidCredentials;
      }
      var u := users[id];
      if Locked(u, now) {
        assert users == users[id := u];
        return AccountLocked;
      }
      var ok := VerifyCredentials(u, secret, now);
      if !ok {
        u := Fail(id, u, now);
        if Locked(u, now) {
          return AccountLocked;
        }
        return InvalidCredentials;
      }
      u := u.(failed := 0);
      u := u.(lockedUntil := None);
      u := u.(lastLogin := Some(now));
      users := users[id := u];
      return Success;
    }

    /** `recordFailure` on the caller's copy of the record, then written back. */
    method Fail(id: string, u: User, now: int) returns (v: User)
      requires id in users && users[id] == u
      modifies this`users
      ensures v == RecordFailure(policy, u, now) && users == old(users)[id := v]
    {
      v := u;
      if policy.threshold <= 0 {
        assert users == users[id := v];
        return;
      }
      v := v.(failed := v.failed + 1);
      if v.failed >= policy.threshold {
        v := v.(lockedUntil := Some(now + policy.duration));
      }
      users := users[id := v];
    }

    method RecoverTotp(id: string, password: string, code: string, now: int) returns (r: Outcome)
      requires Valid()
      modifies this`users
      ensures id !in old(users) ==> r == InvalidCredentials && users == old(users)
      ensures id in old(users) ==>
        var (u, o) := RecoverStep(policy, crypto, old(users)[id], password, code, now);
        r == o && users == old(users)[id := u]
    {
      if id !in users {
        return InvalidCredentials;
      }
      var u := users[id];
      assert users == users[id := u];
      if Locked(u, now) {
        return AccountLocked;
      }
      if !crypto.verifyPassword(password, u.passwordHash) {
        u := Fail(id, u, now);
        return InvalidCredentials;
      }
      if !u.totpEnabled {
        return TotpNotEnabled;
      }
      var found, left := ConsumeRecoveryCode(crypto, u, code);
      if !found {
        u := Fail(id, u, now);
        return InvalidCode;
      }
      u := ClearTotp(left);
      u := u.(failed := 0);
      users := users[id := u];
      return Success;
    }

    method BeginTotpSetup(id: string, drawn: Option<string>) returns (r: Outcome)
      requires Valid()
      modifies this`users
      ensures id !in old(users) ==> r == NotFound && users == old(users)
      ensures id in old(users) ==>
        var (u, o) := BeginStep(old(users)[id], drawn);
        r == o && users == old(users)[id := u]
    {
      if id !in users {
        return NotFound;
      }
      var u := users[id];
      assert users == users[id := u];
      if u.totpEnabled {
        return TotpAlreadyEnabled;
      }
      if drawn.None? {
        return Failed;
      }
      users := users[id := u.(pendingSecret := drawn.value)];
      return Success;
    }

    method ActivateTotp(id: string, code: string, now: int, drawn: Option<seq<string>>) returns (r: Outcome)
      requires Valid()
      modifies this`users
      ensures id !in old(users) ==> r == NotFound && users == old(users)
      ensures id in old(users) ==>
        var (u, o) := ActivateStep(crypto, old(users)[id], code, now, drawn);
        r == o && users == old(users)[id := u]
    {
      if id !in users {
        return NotFound;
      }
      var u := users[id];
      assert users == users[id := u];
      if u.totpEnabled {
        return TotpAlreadyEnabled;
      }
      if u.pendingSecret == "" {
        return NoPendingTotp;
      }
      var ok := VerifyTotpAt(crypto, u.pendingSecret, code, now);
      if !ok {
        return InvalidCode;
      }
      if drawn.None? {
        return Failed;
      }
      var hashes := HashCodes(crypto, drawn.value);
      u := u.(totpSecret := u.pendingSecret);
      u := u.(pendingSecret := "");
      u := u.(totpEnabled := true);
      u := u.(recovery := hashes);
      users := users[id := u];
      return Success;
    }

    method DisableTotp(id: string, code: string, now: int) returns (r: Outcome)
      requires Valid()
      modifies this`users
      ensures id !in old(users) ==> r == NotFound && users == old(users)
      ensures id in old(users) ==>
        var (u, o) := DisableStep(crypto, old(users)[id], code, now);
        r == o && users == old(users)[id := u]
    {
      if id !in users {
        return NotFound;
      }
      var u := users[id];
      assert users == users[id := u];
      if !u.totpEnabled {
        return TotpNotEnabled;
      }
      var ok := VerifyTotpAt(crypto, u.totpSecret, code, now);
      if !ok {
        var found, left := ConsumeRecoveryCode(crypto, u, code);
        if !found {
          return InvalidCode;
        }
        u := left;
      }
      users := users[id := ClearTotp(u)];
      return Success;
    }
  }

  /** `allDigits`. */
  method IsAllDigits(s: string) returns (ok: bool)
    ensures ok <==> AllDigits(s) && s != ""
  {
    for i := 0 to |s|
      invariant AllDigits(s[..i])
    {
      if !IsDigit(s[i]) {
        return false;
      }
      assert s[..i + 1] == s[..i] + [s[i]];
    }
    assert s[..|s|] == s;
    return |s| > 0;
  }

  /** The hashing loop of `NewRecoveryCodes`. */
  method HashCodes(c: Crypto, codes: seq<string>) returns (hashes: seq<string>)
    ensures hashes == seq(|codes|, i requires 0 <= i < |codes| => c.hashToken(codes[i]))
  {
    hashes := [];
    for i := 0 to |codes|
      invariant |hashes| == i && forall j :: 0 <= j < i ==> hashes[j] == c.hashToken(codes[j])
    {
      hashes := hashes + [c.hashToken(codes[i])];
    }
  }

  /** `consumeRecoveryCode`: drops the first matching hash and nothing else. */
  method ConsumeRecoveryCode(c: Crypto, u: User, code: string) returns (found: bool, v: User)
    ensures found <==> HasRecoveryCode(c, u, code)
    ensures !found ==> v == u
    ensures found ==> v == u.(recovery := v.recovery)
    ensures found ==> multiset(u.recovery) == multiset(v.recovery) + multiset{c.hashToken(code)}
  {
    v := u;
    if code == "" {
      return false, u;
    }
    var want := c.hashToken(code);
    for i := 0 to |u.recovery|
      invariant v == u && want !in u.recovery[..i]
    {
      if u.recovery[i] == want {
        v := v.(recovery := u.recovery[..i] + u.recovery[i + 1..]);
        assert u.recovery == u.recovery[..i] + [want] + u.recovery[i + 1..];
        return true, v;
      }
    }
    return false, v;
  }
}
