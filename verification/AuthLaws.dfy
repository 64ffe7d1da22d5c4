/** What login, recovery and two-factor calls make of an account
    (internal/auth/service.go, internal/auth/totp.go), told from what is presented, the
    stored record and the clock; and what runs of such calls keep. */
module AuthLaws {
  import opened Wrappers
  import opened Text
  import opened Totp
  import opened Arith
  import opened Auth

  // ------------------------------------------------------- what has to be presented

  const HALF_MINUTE: int := 30_000_000_000

  /** The account takes attempts at `now`. */
  predicate Open(u: User, now: int) { u.lockedUntil.None? || u.lockedUntil.value <= now }

  /** `secret` is the account's password followed by the code of the period w half
      minutes away. */
  ghost predicate PasswordAndCode(c: Crypto, u: User, secret: string, now: int, w: int)
    requires Sha1Sized(c)
  {
    var code := Code(c, u.totpSecret, now + w * HALF_MINUTE);
    && code.Some? && |code.value| < |secret|
    && secret[|secret| - |code.value|..] == code.value
    && c.verifyPassword(secret[..|secret| - |code.value|], u.passwordHash)
  }

  /** The password; with two-factor on, followed by the code of the current or a
      neighbouring half minute. */
  ghost predicate SecretRight(c: Crypto, u: User, secret: string, now: int)
    requires Sha1Sized(c)
  {
    if !u.totpEnabled then c.verifyPassword(secret, u.passwordHash)
    else exists w: int :: -1 <= w <= 1 && PasswordAndCode(c, u, secret, now, w)
  }

  /** `text`, white space around it aside, is the code of the period w half minutes away. */
  ghost predicate CodeAt(c: Crypto, secret: string, text: string, now: int, w: int)
    requires Sha1Sized(c)
  {
    var code := Code(c, secret, now + w * HALF_MINUTE);
    code.Some? && exists i :: Trims(text, code.value, i)
  }

  ghost predicate CodeRight(c: Crypto, secret: string, text: string, now: int)
    requires Sha1Sized(c)
  {
    exists w: int :: -1 <= w <= 1 && CodeAt(c, secret, text, now, w)
  }

  predicate RecoveryRight(c: Crypto, u: User, text: string) { text != "" && c.hashToken(text) in u.recovery }

  lemma DigitsTrim(s: string)
    requires AllDigits(s) && s != ""
    ensures TrimSpace(s) == s
  {
    assert IsDigit(s[0]) && IsDigit(s[|s| - 1]);
  }

  lemma HalfMinutes(w: int)
    ensures w * HALF_MINUTE == w * PERIOD * SECOND
  {
  }

  lemma AcceptedIsCode(c: Crypto, secret: string, text: string, now: int, w: int)
    requires Sha1Sized(c) && AcceptedAt(c, secret, TrimSpace(text), now, w)
    ensures CodeAt(c, secret, text, now, w)
  {
    HalfMinutes(w);
    var i := TrimExact(text);
  }

  lemma CodeIsAccepted(c: Crypto, secret: string, text: string, now: int, w: int)
    requires Sha1Sized(c) && CodeAt(c, secret, text, now, w)
    ensures AcceptedAt(c, secret, TrimSpace(text), now, w)
  {
    HalfMinutes(w);
    var code := Code(c, secret, now + w * HALF_MINUTE).value;
    var i :| Trims(text, code, i);
    TrimUnique(text, code, i);
  }

  lemma AcceptsExact(c: Crypto, secret: string, text: string, now: int)
    requires Sha1Sized(c)
    ensures Accepts(c, secret, text, now) <==> CodeRight(c, secret, text, now)
  {
    if Accepts(c, secret, text, now) {
      var w: int :| -SKEW <= w <= SKEW && AcceptedAt(c, secret, TrimSpace(text), now, w);
      AcceptedIsCode(c, secret, text, now, w);
    }
    if CodeRight(c, secret, text, now) {
      var w: int :| -1 <= w <= 1 && CodeAt(c, secret, text, now, w);
      CodeIsAccepted(c, secret, text, now, w);
    }
  }

  /** The last six characters are a code accepted for the period w away, the rest the
      password. */
  ghost predicate EndsInCode(c: Crypto, u: User, secret: string, now: int, w: int)
    requires Sha1Sized(c)
  {
    && |secret| > 6 && AllDigits(secret[|secret| - 6..])
    && c.verifyPassword(secret[..|secret| - 6], u.passwordHash)
    && AcceptedAt(c, u.totpSecret, TrimSpace(secret[|secret| - 6..]), now, w)
  }

  lemma CodeIsEnd(c: Crypto, u: User, secret: string, now: int, w: int)
    requires Sha1Sized(c) && PasswordAndCode(c, u, secret, now, w)
    ensures EndsInCode(c, u, secret, now, w)
  {
    HalfMinutes(w);
    CodeIsSixDigits(c, u.totpSecret, now + w * HALF_MINUTE);
    DigitsTrim(secret[|secret| - 6..]);
  }

  lemma EndIsCode(c: Crypto, u: User, secret: string, now: int, w: int)
    requires Sha1Sized(c) && EndsInCode(c, u, secret, now, w)
    ensures PasswordAndCode(c, u, secret, now, w)
  {
    HalfMinutes(w);
    DigitsTrim(secret[|secret| - 6..]);
  }

  /** The checks of verifyCredentials accept exactly the right secrets. */
  lemma CredentialsExact(c: Crypto, u: User, secret: string, now: int)
    requires Sha1Sized(c)
    ensures Credentials(c, u, secret, now) <==> SecretRight(c, u, secret, now)
  {
    if u.totpEnabled && SecretRight(c, u, secret, now) {
      var w: int :| -1 <= w <= 1 && PasswordAndCode(c, u, secret, now, w);
      CodeIsEnd(c, u, secret, now, w);
      assert -SKEW <= w <= SKEW;
    } else if u.totpEnabled && Credentials(c, u, secret, now) {
      var w: int :| -SKEW <= w <= SKEW && AcceptedAt(c, u.totpSecret, TrimSpace(secret[|secret| - 6..]), now, w);
      EndIsCode(c, u, secret, now, w);
    }
  }

  // --------------------------------------------------------- one call, from its causes

  /** `v` is `u` after one more counted failure. */
  predicate FailedOnce(p: Policy, u: User, v: User, now: int) {
    if p.threshold <= 0 then v == u
    else
      && v.failed == u.failed + 1
      && v.lockedUntil == (if u.failed + 1 < p.threshold then u.lockedUntil else Some(now + p.duration))
      && v == u.(failed := v.failed, lockedUntil := v.lockedUntil)
  }

  /** A login succeeds exactly when the account is open and the secret right; success
      clears the counter and the lock and stamps the record, a wrong secret counts, and
      a locked account answers AccountLocked. */
  lemma LoginExact(p: Policy, c: Crypto, u: User, secret: string, now: int)
    requires Sha1Sized(c) && p.duration > 0
    ensures var (v, r) := LoginStep(p, c, u, secret, now);
      && (r == Success <==> Open(u, now) && SecretRight(c, u, secret, now))
      && (r == Success ==> v == User(u.passwordHash, Some(now), 0, None, u.totpEnabled, u.totpSecret, u.pendingSecret,
                                     u.recovery))
      && (!Open(u, now) ==> v == u && r == AccountLocked)
      && (Open(u, now) && !SecretRight(c, u, secret, now) ==>
           && FailedOnce(p, u, v, now)
           && r == if 0 < p.threshold <= u.failed + 1 then AccountLocked else InvalidCredentials)
  {
    CredentialsExact(c, u, secret, now);
  }

  /** A recovery succeeds exactly when the account is open, has two-factor on, and both
      the password and a recovery code are right; it switches two-factor off. */
  lemma RecoverExact(p: Policy, c: Crypto, u: User, password: string, code: string, now: int)
    ensures var (v, r) := RecoverStep(p, c, u, password, code, now);
      var known := c.verifyPassword(password, u.passwordHash);
      && (r == Success <==> Open(u, now) && known && u.totpEnabled && RecoveryRight(c, u, code))
      && (r == Success ==> v == User(u.passwordHash, u.lastLogin, 0, u.lockedUntil, false, "", "", []))
      && (!Open(u, now) ==> v == u && r == AccountLocked)
      && (Open(u, now) && !known ==> FailedOnce(p, u, v, now) && r == InvalidCredentials)
      && (Open(u, now) && known && !u.totpEnabled ==> v == u && r == TotpNotEnabled)
      && (Open(u, now) && known && u.totpEnabled && !RecoveryRight(c, u, code) ==>
           FailedOnce(p, u, v, now) && r == InvalidCode)
  {
  }

  /** Two-factor is switched off exactly by a current code or a recovery code, and then
      leaves no secret behind; else the record stays. */
  lemma DisableExact(c: Crypto, u: User, code: string, now: int)
    requires Sha1Sized(c)
    ensures var (v, r) := DisableStep(c, u, code, now);
      && (r == Success <==> u.totpEnabled && (CodeRight(c, u.totpSecret, code, now) || RecoveryRight(c, u, code)))
      && (if r == Success then v == User(u.passwordHash, u.lastLogin, u.failed, u.lockedUntil, false, "", "", [])
          else v == u && r == if u.totpEnabled then InvalidCode else TotpNotEnabled)
  {
    AcceptsExact(c, u.totpSecret, code, now);
  }

  /** Two-factor is switched on exactly by a current code of the pending secret, when the
      recovery codes can be drawn; then that secret is in force and each drawn code is
      one that recovers. */
  lemma ActivateExact(c: Crypto, u: User, code: string, now: int, drawn: Option<seq<string>>)
    requires Sha1Sized(c)
    ensures var (v, r) := ActivateStep(c, u, code, now, drawn);
      && (r == Success <==>
           !u.totpEnabled && u.pendingSecret != "" && CodeRight(c, u.pendingSecret, code, now) && drawn.Some?)
      && (r == Success ==>
           && v.totpEnabled && v.totpSecret == u.pendingSecret && v.pendingSecret == ""
           && v.passwordHash == u.passwordHash && v.lastLogin == u.lastLogin
           && v.failed == u.failed && v.lockedUntil == u.lockedUntil
           && |v.recovery| == |drawn.value|
           && forall i :: 0 <= i < |v.recovery| ==> v.recovery[i] == c.hashToken(drawn.value[i]))
      && (r != Success ==> v == u)
      && (r == TotpAlreadyEnabled <==> u.totpEnabled)
      && (r == NoPendingTotp <==> !u.totpEnabled && u.pendingSecret == "")
      && (r == InvalidCode <==>
           !u.totpEnabled && u.pendingSecret != "" && !CodeRight(c, u.pendingSecret, code, now))
  {
    AcceptsExact(c, u.pendingSecret, code, now);
  }

  /** A setup stores the drawn secret as pending, and only while two-factor is off. */
  lemma BeginExact(u: User, drawn: Option<string>)
    ensures var (v, r) := BeginStep(u, drawn);
      && (r == Success <==> !u.totpEnabled && drawn.Some?)
      && (r == TotpAlreadyEnabled <==> u.totpEnabled)
      && (if r == Success then
            v == User(u.passwordHash, u.lastLogin, u.failed, u.lockedUntil, u.totpEnabled, u.totpSecret, drawn.value,
                      u.recovery)
          else v == u)
  {
  }

  // -------------------------------------------------------------------- runs

  datatype Call =
    | Login(secret: string)
    | Recover(password: string, recoveryCode: string)
    | Begin(newSecret: Option<string>)
    | Activate(code: string, newCodes: Option<seq<string>>)
    | Disable(code: string)

  datatype Event = Event(now: int, call: Call)

  ghost function Apply(p: Policy, c: Crypto, u: User, e: Event): (User, Outcome)
    requires Sha1Sized(c)
  {
    match e.call
    case Login(secret) => LoginStep(p, c, u, secret, e.now)
    case Recover(password, code) => RecoverStep(p, c, u, password, code, e.now)
    case Begin(drawn) => BeginStep(u, drawn)
    case Activate(code, drawn) => ActivateStep(c, u, code, e.now, drawn)
    case Disable(code) => DisableStep(c, u, code, e.now)
  }

  /** A login or a recovery that goes through. */
  ghost predicate Succeeds(p: Policy, c: Crypto, u: User, e: Event)
    requires Sha1Sized(c)
  {
    (e.call.Login? || e.call.Recover?) && Apply(p, c, u, e).1 == Success
  }

  /** What was presented is wrong: at login the secret; at recovery the password, or
      with two-factor on the recovery code. */
  ghost predicate Wrong(c: Crypto, u: User, e: Event)
    requires Sha1Sized(c)
  {
    match e.call
    case Login(secret) => !SecretRight(c, u, secret, e.now)
    case Recover(password, code) =>
      !c.verifyPassword(password, u.passwordHash) || (u.totpEnabled && !RecoveryRight(c, u, code))
    case _ => false
  }

  /** A wrong attempt on an account that is not locked. */
  ghost predicate Failure(c: Crypto, u: User, e: Event)
    requires Sha1Sized(c)
  {
    Open(u, e.now) && Wrong(c, u, e)
  }

  ghost function After(p: Policy, c: Crypto, u: User, es: seq<Event>): User
    requires Sha1Sized(c)
    decreases es
  {
    if es == [] then u else After(p, c, Apply(p, c, u, es[0]).0, es[1..])
  }

  ghost predicate NoSuccess(p: Policy, c: Crypto, u: User, es: seq<Event>)
    requires Sha1Sized(c)
    decreases es
  {
    es == [] || (!Succeeds(p, c, u, es[0]) && NoSuccess(p, c, Apply(p, c, u, es[0]).0, es[1..]))
  }

  /** The failures of a run in the window [a, b]. */
  ghost function FailuresIn(p: Policy, c: Crypto, u: User, es: seq<Event>, a: int, b: int): nat
    requires Sha1Sized(c)
    decreases es
  {
    if es == [] then 0
    else
      (if a <= es[0].now <= b && Failure(c, u, es[0]) then 1 else 0)
      + FailuresIn(p, c, Apply(p, c, u, es[0]).0, es[1..], a, b)
  }

  ghost function Failures(p: Policy, c: Crypto, u: User, es: seq<Event>): nat
    requires Sha1Sized(c)
    decreases es
  {
    if es == [] then 0
    else (if Failure(c, u, es[0]) then 1 else 0) + Failures(p, c, Apply(p, c, u, es[0]).0, es[1..])
  }

  ghost predicate From(es: seq<Event>, t: int) {
    && (forall i, j :: 0 <= i < j < |es| ==> es[i].now <= es[j].now)
    && forall i :: 0 <= i < |es| ==> t <= es[i].now
  }

  lemma FromTail(es: seq<Event>, t: int)
    requires es != [] && From(es, t)
    ensures t <= es[0].now && From(es[1..], es[0].now)
  {
    forall i | 0 <= i < |es[1..]| ensures es[0].now <= es[1..][i].now {
      assert es[1..][i] == es[i + 1];
    }
  }

  /** Without a success the counter rises with every failure and stands still
      otherwise, and at the threshold every failure starts a new lock. */
  lemma StepShape(p: Policy, c: Crypto, u: User, e: Event)
    requires Sha1Sized(c) && p.threshold >= 1 && !Succeeds(p, c, u, e)
    ensures var v := Apply(p, c, u, e).0;
      if Failure(c, u, e) then
        && v.failed == u.failed + 1
        && v.lockedUntil == (if v.failed >= p.threshold then Some(e.now + p.duration) else u.lockedUntil)
      else v.failed == u.failed && v.lockedUntil == u.lockedUntil
  {
    if e.call.Login? {
      CredentialsExact(c, u, e.call.secret, e.now);
    }
  }

  // --------------------------------------------------------- the lockout bound

  /** The earliest instant from t on at which the account is open. */
  function Earliest(u: User, t: int): int {
    if u.lockedUntil.Some? && u.lockedUntil.value > t then u.lockedUntil.value else t
  }

  /** The failures still to come before the threshold starts to bind. */
  function Slack(p: Policy, u: User): nat {
    if u.failed < p.threshold - 1 then p.threshold - 1 - u.failed else 0
  }

  /** The failures that fit between t and b when they are `duration` apart. */
  function Room(p: Policy, t: int, b: int): nat
    requires p.duration > 0
  {
    if t <= b then 1 + (b - t) / p.duration else 0
  }

  lemma RoomShrinks(p: Policy, t: int, u: int, b: int)
    requires p.duration > 0 && t <= u
    ensures Room(p, u, b) <= Room(p, t, b)
  {
    if u <= b {
      DivMonotone(b - u, b - t, p.duration);
    }
  }

  lemma RoomUsed(p: Policy, t: int, b: int)
    requires p.duration > 0 && t <= b
    ensures Room(p, t, b) == 1 + Room(p, t + p.duration, b)
  {
    DivStep(b - t, p.duration);
  }

  lemma {:induction false} FailuresBounded(p: Policy, c: Crypto, u: User, es: seq<Event>, a: int, t: int, b: int)
    requires Sha1Sized(c) && p.threshold >= 1 && p.duration > 0
    requires From(es, t) && a <= t && NoSuccess(p, c, u, es)
    ensures FailuresIn(p, c, u, es, a, b) <= Slack(p, u) + Room(p, Earliest(u, t), b)
    decreases es
  {
    if es != [] {
      var e := es[0];
      var v := Apply(p, c, u, e).0;
      FromTail(es, t);
      StepShape(p, c, u, e);
      FailuresBounded(p, c, v, es[1..], a, e.now, b);
      RoomShrinks(p, Earliest(u, t), Earliest(u, e.now), b);
      if Failure(c, u, e) {
        if e.now <= b {
          RoomUsed(p, e.now, b);
        }
        RoomShrinks(p, e.now, Earliest(v, e.now), b);
      }
    }
  }

  lemma WindowRoom(p: Policy, u: User, a: int, t: int, window: nat)
    requires p.threshold >= 1 && p.duration > 0 && u.failed >= 0 && a <= t
    ensures Slack(p, u) + Room(p, Earliest(u, t), a + window) <= p.threshold + window / p.duration
  {
    RoomShrinks(p, a, Earliest(u, t), a + window);
    assert a + window - a == window;
  }

  lemma {:induction false} FailuresInWindow(
    p: Policy, c: Crypto, u: User, es: seq<Event>, t: int, a: int, window: nat)
    requires Sha1Sized(c) && p.threshold >= 1 && p.duration > 0 && u.failed >= 0
    requires From(es, t) && NoSuccess(p, c, u, es)
    ensures FailuresIn(p, c, u, es, a, a + window) <= p.threshold + window / p.duration
    decreases es
  {
    if es != [] {
      FromTail(es, t);
      StepShape(p, c, u, es[0]);
      if es[0].now < a {
        FailuresInWindow(p, c, Apply(p, c, u, es[0]).0, es[1..], es[0].now, a, window);
      } else {
        assert From(es, es[0].now);
        FailuresBounded(p, c, u, es, a, es[0].now, a + window);
        WindowRoom(p, u, a, es[0].now, window);
      }
    }
  }

  /** With threshold N >= 1 and duration D > 0, a run of login, recovery and
      two-factor calls without a successful login or recovery gets at most
      N + floor(T / D) wrong attempts examined in any window of length T. */
  lemma LockoutBound(p: Policy, c: Crypto, u: User, es: seq<Event>, a: int, window: nat)
    requires Sha1Sized(c) && p.threshold >= 1 && p.duration > 0 && u.failed >= 0
    requires forall i, j :: 0 <= i < j < |es| ==> es[i].now <= es[j].now
    requires NoSuccess(p, c, u, es)
    ensures FailuresIn(p, c, u, es, a, a + window) <= p.threshold + window / p.duration
  {
    if es != [] {
      FailuresInWindow(p, c, u, es, es[0].now, a, window);
    }
  }

  lemma {:induction false} LockedUntilHolds(p: Policy, c: Crypto, u: User, es: seq<Event>, t: int, j: nat)
    requires Sha1Sized(c) && p.threshold >= 1 && p.duration > 0
    requires From(es, t) && NoSuccess(p, c, u, es)
    requires j < |es| && Failure(c, After(p, c, u, es[..j]), es[j])
    requires u.lockedUntil.Some?
    ensures u.lockedUntil.value <= es[j].now
    decreases es
  {
    StepShape(p, c, u, es[0]);
    FromTail(es, t);
    if j == 0 {
      assert es[..0] == [];
    } else if Failure(c, u, es[0]) {
      assert u.lockedUntil.value <= es[0].now;
    } else {
      assert es[..j][1..] == es[1..][..j - 1];
      LockedUntilHolds(p, c, Apply(p, c, u, es[0]).0, es[1..], es[0].now, j - 1);
    }
  }

  /** From the wrong attempt that reaches the threshold on, the next one to be examined
      comes at least the lockout duration later. */
  lemma {:induction false} FailuresSpaced(p: Policy, c: Crypto, u: User, es: seq<Event>, t: int, i: nat, j: nat)
    requires Sha1Sized(c) && p.threshold >= 1 && p.duration > 0
    requires From(es, t) && NoSuccess(p, c, u, es)
    requires i < j < |es|
    requires Failure(c, After(p, c, u, es[..i]), es[i])
    requires u.failed + Failures(p, c, u, es[..i]) + 1 >= p.threshold
    requires Failure(c, After(p, c, u, es[..j]), es[j])
    ensures es[i].now + p.duration <= es[j].now
    decreases es
  {
    FromTail(es, t);
    StepShape(p, c, u, es[0]);
    var v := Apply(p, c, u, es[0]).0;
    assert es[..j][1..] == es[1..][..j - 1];
    if i == 0 {
      assert es[..0] == [];
      assert Failures(p, c, u, []) == 0;
      LockedUntilHolds(p, c, v, es[1..], es[0].now, j - 1);
    } else {
      assert es[..i][1..] == es[1..][..i - 1];
      FailuresSpaced(p, c, v, es[1..], es[0].now, i - 1, j - 1);
    }
  }

  // ------------------------------------------------------------ the lock takes hold

  /** The counter is the number of wrong attempts examined. */
  lemma {:induction false} CounterCounts(p: Policy, c: Crypto, u: User, es: seq<Event>)
    requires Sha1Sized(c) && p.threshold >= 1 && NoSuccess(p, c, u, es)
    ensures After(p, c, u, es).failed == u.failed + Failures(p, c, u, es)
    decreases es
  {
    if es != [] {
      StepShape(p, c, u, es[0]);
      CounterCounts(p, c, Apply(p, c, u, es[0]).0, es[1..]);
    }
  }

  /** Whether an attempt is wrong does not depend on the counter or the lock. */
  lemma WrongStays(c: Crypto, u: User, v: User, e: Event)
    requires Sha1Sized(c) && v == u.(failed := v.failed, lockedUntil := v.lockedUntil) && Wrong(c, u, e)
    ensures Wrong(c, v, e)
  {
    if e.call.Login? {
      forall w: int ensures PasswordAndCode(c, v, e.call.secret, e.now, w) <==>
                            PasswordAndCode(c, u, e.call.secret, e.now, w) {
      }
    }
  }

  lemma WrongAttempt(p: Policy, c: Crypto, u: User, e: Event)
    requires Sha1Sized(c) && p.duration > 0 && p.threshold >= 1 && Failure(c, u, e)
    ensures FailedOnce(p, u, Apply(p, c, u, e).0, e.now) && Apply(p, c, u, e).1 != Success
    ensures u.failed + 1 < p.threshold ==> Apply(p, c, u, e).1 in {InvalidCredentials, InvalidCode}
    ensures u.failed + 1 == p.threshold && e.call.Login? ==> Apply(p, c, u, e).1 == AccountLocked
  {
    match e.call
    case Login(secret) => LoginExact(p, c, u, secret, e.now);
    case Recover(password, code) => RecoverExact(p, c, u, password, code, e.now);
    case _ =>
  }

  /** Wrong attempts on a fresh account with threshold N: before the N-th the account is
      open and answers that the credentials are invalid, the N-th login already answers
      AccountLocked, and then the account is locked for the duration from there. */
  lemma {:induction false} FirstFailures(p: Policy, c: Crypto, u: User, es: seq<Event>)
    requires Sha1Sized(c) && p.threshold >= 1 && p.duration > 0 && u.lockedUntil.None? && u.failed >= 0
    requires 1 <= |es| && u.failed + |es| == p.threshold && forall k :: 0 <= k < |es| ==> Wrong(c, u, es[k])
    ensures forall k :: 0 <= k < |es| ==> After(p, c, u, es[..k]) == u.(failed := u.failed + k)
    ensures forall k :: 0 <= k < |es| - 1 ==>
      Apply(p, c, u.(failed := u.failed + k), es[k]).1 in {InvalidCredentials, InvalidCode}
    ensures es[|es| - 1].call.Login? ==>
      Apply(p, c, u.(failed := p.threshold - 1), es[|es| - 1]).1 == AccountLocked
    ensures After(p, c, u, es) == u.(failed := p.threshold, lockedUntil := Some(es[|es| - 1].now + p.duration))
    decreases es
  {
    var v := Apply(p, c, u, es[0]).0;
    WrongAttempt(p, c, u, es[0]);
    if |es| == 1 {
      assert es[1..] == [] && es[..0] == [];
    } else {
      assert v == u.(failed := u.failed + 1);
      forall k | 0 <= k < |es[1..]| ensures Wrong(c, v, es[1..][k]) {
        WrongStays(c, u, v, es[k + 1]);
      }
      FirstFailures(p, c, v, es[1..]);
      forall k | 0 <= k < |es| ensures After(p, c, u, es[..k]) == u.(failed := u.failed + k) {
        if k > 0 {
          assert es[..k][1..] == es[1..][..k - 1];
        }
      }
      forall k | 0 < k < |es| - 1
        ensures Apply(p, c, u.(failed := u.failed + k), es[k]).1 in {InvalidCredentials, InvalidCode}
      {
        assert es[1..][k - 1] == es[k];
      }
    }
  }

  /** A locked account refuses every login and recovery until the lock ends. */
  lemma {:induction false} LockLasts(p: Policy, c: Crypto, v: User, more: seq<Event>, j: nat, end: int)
    requires Sha1Sized(c) && v.lockedUntil == Some(end)
    requires j < |more| && forall k :: 0 <= k <= j ==> more[k].now < end
    ensures After(p, c, v, more[..j]).lockedUntil == Some(end)
    ensures more[j].call.Login? || more[j].call.Recover? ==>
      Apply(p, c, After(p, c, v, more[..j]), more[j]) == (After(p, c, v, more[..j]), AccountLocked)
    decreases j
  {
    if j > 0 {
      var w := Apply(p, c, v, more[0]).0;
      assert w.lockedUntil == Some(end);
      LockLasts(p, c, w, more[1..], j - 1, end);
      assert more[..j][1..] == more[1..][..j - 1];
    }
  }

  /** After as many wrong attempts as the threshold allows, the last at instant t, every
      login and recovery before t plus the duration is refused, right ones included. */
  lemma LockTakesHold(p: Policy, c: Crypto, u: User, es: seq<Event>, more: seq<Event>, j: nat)
    requires Sha1Sized(c) && p.threshold >= 1 && p.duration > 0 && u.lockedUntil.None? && u.failed == 0
    requires |es| == p.threshold && forall k :: 0 <= k < |es| ==> Wrong(c, u, es[k])
    requires j < |more| && forall k :: 0 <= k <= j ==> more[k].now < es[|es| - 1].now + p.duration
    ensures more[j].call.Login? || more[j].call.Recover? ==>
      Apply(p, c, After(p, c, After(p, c, u, es), more[..j]), more[j]).1 == AccountLocked
  {
    FirstFailures(p, c, u, es);
    LockLasts(p, c, After(p, c, u, es), more, j, es[|es| - 1].now + p.duration);
  }

  // ------------------------------------------------------ login with a code

  /** Password followed by a freshly generated code logs a two-factor user in:
      the split recovers both parts and the code is still in range. */
  lemma CodeLoginSucceeds(p: Policy, c: Crypto, u: User, password: string, generated: int, now: int)
    requires Sha1Sized(c) && u.totpEnabled && !Locked(u, now)
    requires password != "" && c.verifyPassword(password, u.passwordHash)
    requires Code(c, u.totpSecret, generated).Some?
    requires 0 <= generated < HORIZON && 0 <= now < HORIZON
    requires -PERIOD * SECOND <= generated - now <= PERIOD * SECOND
    ensures LoginStep(p, c, u, password + Code(c, u.totpSecret, generated).value, now).1 == Success
  {
    var code := Code(c, u.totpSecret, generated).value;
    CodeIsSixDigits(c, u.totpSecret, generated);
    assert (password + code)[|password + code| - 6..] == code;
    assert (password + code)[..|password + code| - 6] == password;
    FreshCodeAccepted(c, u.totpSecret, generated, now);
  }

  /** Nothing but the password followed by the code of the current or a
      neighbouring period lets a two-factor user in. */
  lemma CodeLoginSound(p: Policy, c: Crypto, u: User, secret: string, now: int)
    requires Sha1Sized(c) && u.totpEnabled
    requires LoginStep(p, c, u, secret, now).1 == Success
    ensures exists w: int :: -1 <= w <= 1 && PasswordAndCode(c, u, secret, now, w)
  {
    CredentialsExact(c, u, secret, now);
  }

  /** While an account is locked, login and recovery are refused whatever is
      presented, and neither extends the lock nor touches the record. */
  lemma LockRefusesEverything(p: Policy, c: Crypto, u: User, e: Event)
    requires Sha1Sized(c) && Locked(u, e.now) && (e.call.Login? || e.call.Recover?)
    ensures Apply(p, c, u, e) == (u, AccountLocked)
  {
  }

  /** A recovery uses up all recovery codes: until two-factor is activated
      again, no later recovery succeeds. */
  lemma {:induction false} RecoverySingleUse(p: Policy, c: Crypto, u: User, es: seq<Event>, i: nat)
    requires Sha1Sized(c) && !u.totpEnabled
    requires i < |es| && es[i].call.Recover?
    requires forall k :: 0 <= k < i ==> !es[k].call.Activate?
    ensures Apply(p, c, After(p, c, u, es[..i]), es[i]).1 != Success
    decreases i
  {
    if i == 0 {
      assert es[..0] == [];
    } else {
      assert es[..i][1..] == es[1..][..i - 1];
      RecoverySingleUse(p, c, Apply(p, c, u, es[0]).0, es[1..], i - 1);
    }
  }
}
