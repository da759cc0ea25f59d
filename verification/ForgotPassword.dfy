/** The forgot-password flow: a user asks for a one-time code by e-mail,
    checks the code before it expires, and sets a new password. The user
    repository is the map `users` from e-mail to encoded password, the OTP
    repository the set `otps`; time is the caller's `now` in milliseconds. */
module ForgotPassword {
  import opened Common

  /** A row of the OTP repository. */
  datatype OtpRecord = OtpRecord(fpid: int, otp: int, expirationTime: int, email: string)

  datatype MailBody = MailBody(to: string, subject: string, text: string)

  /** What a handler answers; the HTTP status is left out. */
  datatype Reply =
    | Ok(msg: string)
    | UsernameNotFound  // UsernameNotFoundException: no user with that e-mail
    | InvalidOtp        // no OTP record for that code and user
    | Expired           // "OTP has expired ! ", EXPECTATION_FAILED
    | Mismatch          // "Pls enter the password again! ", EXPECTATION_FAILED

  /** Random.nextInt(100_000, 999_999): the upper bound is exclusive. */
  const OtpLow := 100_000
  const OtpHigh := 999_999

  /** How long a code stays valid: 70 seconds. */
  const OtpLifetimeMillis := 70 * 1000

  const MailSubject := "OTP for Forgot Password Request "
  const MailText := "This is the otp for your Forgot password Request"

  /** The mail verifyEmail sends: fixed subject and text, whatever the code. */
  function ResetMail(email: string): (m: MailBody)
    ensures m.to == email
    ensures m.subject == MailSubject && m.text == MailText
  {
    MailBody(email, MailSubject, MailText)
  }

  class ForgotPasswordController {
    /** The user repository: e-mail to encoded password. */
    var users: map<string, string>
    /** The OTP repository. */
    var otps: set<OtpRecord>
    /** The id the OTP repository assigns to the next saved record. */
    var nextFpid: int
    /** The mails handed to the e-mail service, oldest first. */
    ghost var outbox: seq<MailBody>

    /** PasswordEncoder.encode. */
    const encode: string -> string

    ghost predicate Valid()
      reads this
    {
      && (forall r :: r in otps ==>
            r.fpid < nextFpid && r.email in users && OtpLow <= r.otp < OtpHigh)
      && (forall r, s :: r in otps && s in otps && r.fpid == s.fpid ==> r == s)
    }

    /** The records findByOtpAndUser(otp, user) can return. */
    ghost function Matching(otp: int, email: string): set<OtpRecord>
      reads this
    {
      set r | r in otps && r.otp == otp && r.email == email
    }

    constructor (encode: string -> string, users: map<string, string>)
      ensures Valid()
      ensures this.encode == encode && this.users == users
      ensures otps == {} && outbox == []
    {
      this.encode := encode;
      this.users := users;
      otps, nextFpid, outbox := {}, 0, [];
    }

    /** otpGenerator: a six-digit code drawn from [100000, 999999). */
    method OtpGenerator() returns (otp: int)
      ensures OtpLow <= otp < OtpHigh
    {
      otp :| OtpLow <= otp < OtpHigh;
    }

    /** Issues a code for a known user: mails the user and saves a record
        that expires 70 seconds after `now`. */
    method VerifyEmail(email: string, now: int) returns (r: Reply, ghost otp: int)
      requires Valid()
      modifies this
      ensures Valid()
      ensures users == old(users)
      ensures email !in old(users) ==>
        r == UsernameNotFound && otps == old(otps) && outbox == old(outbox) && nextFpid == old(nextFpid)
      ensures email in old(users) ==>
        && r == Ok("Email sent for verification")
        && OtpLow <= otp < OtpHigh
        && OtpRecord(old(nextFpid), otp, now + OtpLifetimeMillis, email) !in old(otps)
        && otps == old(otps) + {OtpRecord(old(nextFpid), otp, now + OtpLifetimeMillis, email)}
        && outbox == old(outbox) + [ResetMail(email)]
        && nextFpid == old(nextFpid) + 1
    {
      if email !in users {
        return UsernameNotFound, 0;
      }
      var code := OtpGenerator();
      otp := code;
      var mailBody := ResetMail(email);
      var fp := OtpRecord(nextFpid, code, now + OtpLifetimeMillis, email);
      outbox := outbox + [mailBody];
      otps := otps + {fp};
      nextFpid := nextFpid + 1;
      r := Ok("Email sent for verification");
    }

    /** Checks a code for a user. A record whose expiry is strictly before
        `now` is deleted and reported expired; otherwise the code is
        verified and the record stays. */
    method VerifyOtp(otp: int, email: string, now: int) returns (r: Reply, ghost matched: OtpRecord)
      requires Valid()
      modifies this
      ensures Valid()
      ensures users == old(users) && outbox == old(outbox) && nextFpid == old(nextFpid)
      ensures email !in old(users) ==> r == UsernameNotFound && otps == old(otps)
      ensures email in old(users) && old(Matching(otp, email)) == {} ==>
        r == InvalidOtp && otps == old(otps)
      ensures email in old(users) && old(Matching(otp, email)) != {} ==>
        && matched in old(Matching(otp, email))
        && (matched.expirationTime < now ==> r == Expired && otps == old(otps) - {matched})
        && (matched.expirationTime >= now ==> r == Ok("OTP Verified") && otps == old(otps))
    {
      matched := OtpRecord(0, 0, 0, "");
      if email !in users {
        return UsernameNotFound, matched;
      }
      var matches := set rec | rec in otps && rec.otp == otp && rec.email == email;
      if matches == {} {
        return InvalidOtp, matched;
      }
      // A witness for the choice below; the name itself is not used.
      ghost var some := PickMember(matches);
      var fp :| fp in matches;
      matched := fp;
      if fp.expirationTime < now {
        // deleteById(fp.fpid)
        otps := set rec | rec in otps && rec.fpid != fp.fpid;
        return Expired, matched;
      }
      r := Ok("OTP Verified");
    }

    /** Sets the encoded new password when the two entries agree. No OTP
        record is consulted; an unknown e-mail updates no user. */
    method ChangePassword(email: string, password: string, repeatPassword: string) returns (r: Reply)
      requires Valid()
      modifies this
      ensures Valid()
      ensures otps == old(otps) && outbox == old(outbox) && nextFpid == old(nextFpid)
      ensures password != repeatPassword ==> r == Mismatch && users == old(users)
      ensures password == repeatPassword ==>
        && r == Ok("Password   has been changes !")
        && users.Keys == old(users).Keys
        && (email in users ==> users[email] == encode(password))
        && (forall e :: e in users && e != email ==> users[e] == old(users)[e])
    {
      if password != repeatPassword {
        return Mismatch;
      }
      var encodedPassword := encode(password);
      if email in users {
        users := users[email := encodedPassword];
      }
      r := Ok("Password   has been changes !");
    }
  }

  /** An expired code is spent: once verifyOtp reports it expired, the same
      code is invalid, provided it was the user's only record with that code. */
  method ExpiredCodeIsSpent(c: ForgotPasswordController, otp: int, email: string, now: int, later: int)
    returns (first: Reply, second: Reply)
    requires c.Valid() && email in c.users && |c.Matching(otp, email)| == 1
    modifies c
    ensures first == Expired ==> second == InvalidOtp
  {
    ghost var single := c.Matching(otp, email);
    ghost var m;
    first, m := c.VerifyOtp(otp, email, now);
    if first == Expired {
      Singleton(single, m);
      assert c.Matching(otp, email) == {};
    }
    second, m := c.VerifyOtp(otp, email, later);
  }

  /** A code that has not expired can be verified again: nothing is consumed. */
  method VerifyTwiceInWindow(c: ForgotPasswordController, otp: int, email: string, now: int, later: int)
    returns (first: Reply, second: Reply)
    requires c.Valid() && email in c.users && c.Matching(otp, email) != {}
    requires forall r :: r in c.Matching(otp, email) ==> later <= r.expirationTime && now <= r.expirationTime
    modifies c
    ensures first == Ok("OTP Verified") && second == Ok("OTP Verified")
  {
    ghost var m;
    first, m := c.VerifyOtp(otp, email, now);
    second, m := c.VerifyOtp(otp, email, later);
  }

  /** The reset is not gated by the OTP step: a user with no OTP record at
      all gets the new password. */
  method ResetWithoutOtp(c: ForgotPasswordController, email: string, password: string) returns (r: Reply)
    requires c.Valid() && email in c.users
    requires forall rec :: rec in c.otps ==> rec.email != email
    modifies c
    ensures r.Ok? && email in c.users && c.users[email] == c.encode(password)
  {
    r := c.ChangePassword(email, password, password);
  }
}
