/**
 * The password-recovery form (src/pages/auth/ForgotPassword.jsx): the
 * account check on submit, and the resend button behind a 30-second
 * countdown that one tick per second runs down.
 */
module ForgotPassword {
  import opened Common

  /** Seconds the resend button stays disabled after a code is sent. */
  const ResendDelay := 30

  const NoAccountError := "No account found with this email address."

  /** `doctors.some(d => d.email === email) || patients.some(p => p.email === email)`. */
  predicate AccountExists(doctors: seq<Doctor>, patients: seq<Patient>, email: string)
  {
    Any(doctors, (d: Doctor) => d.email == email) || Any(patients, (p: Patient) => p.email == email)
  }

  /** An account exists exactly when one of the two account lookups finds it. */
  lemma AccountExistsFinds(doctors: seq<Doctor>, patients: seq<Patient>, email: string)
    ensures AccountExists(doctors, patients, email) <==>
      FindDoctor(doctors, email).Some? || FindPatient(patients, email).Some?
  {
    if FindDoctor(doctors, email).Some? {
      var d := FindDoctor(doctors, email).value;
      var i :| 0 <= i < |doctors| && doctors[i] == d;
      assert ((c: Doctor) => c.email == email)(doctors[i]);
    }
    if FindPatient(patients, email).Some? {
      var p := FindPatient(patients, email).value;
      var i :| 0 <= i < |patients| && patients[i] == p;
      assert ((q: Patient) => q.email == email)(patients[i]);
    }
  }

  /** The timer after one tick of the countdown: down by one, never below zero. */
  function TickValue(t: int): (r: int)
    ensures t >= 0 ==> 0 <= r <= t
    ensures r == t <==> t <= 0
  {
    if t > 0 then t - 1 else t
  }

  /** The timer after `n` ticks. */
  function Countdown(t: int, n: nat): int
    decreases n
  {
    if n == 0 then t else Countdown(TickValue(t), n - 1)
  }

  /** From a non-negative start, `n` ticks take `n` seconds off and then stop at zero. */
  lemma {:induction false} CountdownValue(t: int, n: nat)
    requires t >= 0
    ensures Countdown(t, n) == if n >= t then 0 else t - n
    decreases n
  {
    if n > 0 {
      CountdownValue(TickValue(t), n - 1);
    }
  }

  /** After a code is sent, resending becomes possible exactly once thirty ticks have passed. */
  lemma ResendOpensAfterDelay(n: nat)
    ensures Countdown(ResendDelay, n) == 0 <==> n >= ResendDelay
  {
    CountdownValue(ResendDelay, n);
  }

  class RecoveryForm {
    var email: string
    var submitted: bool
    var error: string
    var timer: int

    /** The countdown stays between zero and the resend delay. */
    ghost predicate Valid()
      reads this
    {
      0 <= timer <= ResendDelay
    }

    /** The form as it first renders. */
    constructor ()
      ensures Valid()
      ensures email == "" && !submitted && error == "" && timer == 0
    {
      email, submitted, error, timer := "", false, "", 0;
    }

    /** The email input. */
    method SetEmail(e: string)
      modifies this`email
      ensures email == e
    {
      email := e;
    }

    /**
     * `handleSubmit`: an unknown email shows the error and changes nothing
     * else; a known one clears the error, shows the sent-code view and
     * starts the countdown.
     */
    method HandleSubmit(doctors: seq<Doctor>, patients: seq<Patient>)
      requires Valid()
      modifies this`submitted, this`error, this`timer
      ensures Valid()
      ensures !AccountExists(doctors, patients, email) ==>
        error == NoAccountError && submitted == old(submitted) && timer == old(timer)
      ensures AccountExists(doctors, patients, email) ==>
        error == "" && submitted && timer == ResendDelay
    {
      var accountExists := AccountExists(doctors, patients, email);
      if !accountExists {
        error := NoAccountError;
        return;
      }
      error := "";
      submitted := true;
      timer := ResendDelay;
    }

    /**
     * `handleResend`: only once the countdown is over does it restart it
     * and return the notice shown to the user.
     */
    method HandleResend() returns (notice: Option<string>)
      requires Valid()
      modifies this`timer
      ensures Valid()
      ensures old(timer) == 0 ==>
        timer == ResendDelay && notice == Some("Reset code resent to " + email + " (demo only)")
      ensures old(timer) != 0 ==> timer == old(timer) && notice.None?
    {
      notice := None;
      if timer == 0 {
        timer := ResendDelay;
        notice := Some("Reset code resent to " + email + " (demo only)");
      }
    }

    /** `handleDifferentEmail`: back to the form as it first rendered. */
    method HandleDifferentEmail()
      modifies this`email, this`submitted, this`error, this`timer
      ensures Valid()
      ensures email == "" && !submitted && error == "" && timer == 0
    {
      email := "";
      submitted := false;
      error := "";
      timer := 0;
    }

    /** One second of the countdown effect. */
    method Tick()
      requires Valid()
      modifies this`timer
      ensures Valid()
      ensures timer == TickValue(old(timer))
    {
      if timer > 0 {
        timer := timer - 1;
      }
    }
  }
}
