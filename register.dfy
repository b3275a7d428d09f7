/**
 * The patient sign-up form (src/pages/auth/Register.jsx): the password
 * rule, the confirmation step and the patient record the form builds.
 */
module Register {
  import opened Common

  // ---------------------------------------------------------------------
  // The password rule

  predicate IsLetter(c: char) { 'A' <= c <= 'Z' || 'a' <= c <= 'z' }

  predicate IsDigit(c: char) { '0' <= c <= '9' }

  /** The class `[A-Za-z\d]`. */
  predicate IsAlnum(c: char) { IsLetter(c) || IsDigit(c) }

  /** The characters a regular-expression `.` does not match. */
  predicate LineTerminator(c: char)
  {
    c == '\n' || c == '\r' || c == '\U{2028}' || c == '\U{2029}'
  }

  /**
   * The lookahead `(?=.*X)` tried at the start of `s`: some character of
   * class X is preceded only by characters `.` matches.
   */
  predicate AnyThen(s: string, x: char -> bool)
    decreases |s|
  {
    s != [] && (x(s[0]) || (!LineTerminator(s[0]) && AnyThen(s[1..], x)))
  }

  /** `[A-Za-z\d]*$`: every remaining character is a letter or a digit. */
  predicate AlnumToEnd(s: string)
    decreases |s|
  {
    s == [] || (IsAlnum(s[0]) && AlnumToEnd(s[1..]))
  }

  /**
   * `/^(?=.*[A-Za-z])(?=.*\d)[A-Za-z\d]{6,}$/.test(s)`, written after the
   * pattern's own structure: both lookaheads from the start, then at
   * least six characters of the class running to the end.
   */
  predicate PatternTest(s: string)
  {
    AnyThen(s, IsLetter) && AnyThen(s, IsDigit) && |s| >= 6 && AlnumToEnd(s)
  }

  /** The rule the pattern encodes, stated directly. */
  predicate PasswordRule(s: string)
  {
    && |s| >= 6
    && (forall i :: 0 <= i < |s| ==> IsAlnum(s[i]))
    && (exists i :: 0 <= i < |s| && IsLetter(s[i]))
    && (exists i :: 0 <= i < |s| && IsDigit(s[i]))
  }

  lemma {:induction false} AlnumToEndAll(s: string)
    ensures AlnumToEnd(s) <==> forall i :: 0 <= i < |s| ==> IsAlnum(s[i])
    decreases |s|
  {
    if s != [] {
      AlnumToEndAll(s[1..]);
      if forall i :: 0 <= i < |s| ==> IsAlnum(s[i]) {
        assert forall i :: 0 <= i < |s[1..]| ==> IsAlnum(s[1..][i]) by {
          forall i | 0 <= i < |s[1..]| ensures IsAlnum(s[1..][i]) {
            assert s[1..][i] == s[i + 1];
          }
        }
      }
      if AlnumToEnd(s) {
        forall i | 0 <= i < |s| ensures IsAlnum(s[i]) {
          if i > 0 { assert s[i] == s[1..][i - 1]; }
        }
      }
    }
  }

  /** A lookahead that succeeds has found a character of its class. */
  lemma {:induction false} AnyThenFinds(s: string, x: char -> bool)
    requires AnyThen(s, x)
    ensures exists i :: 0 <= i < |s| && x(s[i])
    decreases |s|
  {
    if !x(s[0]) {
      AnyThenFinds(s[1..], x);
      var i :| 0 <= i < |s[1..]| && x(s[1..][i]);
      assert x(s[i + 1]);
    }
  }

  /** With no line terminator before it, a character of the class is found by the lookahead. */
  lemma {:induction false} AnyThenReaches(s: string, x: char -> bool, i: nat)
    requires i < |s| && x(s[i])
    requires forall j :: 0 <= j < i ==> !LineTerminator(s[j])
    ensures AnyThen(s, x)
    decreases i
  {
    if i > 0 && !x(s[0]) {
      assert !LineTerminator(s[0]);
      assert s[1..][i - 1] == s[i];
      AnyThenReaches(s[1..], x, i - 1);
    }
  }

  /** The pattern accepts exactly the passwords the rule describes. */
  lemma PatternIsRule(s: string)
    ensures PatternTest(s) <==> PasswordRule(s)
  {
    AlnumToEndAll(s);
    if PatternTest(s) {
      AnyThenFinds(s, IsLetter);
      AnyThenFinds(s, IsDigit);
    }
    if PasswordRule(s) {
      var i :| 0 <= i < |s| && IsLetter(s[i]);
      var j :| 0 <= j < |s| && IsDigit(s[j]);
      AnyThenReaches(s, IsLetter, i);
      AnyThenReaches(s, IsDigit, j);
    }
  }

  /** A password of letters and digits mixing both, from six characters on, passes. */
  lemma MixedPasswordAccepted()
    ensures PatternTest("abc123")
  {
    PatternIsRule("abc123");
    assert IsLetter("abc123"[0]) && IsDigit("abc123"[3]);
  }

  /** Letters alone do not pass, however long. */
  lemma LettersOnlyRejected()
    ensures !PatternTest("abcdefgh")
  {
    PatternIsRule("abcdefgh");
  }

  /** Five characters are too few, even mixed. */
  lemma FiveCharactersRejected()
    ensures !PatternTest("abc12")
  {
    PatternIsRule("abc12");
  }

  /** A space (or any other symbol) rules a password out. */
  lemma SymbolRejected()
    ensures !PatternTest("abc 123")
  {
    PatternIsRule("abc 123");
    assert !IsAlnum("abc 123"[3]);
  }

  const PasswordError := "Password must be at least 6 characters and include letters and numbers."

  /** The record built on a confirmed sign-up: the next id after the known patients, age 0. */
  function NewPatient(patients: seq<Patient>, name: string, email: string, password: string): (p: Patient)
    ensures p.id == |patients| + 1 && p.age == 0
    ensures p.name == name && p.email == email && p.password == password
    ensures (forall q :: q in patients ==> 1 <= q.id <= |patients|) ==> forall q :: q in patients ==> q.id != p.id
  {
    Patient(|patients| + 1, name, email, password, 0)
  }

  // ---------------------------------------------------------------------
  // The form

  class RegisterForm {
    var name: string
    var email: string
    var password: string
    var showPassword: bool
    var error: string

    /** The form as it first renders: every field empty, the password hidden. */
    constructor ()
      ensures name == "" && email == "" && password == "" && !showPassword && error == ""
    {
      name, email, password, showPassword, error := "", "", "", false, "";
    }

    /** The name input. */
    method SetName(n: string)
      modifies this`name
      ensures name == n
    {
      name := n;
    }

    /** The email input. */
    method SetEmail(e: string)
      modifies this`email
      ensures email == e
    {
      email := e;
    }

    /** The password input. */
    method SetPassword(p: string)
      modifies this`password
      ensures password == p
    {
      password := p;
    }

    /** The eye button next to the password. */
    method TogglePassword()
      modifies this`showPassword
      ensures showPassword == !old(showPassword)
    {
      showPassword := !showPassword;
    }

    /** `resetForm`: every input and the error cleared, the password hidden again. */
    method ResetForm()
      modifies this
      ensures name == "" && email == "" && password == "" && !showPassword && error == ""
    {
      name, email, password, showPassword, error := "", "", "", false, "";
    }

    /**
     * `handleRegister`, with `confirmed` the answer to the confirmation
     * dialog (asked only once the password passes). It returns the patient
     * record the form builds, if any.
     */
    method HandleRegister(patients: seq<Patient>, confirmed: bool) returns (created: Option<Patient>)
      modifies this
      ensures !PasswordRule(old(password)) ==>
        && created.None? && error == PasswordError
        && name == old(name) && email == old(email) && password == old(password)
        && showPassword == old(showPassword)
      ensures PasswordRule(old(password)) && !confirmed ==>
        && created.None? && error == ""
        && name == old(name) && email == old(email) && password == old(password)
        && showPassword == old(showPassword)
      ensures PasswordRule(old(password)) && confirmed ==>
        && created == Some(NewPatient(patients, old(name), old(email), old(password)))
        && name == "" && email == "" && password == "" && !showPassword && error == ""
    {
      error := "";
      PatternIsRule(password);
      if !PatternTest(password) {
        error := PasswordError;
        return None;
      }
      if !confirmed {
        return None;
      }
      created := Some(NewPatient(patients, name, email, password));
      ResetForm();
    }
  }
}
