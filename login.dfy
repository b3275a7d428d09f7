/**
 * The sign-in form (src/pages/auth/Login.jsx): the length check, the
 * credential lookup (doctors before patients) and the role and email the
 * form stores in the browser.
 */
module Login {
  import opened Common

  /** `doctors.find(d => d.email === email && d.password === password)`. */
  function FindDoctorLogin(doctors: seq<Doctor>, email: string, password: string): (r: Option<Doctor>)
    ensures r.Some? ==> r.value in doctors && r.value.email == email && r.value.password == password
    ensures r.None? <==> forall d :: d in doctors ==> !(d.email == email && d.password == password)
  {
    match FindIndex(doctors, (d: Doctor) => d.email == email && d.password == password)
    case Some(i) => Some(doctors[i])
    case None => None
  }

  /** `patients.find(p => p.email === email && p.password === password)`. */
  function FindPatientLogin(patients: seq<Patient>, email: string, password: string): (r: Option<Patient>)
    ensures r.Some? ==> r.value in patients && r.value.email == email && r.value.password == password
    ensures r.None? <==> forall p :: p in patients ==> !(p.email == email && p.password == password)
  {
    match FindIndex(patients, (p: Patient) => p.email == email && p.password == password)
    case Some(i) => Some(patients[i])
    case None => None
  }

  /**
   * `s.length` of a JavaScript string: the number of UTF-16 code units, one
   * per character up to U+FFFF and two (a surrogate pair) per character beyond.
   */
  function Utf16Length(s: string): (n: nat)
    ensures |s| <= n <= 2 * |s|
    ensures (forall i :: 0 <= i < |s| ==> s[i] as int <= 0xFFFF) ==> n == |s|
  {
    if s == [] then 0 else (if s[0] as int > 0xFFFF then 2 else 1) + Utf16Length(s[1..])
  }

  /** Three characters beyond U+FFFF are six code units: long enough for the check. */
  lemma ThreeEmojiPasswordIsLongEnough(doctors: seq<Doctor>, patients: seq<Patient>, email: string)
    ensures |"\U{1F600}\U{1F600}\U{1F600}"| == 3
    ensures !Attempt(doctors, patients, email, "\U{1F600}\U{1F600}\U{1F600}").TooShort?
  {
    var pw := "\U{1F600}\U{1F600}\U{1F600}";
    assert Utf16Length(pw[2..]) == 2;
    assert Utf16Length(pw[1..]) == 4;
  }

  /** What one sign-in attempt comes to. */
  datatype Outcome =
    | TooShort
    | SignedIn(role: string, email: string)
    | Invalid

  const ShortPasswordError := "Password must be at least 6 characters"
  const InvalidError := "Invalid email or password"

  /**
   * The outcome of signing in with `email` and `password`: a password of
   * fewer than six UTF-16 code units is refused before any lookup; a doctor with both credentials
   * wins over a patient with them; otherwise the attempt is invalid.
   */
  function Attempt(doctors: seq<Doctor>, patients: seq<Patient>, email: string, password: string): (r: Outcome)
    ensures r.TooShort? <==> Utf16Length(password) < 6
    ensures r == SignedIn("doctor", email) <==>
      Utf16Length(password) >= 6 && exists d :: d in doctors && d.email == email && d.password == password
    ensures r == SignedIn("patient", email) <==>
      && Utf16Length(password) >= 6
      && (forall d :: d in doctors ==> !(d.email == email && d.password == password))
      && exists p :: p in patients && p.email == email && p.password == password
    ensures r.SignedIn? ==> r.email == email && (r.role == "doctor" || r.role == "patient")
    ensures r.Invalid? <==>
      && Utf16Length(password) >= 6
      && (forall d :: d in doctors ==> !(d.email == email && d.password == password))
      && (forall p :: p in patients ==> !(p.email == email && p.password == password))
  {
    if Utf16Length(password) < 6 then TooShort
    else match FindDoctorLogin(doctors, email, password)
      case Some(d) => SignedIn("doctor", d.email)
      case None =>
        match FindPatientLogin(patients, email, password)
        case Some(p) => SignedIn("patient", p.email)
        case None => Invalid
  }

  class LoginForm {
    var email: string
    var password: string
    var showPassword: bool
    var error: string
    /** `localStorage` entries `userRole` and `userEmail`. */
    var userRole: Option<string>
    var userEmail: Option<string>

    /** The form as it first renders over whatever the browser has stored. */
    constructor (storedRole: Option<string>, storedEmail: Option<string>)
      ensures email == "" && password == "" && !showPassword && error == ""
      ensures userRole == storedRole && userEmail == storedEmail
    {
      email, password, showPassword, error := "", "", false, "";
      userRole, userEmail := storedRole, storedEmail;
    }

    /** The email input. */
    method SetEmail(e: string)
      modifies this`email
      ensures email == e
    {
      email := e;
    }

    /** The password input. */
    method SetPassword(p: string)
      modifies this`password
      ensures password == p
    {
      password := p;
    }

    /** The eye button next to the password. */
    method TogglePassword()
      modifies this`showPassword
      ensures showPassword == !old(showPassword)
    {
      showPassword := !showPassword;
    }

    /**
     * `handleLogin`: a successful attempt stores the role and the account's
     * email; a failed one shows its error and leaves the stored entries as
     * they were.
     */
    method HandleLogin(doctors: seq<Doctor>, patients: seq<Patient>)
      modifies this`error, this`userRole, this`userEmail
      ensures match Attempt(doctors, patients, email, password)
        case TooShort =>
          error == ShortPasswordError && userRole == old(userRole) && userEmail == old(userEmail)
        case SignedIn(role, e) =>
          error == "" && userRole == Some(role) && userEmail == Some(e)
        case Invalid =>
          error == InvalidError && userRole == old(userRole) && userEmail == old(userEmail)
    {
      error := "";
      if Utf16Length(password) < 6 {
        error := ShortPasswordError;
        return;
      }
      var doctor := FindDoctorLogin(doctors, email, password);
      if doctor.Some? {
        userRole := Some("doctor");
        userEmail := Some(doctor.value.email);
        return;
      }
      var patient := FindPatientLogin(patients, email, password);
      if patient.Some? {
        userRole := Some("patient");
        userEmail := Some(patient.value.email);
        return;
      }
      error := InvalidError;
    }
  }
}
