/**
 * The patient's booking wizard (CreateAppointment.jsx): a fixed slot catalog
 * and holiday list, a three-stage form with guarded Next / Back, and a
 * submit that runs an ordered rule chain against the booking store kept in
 * the browser (`localStorage "appointments"`, a list separate from the
 * `hardcodedAppointments` the other views read) and appends a Pending
 * record when every rule passes and the patient confirms.
 */
module CreateAppointment {
  import opened Common

  /** The bookable times of day, hourly from 07:00 AM to 08:00 PM. */
  const TimeSlots: seq<string> := [
    "07:00 AM", "08:00 AM", "09:00 AM", "10:00 AM", "11:00 AM",
    "12:00 PM", "01:00 PM", "02:00 PM", "03:00 PM", "04:00 PM",
    "05:00 PM", "06:00 PM", "07:00 PM", "08:00 PM"
  ]

  /** Dates that cannot be booked. */
  const Holidays: seq<string> := ["2025-12-25", "2025-01-01"]

  /** A date that already holds this many bookings is full. */
  const MaxPerDate: nat := 5

  const MsgChooseDoctor := "Please select a specialization and doctor."
  const MsgChooseSlot := "Please select date and time."

  /** A record of the booking store; it carries no id. */
  datatype Booking = Booking(
    patientEmail: string, doctorEmail: string, date: string,
    time: string, notes: string, status: string)

  /** Why the rule chain turned a request down. */
  datatype Rejection = PastDate | Holiday | DateFull | SlotTaken

  function RejectionMessage(r: Rejection): string
  {
    match r
    case PastDate => "You cannot select a past date."
    case Holiday => "Selected date is a holiday. Please choose another date."
    case DateFull => "Maximum appointments reached for this date."
    case SlotTaken => "This time slot is already booked. Please choose another."
  }

  // ---------------------------------------------------------------------
  // The slot catalog

  /** Two decimal digits of `n` (0..99). */
  function TwoDigits(n: nat): string
    requires n < 100
  {
    [(('0' as int) + n / 10) as char, (('0' as int) + n % 10) as char]
  }

  /** The 12-hour label of the full hour `h` (0..23), as the picker writes it. */
  function HourLabel(h: nat): string
    requires h < 24
  {
    var h12 := if h == 0 then 12 else if h > 12 then h - 12 else h;
    TwoDigits(h12) + ":00 " + (if h < 12 then "AM" else "PM")
  }

  /** Reads back the hour (0..23) of a label written by HourLabel. */
  function LabelHour(s: string): int
    requires |s| == 8
  {
    var h12 := (s[0] as int - '0' as int) * 10 + (s[1] as int - '0' as int);
    if s[6] == 'P' then (if h12 == 12 then 12 else h12 + 12)
    else (if h12 == 12 then 0 else h12)
  }

  /** Every full hour has its own label: reading a label back gives its hour. */
  lemma HourLabelRoundTrip(h: nat)
    requires h < 24
    ensures |HourLabel(h)| == 8 && LabelHour(HourLabel(h)) == h
  {
    var h12 := if h == 0 then 12 else if h > 12 then h - 12 else h;
    var l := HourLabel(h);
    assert l[0] == (('0' as int) + h12 / 10) as char;
    assert l[1] == (('0' as int) + h12 % 10) as char;
    assert l[6] == (if h < 12 then 'A' else 'P');
  }

  /** The morning half of the catalog: the hours 7..12. */
  lemma MorningSlots()
    ensures forall i :: 0 <= i < 6 ==> TimeSlots[i] == HourLabel(7 + i)
  {
    assert HourLabel(7) == "07:00 AM";
    assert HourLabel(8) == "08:00 AM";
    assert HourLabel(9) == "09:00 AM";
    assert HourLabel(10) == "10:00 AM";
    assert HourLabel(11) == "11:00 AM";
    assert HourLabel(12) == "12:00 PM";
  }

  /** The afternoon half of the catalog: the hours 13..20. */
  lemma AfternoonSlots()
    ensures forall i :: 6 <= i < 14 ==> TimeSlots[i] == HourLabel(7 + i)
  {
    assert HourLabel(13) == "01:00 PM";
    assert HourLabel(14) == "02:00 PM";
    assert HourLabel(15) == "03:00 PM";
    assert HourLabel(16) == "04:00 PM";
    assert HourLabel(17) == "05:00 PM";
    assert HourLabel(18) == "06:00 PM";
    assert HourLabel(19) == "07:00 PM";
    assert HourLabel(20) == "08:00 PM";
  }

  /** The catalog is exactly the 14 full hours 7..20, in order. */
  lemma TimeSlotsAreTheHours7To20()
    ensures |TimeSlots| == 14
    ensures forall i :: 0 <= i < 14 ==> TimeSlots[i] == HourLabel(7 + i)
  {
    MorningSlots();
    AfternoonSlots();
  }

  /** No time is offered twice. */
  lemma TimeSlotsDistinct()
    ensures forall i, j :: 0 <= i < j < |TimeSlots| ==> TimeSlots[i] != TimeSlots[j]
  {
    TimeSlotsAreTheHours7To20();
    forall i, j | 0 <= i < j < |TimeSlots| ensures TimeSlots[i] != TimeSlots[j] {
      HourLabelRoundTrip(7 + i);
      HourLabelRoundTrip(7 + j);
    }
  }

  // ---------------------------------------------------------------------
  // The rule chain

  /** `appointments.filter(a => a.date === date)`: every stored booking on that date. */
  function OnDate(store: seq<Booking>, date: string): seq<Booking>
  {
    Filter(store, (b: Booking) => b.date == date)
  }

  /** Some stored booking, whatever its doctor or status, holds this date and time. */
  predicate SlotBooked(store: seq<Booking>, date: string, time: string)
  {
    exists i :: 0 <= i < |store| && store[i].date == date && store[i].time == time
  }

  /**
   * The submit rules in the order the source checks them; the first rule
   * that fails decides the outcome, None means the request passes.
   */
  function Validate(store: seq<Booking>, date: string, time: string, today: string): (r: Option<Rejection>)
    ensures r == Some(PastDate) <==> DateBefore(date, today)
    ensures r == Some(Holiday) <==> !DateBefore(date, today) && date in Holidays
    ensures r == Some(DateFull) <==>
      !DateBefore(date, today) && date !in Holidays && |OnDate(store, date)| >= MaxPerDate
    ensures r == Some(SlotTaken) <==>
      !DateBefore(date, today) && date !in Holidays && |OnDate(store, date)| < MaxPerDate
      && SlotBooked(store, date, time)
    ensures r == None <==>
      !DateBefore(date, today) && date !in Holidays && |OnDate(store, date)| < MaxPerDate
      && !SlotBooked(store, date, time)
  {
    var onDate := OnDate(store, date);
    if DateBefore(date, today) then Some(PastDate)
    else if date in Holidays then Some(Holiday)
    else if |onDate| >= MaxPerDate then Some(DateFull)
    else if Any(onDate, (b: Booking) => b.time == time) then
      assert SlotBooked(store, date, time) by {
        var k :| 0 <= k < |onDate| && onDate[k].time == time;
        var i :| 0 <= i < |store| && store[i] == onDate[k];
      }
      Some(SlotTaken)
    else
      assert !SlotBooked(store, date, time) by {
        forall i | 0 <= i < |store| && store[i].date == date ensures store[i].time != time {
          assert store[i] in onDate;
        }
      }
      None
  }

  /** Two stores holding the same (date, time) pairs, position by position. */
  ghost predicate SameSlots(s1: seq<Booking>, s2: seq<Booking>)
  {
    |s1| == |s2| && forall i :: 0 <= i < |s1| ==> s1[i].date == s2[i].date && s1[i].time == s2[i].time
  }

  lemma {:induction false} SameSlotsSameCount(s1: seq<Booking>, s2: seq<Booking>, date: string)
    requires SameSlots(s1, s2)
    ensures |OnDate(s1, date)| == |OnDate(s2, date)|
  {
    if s1 != [] {
      assert SameSlots(s1[1..], s2[1..]) by {
        forall i | 0 <= i < |s1| - 1 ensures s1[1..][i].date == s2[1..][i].date {
          assert s1[1..][i] == s1[i + 1] && s2[1..][i] == s2[i + 1];
        }
      }
      SameSlotsSameCount(s1[1..], s2[1..], date);
    }
  }

  /**
   * The capacity and slot rules are clinic-wide: they see only the date and
   * time of each stored booking, never its doctor, patient, notes or status.
   */
  lemma ValidateSeesOnlySlots(s1: seq<Booking>, s2: seq<Booking>, date: string, time: string, today: string)
    requires SameSlots(s1, s2)
    ensures Validate(s1, date, time, today) == Validate(s2, date, time, today)
  {
    SameSlotsSameCount(s1, s2, date);
    assert SlotBooked(s1, date, time) == SlotBooked(s2, date, time);
  }

  /**
   * On an open date, any stored booking blocks its slot, whatever its
   * doctor, patient or status.
   */
  lemma StoredBookingBlocks(store: seq<Booking>, i: nat, today: string)
    requires i < |store|
    requires !DateBefore(store[i].date, today) && store[i].date !in Holidays
    requires |OnDate(store, store[i].date)| < MaxPerDate
    ensures Validate(store, store[i].date, store[i].time, today) == Some(SlotTaken)
  {
    assert SlotBooked(store, store[i].date, store[i].time);
  }

  /** A cancelled booking of another doctor still blocks its slot. */
  lemma CancelledBookingStillBlocks()
    ensures Validate([Booking("p", "d", "2025-12-01", "09:00 AM", "", "Cancelled")],
                     "2025-12-01", "09:00 AM", "2025-11-01") == Some(SlotTaken)
  {
    var store := [Booking("p", "d", "2025-12-01", "09:00 AM", "", "Cancelled")];
    LexLeAt("2025-11-01", "2025-12-01", 6);
    assert "2025-12-01" != Holidays[0] by { assert "2025-12-01"[8] != Holidays[0][8]; }
    assert "2025-12-01" != Holidays[1] by { assert "2025-12-01"[5] != Holidays[1][5]; }
    StoredBookingBlocks(store, 0, "2025-11-01");
  }

  /** The store invariant the rules keep: no date over capacity, no slot booked twice. */
  ghost predicate WellBooked(store: seq<Booking>)
  {
    && (forall i :: 0 <= i < |store| ==> |OnDate(store, store[i].date)| <= MaxPerDate)
    && (forall i, j :: 0 <= i < j < |store| ==>
          !(store[i].date == store[j].date && store[i].time == store[j].time))
  }

  /** One more booking adds one to the count of its own date and to no other. */
  lemma OnDateAppend(store: seq<Booking>, b: Booking, d: string)
    ensures |OnDate(store + [b], d)| == |OnDate(store, d)| + (if b.date == d then 1 else 0)
  {
    FilterAppend(store, [b], (x: Booking) => x.date == d);
  }

  /** Appending a booking that passed the rules keeps the store invariant. */
  lemma AcceptedAppendKeepsWellBooked(store: seq<Booking>, b: Booking, today: string)
    requires WellBooked(store)
    requires Validate(store, b.date, b.time, today) == None
    ensures WellBooked(store + [b])
  {
    var s := store + [b];
    forall i | 0 <= i < |s| ensures |OnDate(s, s[i].date)| <= MaxPerDate {
      OnDateAppend(store, b, s[i].date);
      if i < |store| {
        assert s[i] == store[i];
      }
    }
    forall i, j | 0 <= i < j < |s| ensures !(s[i].date == s[j].date && s[i].time == s[j].time) {
      if j == |store| {
        assert s[i] == store[i] && s[j] == b;
      } else {
        assert s[i] == store[i] && s[j] == store[j];
      }
    }
  }

  // ---------------------------------------------------------------------
  // The wizard

  class BookingForm {
    const doctors: seq<Doctor>
    var stage: int
    var specialization: string
    var doctorEmail: string
    var date: string
    var time: string
    var notes: string
    var appointments: seq<Booking>
    var message: string

    /**
     * The stage stays in 1..3, a later stage is reached only with the
     * earlier stages' choices made, and the time is one the picker offers.
     */
    ghost predicate Valid()
      reads this
    {
      && 1 <= stage <= 3
      && (stage >= 2 ==> specialization != "" && doctorEmail != "")
      && (stage == 3 ==> date != "" && time != "")
      && (time == "" || time in TimeSlots)
    }

    /** Mount: stage 1, every field empty, the store read back from the browser. */
    constructor (doctors: seq<Doctor>, stored: seq<Booking>)
      ensures Valid()
      ensures this.doctors == doctors && appointments == stored
      ensures stage == 1 && specialization == "" && doctorEmail == "" && date == ""
      ensures time == "" && notes == "" && message == ""
    {
      this.doctors := doctors;
      stage := 1;
      specialization, doctorEmail, date, time, notes := "", "", "", "", "";
      appointments := stored;
      message := "";
    }

    /** The doctor cards offered: the doctors of the chosen specialization. */
    function FilteredDoctors(): (r: seq<Doctor>)
      reads this
      ensures forall d :: d in r <==> d in doctors && d.specialization == specialization
    {
      var s := specialization;
      Filter(doctors, (d: Doctor) => d.specialization == s)
    }

    /** The specialization picker (stage 1): a new specialization clears the chosen doctor. */
    method ChangeSpecialization(s: string)
      requires Valid() && stage == 1
      modifies this`specialization, this`doctorEmail
      ensures Valid()
      ensures specialization == s && doctorEmail == ""
    {
      specialization := s;
      doctorEmail := "";
    }

    /** A click on one of the offered doctor cards (stage 1). */
    method SelectDoctor(d: Doctor)
      requires Valid() && stage == 1 && d in FilteredDoctors()
      modifies this`doctorEmail
      ensures Valid()
      ensures doctorEmail == d.email
    {
      doctorEmail := d.email;
    }

    /** The date input (stage 2). */
    method SetDate(d: string)
      requires Valid() && stage == 2
      modifies this`date
      ensures Valid() && date == d
    {
      date := d;
    }

    /** The time picker (stage 2): the empty choice or one slot of the catalog. */
    method SetTime(t: string)
      requires Valid() && stage == 2
      requires t == "" || t in TimeSlots
      modifies this`time
      ensures Valid() && time == t
    {
      time := t;
    }

    /** The notes box (stage 3). */
    method SetNotes(n: string)
      requires Valid() && stage == 3
      modifies this`notes
      ensures Valid() && notes == n
    {
      notes := n;
    }

    /** The choices of the current stage are made. */
    predicate StageComplete()
      reads this
    {
      && (stage == 1 ==> specialization != "" && doctorEmail != "")
      && (stage == 2 ==> date != "" && time != "")
    }

    /** `handleNext`, offered on stages 1 and 2. */
    method Next()
      requires Valid() && (stage == 1 || stage == 2)
      modifies this`stage, this`message
      ensures Valid()
      ensures !old(StageComplete()) ==> stage == old(stage)
      ensures !old(StageComplete()) && old(stage) == 1 ==> message == MsgChooseDoctor
      ensures !old(StageComplete()) && old(stage) == 2 ==> message == MsgChooseSlot
      ensures old(StageComplete()) ==> stage == old(stage) + 1 && message == ""
    {
      if stage == 1 && (specialization == "" || doctorEmail == "") {
        message := MsgChooseDoctor;
        return;
      }
      if stage == 2 && (date == "" || time == "") {
        message := MsgChooseSlot;
        return;
      }
      message := "";
      stage := stage + 1;
    }

    /** `handleBack`, offered on stages 2 and 3: every field keeps its value. */
    method Back()
      requires Valid() && (stage == 2 || stage == 3)
      modifies this`stage, this`message
      ensures Valid()
      ensures stage == old(stage) - 1 && message == ""
    {
      message := "";
      stage := stage - 1;
    }

    /** The record a successful submit appends. */
    function NewBooking(patientEmail: string): (b: Booking)
      reads this
      ensures b.status == "Pending" && b.patientEmail == patientEmail
      ensures b.doctorEmail == doctorEmail && b.date == date && b.time == time && b.notes == notes
    {
      Booking(patientEmail, doctorEmail, date, time, notes, "Pending")
    }

    /**
     * `handleSubmit` on stage 3. `today` is the local date, `patientEmail`
     * the stored user email and `confirmed` the answer to the booking dialog.
     */
    method Submit(today: string, patientEmail: string, confirmed: bool)
      requires Valid() && stage == 3
      modifies this`stage, this`message, this`appointments, this`specialization,
               this`doctorEmail, this`date, this`time, this`notes
      ensures Valid()
      // a failed rule: its message, back to stage 2, nothing else changes
      ensures old(Validate(appointments, date, time, today)).Some? ==>
        && message == RejectionMessage(old(Validate(appointments, date, time, today)).value)
        && stage == 2
        && appointments == old(appointments)
        && specialization == old(specialization) && doctorEmail == old(doctorEmail)
        && date == old(date) && time == old(time) && notes == old(notes)
      // every rule passes and the patient confirms: one Pending record appended, form reset
      ensures old(Validate(appointments, date, time, today)).None? && confirmed ==>
        && appointments == old(appointments) + [old(NewBooking(patientEmail))]
        && stage == 1 && specialization == "" && doctorEmail == "" && date == ""
        && time == "" && notes == "" && message == ""
      // every rule passes and the patient declines: nothing changes
      ensures old(Validate(appointments, date, time, today)).None? && !confirmed ==>
        && appointments == old(appointments) && stage == old(stage) && message == old(message)
        && specialization == old(specialization) && doctorEmail == old(doctorEmail)
        && date == old(date) && time == old(time) && notes == old(notes)
      ensures WellBooked(old(appointments)) ==> WellBooked(appointments)
    {
      var rejection := Validate(appointments, date, time, today);
      if rejection.Some? {
        message := RejectionMessage(rejection.value);
        stage := 2;
        return;
      }
      if confirmed {
        var b := NewBooking(patientEmail);
        if WellBooked(appointments) {
          AcceptedAppendKeepsWellBooked(appointments, b, today);
        }
        appointments := appointments + [b];
        stage := 1;
        specialization, doctorEmail, date, time, notes := "", "", "", "", "";
        message := "";
      }
    }
  }
}
