/**
 * The patient's appointment list (AppointmentSchedule.jsx): the patient's own
 * appointments with a missing status read as "Pending", a status tab and a
 * search by doctor name or date, pages of three, Cancel on Pending rows and
 * Reschedule on Declined rows.
 */
module AppointmentSchedule {
  import opened Common
  import Paging

  const PerPage: nat := 3
  const UnknownDoctor := "Unknown Doctor"
  const CreatePath := "/patient/create"

  /** Where a confirmed reschedule goes, and the doctor email it carries along. */
  datatype Navigation = Navigation(path: string, doctorEmail: string)

  /** The patient's own appointments in stored order, each once, a missing status read as "Pending". */
  function PatientAppointments(all: seq<Appointment>, email: string): (r: seq<Appointment>)
    ensures forall a :: a in r ==> a.patientEmail == email && a.status != ""
    ensures forall a :: a in r ==> exists b :: b in all && b.patientEmail == email && a == WithDefaultStatus(b)
    ensures forall b :: b in all && b.patientEmail == email ==> WithDefaultStatus(b) in r
    ensures Subsequence(r, DefaultStatuses(all))
    ensures forall a :: multiset(r)[a] == if a.patientEmail == email then multiset(DefaultStatuses(all))[a] else 0
  {
    LoadOwn(all, email, false)
  }

  /** `getDoctorName`: the doctor's name, or "Unknown Doctor". */
  function GetDoctorName(doctors: seq<Doctor>, email: string): (r: string)
    ensures (forall d :: d in doctors ==> d.email != email) ==> r == UnknownDoctor
    ensures (exists d :: d in doctors && d.email == email) ==>
              exists d :: d in doctors && d.email == email && r == d.name
  {
    DoctorName(doctors, email, UnknownDoctor)
  }

  /** A row is listed: its status fits the tab and the doctor name or the date fits the search. */
  predicate Listed(doctors: seq<Doctor>, tab: string, search: string, a: Appointment)
  {
    TabMatch(tab, a) && MatchesSearch(GetDoctorName(doctors, a.doctorEmail), a.date, search)
  }

  /** `filteredAppointments`: the listed rows, in list order. */
  function Filtered(xs: seq<Appointment>, doctors: seq<Doctor>, tab: string, search: string): (r: seq<Appointment>)
    ensures forall a :: a in r <==> a in xs && Listed(doctors, tab, search, a)
    ensures Subsequence(r, xs)
    ensures forall a :: multiset(r)[a] == if Listed(doctors, tab, search, a) then multiset(xs)[a] else 0
  {
    var p := (a: Appointment) => Listed(doctors, tab, search, a);
    forall a ensures a in Filter(xs, p) <==> a in xs && p(a) {
      FilterMembership(xs, p, a);
    }
    FilterMultiset(xs, p);
    Filter(xs, p)
  }

  predicate CancelOffered(a: Appointment)
  {
    a.status == "Pending"
  }

  predicate RescheduleOffered(a: Appointment)
  {
    a.status == "Declined"
  }

  /**
   * `rescheduleAppointment(a)`; `confirmed` is the dialog's answer. It changes
   * no appointment: confirmed, it only goes to the booking page with the
   * record's doctor email; dismissed, it does nothing.
   */
  method Reschedule(a: Appointment, confirmed: bool) returns (nav: Option<Navigation>)
    ensures confirmed ==> nav == Some(Navigation(CreatePath, a.doctorEmail))
    ensures !confirmed ==> nav == None
  {
    nav := None;
    if confirmed {
      nav := Some(Navigation(CreatePath, a.doctorEmail));
    }
  }

  class ScheduleView {
    const doctors: seq<Doctor>
    var appointments: seq<Appointment>
    var activeTab: string
    var search: string
    var currentPage: int

    function Shown(): seq<Appointment>
      reads this
    {
      Filtered(appointments, doctors, activeTab, search)
    }

    function TotalPages(): nat
      reads this
    {
      Paging.TotalPages(|Shown()|, PerPage)
    }

    /** `filteredAppointments.slice(indexOfFirst, indexOfLast)`. */
    function CurrentAppointments(): (r: seq<Appointment>)
      reads this
      ensures |r| <= PerPage
    {
      Paging.Page(Shown(), currentPage, PerPage)
    }

    /** The page buttons are drawn only when the list is longer than one page. */
    predicate PaginationShown()
      reads this
    {
      |Shown()| > PerPage
    }

    /** The page is at least 1 and the tab is one of the status tabs. */
    ghost predicate Valid()
      reads this
    {
      1 <= currentPage && activeTab in StatusTabs
    }

    /** Mount: nothing is loaded without a stored user email. */
    constructor (doctors: seq<Doctor>, all: seq<Appointment>, userEmail: Option<string>)
      ensures Valid()
      ensures this.doctors == doctors && activeTab == "All" && search == "" && currentPage == 1
      ensures userEmail.None? || userEmail.value == "" ==> appointments == []
      ensures userEmail.Some? && userEmail.value != "" ==>
        appointments == PatientAppointments(all, userEmail.value)
    {
      this.doctors := doctors;
      activeTab, search, currentPage := "All", "", 1;
      if userEmail.None? || userEmail.value == "" {
        appointments := [];
      } else {
        appointments := PatientAppointments(all, userEmail.value);
      }
    }

    /**
     * `cancelAppointment(id)`; `confirmed` is the dialog's answer. Confirmed:
     * every record with that id becomes "Cancelled" and offers
     * neither action any more; every other record stays.
     */
    method Cancel(id: int, confirmed: bool)
      requires Valid()
      modifies this`appointments
      ensures Valid()
      ensures confirmed ==> appointments == SetStatus(old(appointments), id, "Cancelled")
      ensures !confirmed ==> appointments == old(appointments)
      ensures confirmed ==> forall i :: 0 <= i < |appointments| && appointments[i].id == id ==>
                !CancelOffered(appointments[i]) && !RescheduleOffered(appointments[i])
    {
      if confirmed {
        appointments := SetStatus(appointments, id, "Cancelled");
      }
    }

    /** The search box; the page is kept as it is. */
    method SetSearch(s: string)
      requires Valid()
      modifies this`search
      ensures Valid() && search == s
    {
      search := s;
    }

    /** The status select and the folder tabs: a new tab and back to page 1. */
    method SelectTab(tab: string)
      requires Valid() && tab in StatusTabs
      modifies this`activeTab, this`currentPage
      ensures Valid()
      ensures activeTab == tab && currentPage == 1
    {
      activeTab := tab;
      currentPage := 1;
    }

    /** Previous: `Math.max(p - 1, 1)`. */
    method PrevPage()
      requires Valid() && PaginationShown()
      modifies this`currentPage
      ensures Valid()
      ensures currentPage == Paging.PrevPage(old(currentPage))
      ensures old(currentPage) <= TotalPages() ==> currentPage <= TotalPages()
    {
      currentPage := Paging.PrevPage(currentPage);
    }

    /** A numbered button, drawn for 1..totalPages. */
    method GoToPage(page: int)
      requires Valid() && PaginationShown() && 1 <= page <= TotalPages()
      modifies this`currentPage
      ensures Valid() && currentPage == page
    {
      currentPage := page;
    }

    /** Next: `Math.min(p + 1, totalPages)`; it always lands inside 1..totalPages. */
    method NextPage()
      requires Valid() && PaginationShown()
      modifies this`currentPage
      ensures Valid()
      ensures currentPage == Paging.NextPage(old(currentPage), TotalPages())
      ensures 1 <= currentPage <= TotalPages()
    {
      currentPage := Paging.NextPage(currentPage, TotalPages());
    }
  }
}
