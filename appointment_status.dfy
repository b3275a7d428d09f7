/**
 * The doctor's appointment overview (AppointmentStatus.jsx): every
 * appointment of the logged-in doctor with a missing status read as
 * "Pending", a status tab and a search by patient name or date, pages of
 * five, and a Done / Upcoming timing column for confirmed rows.
 */
module AppointmentStatus {
  import opened Common
  import Paging

  const PerPage: nat := 5
  const UnknownPatient := "Unknown"

  /** The doctor's own appointments in stored order, each once, a missing status read as "Pending". */
  function DoctorAppointments(all: seq<Appointment>, email: string): (r: seq<Appointment>)
    ensures forall a :: a in r ==> a.doctorEmail == email && a.status != ""
    ensures forall a :: a in r ==> exists b :: b in all && b.doctorEmail == email && a == WithDefaultStatus(b)
    ensures forall b :: b in all && b.doctorEmail == email ==> WithDefaultStatus(b) in r
    ensures Subsequence(r, DefaultStatuses(all))
    ensures forall a :: multiset(r)[a] == if a.doctorEmail == email then multiset(DefaultStatuses(all))[a] else 0
  {
    LoadOwn(all, email, true)
  }

  /** `getPatientName`: the patient's name, or "Unknown". */
  function GetPatientName(patients: seq<Patient>, email: string): (r: string)
    ensures (forall p :: p in patients ==> p.email != email) ==> r == UnknownPatient
    ensures (exists p :: p in patients && p.email == email) ==>
              exists p :: p in patients && p.email == email && r == p.name
  {
    PatientName(patients, email, UnknownPatient)
  }

  /** A row is listed: its status fits the tab and the patient name or the date fits the search. */
  predicate Listed(patients: seq<Patient>, tab: string, search: string, a: Appointment)
  {
    TabMatch(tab, a) && MatchesSearch(GetPatientName(patients, a.patientEmail), a.date, search)
  }

  /** `filteredAppointments`: the listed rows, in list order. */
  function Filtered(xs: seq<Appointment>, patients: seq<Patient>, tab: string, search: string): (r: seq<Appointment>)
    ensures forall a :: a in r <==> a in xs && Listed(patients, tab, search, a)
    ensures Subsequence(r, xs)
    ensures forall a :: multiset(r)[a] == if Listed(patients, tab, search, a) then multiset(xs)[a] else 0
  {
    var p := (a: Appointment) => Listed(patients, tab, search, a);
    forall a ensures a in Filter(xs, p) <==> a in xs && p(a) {
      FilterMembership(xs, p, a);
    }
    FilterMultiset(xs, p);
    Filter(xs, p)
  }

  /**
   * The timing label of a row: `appDateTime` is `new Date(date + " " + time)`
   * (None when that string does not parse) and `now` the current instant,
   * both in the same unit. An unparsable date-time compares false, so it
   * reads "Upcoming".
   */
  function Timing(appDateTime: Option<int>, now: int): (r: string)
    ensures r == "Done" <==> appDateTime.Some? && appDateTime.value < now
    ensures r == "Upcoming" <==> !(appDateTime.Some? && appDateTime.value < now)
  {
    if appDateTime.Some? && appDateTime.value < now then "Done" else "Upcoming"
  }

  /** The Timing header is drawn on the "All" and "Confirm" tabs. */
  predicate TimingHeaderShown(tab: string)
  {
    tab == "All" || tab == "Confirm"
  }

  /**
   * The timing cell of a row: on the "Confirm" tab, or on "All" for a
   * "Confirm" row. A cell is drawn only under a drawn header, and only on
   * rows whose status is "Confirm" among the listed ones; on "All" the other
   * rows leave the column empty.
   */
  function TimingCellShown(tab: string, a: Appointment): (r: bool)
    ensures r ==> TimingHeaderShown(tab)
    ensures r && TabMatch(tab, a) ==> a.status == "Confirm"
    ensures TimingHeaderShown(tab) && a.status != "Confirm" && tab == "All" ==> !r
    ensures tab == "Confirm" || (tab == "All" && a.status == "Confirm") ==> r
  {
    (tab == "All" && a.status == "Confirm") || tab == "Confirm"
  }

  class StatusView {
    const patients: seq<Patient>
    var doctor: Option<Doctor>
    var appointments: seq<Appointment>
    var activeTab: string
    var search: string
    var currentPage: int

    function Shown(): seq<Appointment>
      reads this
    {
      Filtered(appointments, patients, activeTab, search)
    }

    function TotalPages(): nat
      reads this
    {
      Paging.TotalPages(|Shown()|, PerPage)
    }

    /** `filteredAppointments.slice(page * 5 - 5, page * 5)`. */
    function CurrentAppointments(): (r: seq<Appointment>)
      reads this
      ensures |r| <= PerPage
    {
      Paging.Page(Shown(), currentPage, PerPage)
    }

    /** The page buttons are drawn only when the list is longer than one page. */
    predicate PaginationShown()
      reads this
    {
      |Shown()| > PerPage
    }

    /**
     * The page is at least 1 and, past the first, in range (the search and
     * the tab both reset it); the tab is one of the status tabs.
     */
    ghost predicate Valid()
      reads this
    {
      && 1 <= currentPage
      && (currentPage == 1 || currentPage <= TotalPages())
      && activeTab in StatusTabs
    }

    /** Mount: nothing is loaded without a stored user email. */
    constructor (doctors: seq<Doctor>, patients: seq<Patient>, all: seq<Appointment>, userEmail: Option<string>)
      ensures Valid()
      ensures this.patients == patients && activeTab == "All" && search == "" && currentPage == 1
      ensures userEmail.None? || userEmail.value == "" ==> doctor.None? && appointments == []
      ensures userEmail.Some? && userEmail.value != "" ==>
        && doctor == FindDoctor(doctors, userEmail.value)
        && appointments == DoctorAppointments(all, userEmail.value)
    {
      this.patients := patients;
      activeTab, search, currentPage := "All", "", 1;
      if userEmail.None? || userEmail.value == "" {
        doctor, appointments := None, [];
      } else {
        doctor := FindDoctor(doctors, userEmail.value);
        appointments := DoctorAppointments(all, userEmail.value);
      }
    }

    /** The search box: a new search and back to page 1. */
    method SetSearch(s: string)
      requires Valid()
      modifies this`search, this`currentPage
      ensures Valid()
      ensures search == s && currentPage == 1
    {
      search := s;
      currentPage := 1;
    }

    /** The status select and the folder tabs: a new tab and back to page 1. */
    method SelectTab(tab: string)
      requires Valid() && tab in StatusTabs
      modifies this`activeTab, this`currentPage
      ensures Valid()
      ensures activeTab == tab && currentPage == 1
    {
      activeTab := tab;
      currentPage := 1;
    }

    /** Previous: `Math.max(p - 1, 1)`. */
    method PrevPage()
      requires Valid() && PaginationShown()
      modifies this`currentPage
      ensures Valid()
      ensures currentPage == Paging.PrevPage(old(currentPage))
      ensures 1 <= currentPage <= TotalPages()
    {
      currentPage := Paging.PrevPage(currentPage);
    }

    /** A numbered button, drawn for 1..totalPages. */
    method GoToPage(page: int)
      requires Valid() && PaginationShown() && 1 <= page <= TotalPages()
      modifies this`currentPage
      ensures Valid() && currentPage == page
    {
      currentPage := page;
    }

    /** Next: `Math.min(p + 1, totalPages)`. */
    method NextPage()
      requires Valid() && PaginationShown()
      modifies this`currentPage
      ensures Valid()
      ensures currentPage == Paging.NextPage(old(currentPage), TotalPages())
      ensures 1 <= currentPage <= TotalPages()
    {
      currentPage := Paging.NextPage(currentPage, TotalPages());
    }
  }
}
