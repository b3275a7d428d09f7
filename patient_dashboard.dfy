/**
 * The patient's dashboard (PatientDashboard.jsx): counts of the patient's
 * appointments by status, the chart entries of the non-zero counts, the
 * Confirm / Declined appointments as notifications sorted by date, and pages
 * of five notifications.
 */
module PatientDashboard {
  import opened Common
  import opened Sorting
  import Paging

  const ItemsPerPage: nat := 5

  /** The `stats` object; `confirmed` counts the status "Confirm". */
  datatype Stats = Stats(pending: nat, confirmed: nat, declined: nat, cancelled: nat)

  /** `myAppointments`: the records of patient `email`, as stored. */
  function MyAppointments(all: seq<Appointment>, email: string): (r: seq<Appointment>)
    ensures forall a :: a in r <==> a in all && a.patientEmail == email
    ensures Subsequence(r, all)
    ensures forall a :: multiset(r)[a] == if a.patientEmail == email then multiset(all)[a] else 0
  {
    var p := (a: Appointment) => a.patientEmail == email;
    forall a ensures a in Filter(all, p) <==> a in all && p(a) {
      FilterMembership(all, p, a);
    }
    FilterMultiset(all, p);
    Filter(all, p)
  }

  /** The four counts, each of the records with exactly that status string. */
  function ComputeStats(mine: seq<Appointment>): (st: Stats)
    ensures st.pending == CountStatus(mine, "Pending")
    ensures st.confirmed == CountStatus(mine, "Confirm")
    ensures st.declined == CountStatus(mine, "Declined")
    ensures st.cancelled == CountStatus(mine, "Cancelled")
    ensures st.pending + st.confirmed + st.declined + st.cancelled <= |mine|
  {
    FourCountsAtMost(mine);
    Stats(CountStatus(mine, "Pending"), CountStatus(mine, "Confirm"),
          CountStatus(mine, "Declined"), CountStatus(mine, "Cancelled"))
  }

  /** `Object.entries(stats)`: the keys in the order the object literal lists them. */
  function StatEntries(st: Stats): seq<Stat>
  {
    [Stat("pending", st.pending), Stat("confirmed", st.confirmed),
     Stat("declined", st.declined), Stat("cancelled", st.cancelled)]
  }

  /** `key.charAt(0).toUpperCase() + key.slice(1)`. */
  function Capitalize(key: string): (r: string)
    ensures |r| == |key|
    ensures key != [] ==> r[0] == UpperChar(key[0]) && r[1..] == key[1..]
  {
    if key == [] then [] else [UpperChar(key[0])] + key[1..]
  }

  /** The chart entries, each renamed by Capitalize, values and order kept. */
  function CapitalizeNames(entries: seq<Stat>): (r: seq<Stat>)
    ensures |r| == |entries|
    ensures forall i :: 0 <= i < |r| ==> r[i] == Stat(Capitalize(entries[i].name), entries[i].value)
  {
    if entries == [] then [] else [Stat(Capitalize(entries[0].name), entries[0].value)] + CapitalizeNames(entries[1..])
  }

  /** `chartData`: the non-zero counts, their keys capitalized. */
  function ChartData(st: Stats): seq<Stat>
  {
    CapitalizeNames(PositiveStats(StatEntries(st)))
  }

  /** An entry of `es` reaches the chart, renamed, exactly when its value is positive. */
  lemma ChartKeepsPositive(es: seq<Stat>, key: string, v: nat)
    requires Stat(key, v) in es
    ensures Stat(Capitalize(key), v) in CapitalizeNames(PositiveStats(es)) <==> v > 0
  {
    var pos := PositiveStats(es);
    var r := CapitalizeNames(pos);
    if v > 0 {
      var i :| 0 <= i < |pos| && pos[i] == Stat(key, v);
      assert r[i] == Stat(Capitalize(key), v);
    }
    if Stat(Capitalize(key), v) in r {
      var i :| 0 <= i < |r| && r[i] == Stat(Capitalize(key), v);
      assert pos[i] in pos;
    }
  }

  /** Every chart entry is positive and is a capitalized entry of `es`. */
  lemma ChartEntryFrom(es: seq<Stat>, e: Stat)
    requires e in CapitalizeNames(PositiveStats(es))
    ensures e.value > 0
    ensures exists k :: 0 <= k < |es| && e == Stat(Capitalize(es[k].name), es[k].value)
  {
    var pos := PositiveStats(es);
    var r := CapitalizeNames(pos);
    var i :| 0 <= i < |r| && r[i] == e;
    assert pos[i] in pos;
    var k :| 0 <= k < |es| && es[k] == pos[i];
  }

  /** Capitalize upper-cases the first letter of a lower-case word and keeps the rest. */
  lemma CapitalizeWord(w: string, c: char, rest: string, cap: string)
    requires w == [c] + rest && 'a' <= c <= 'z' && cap == [(c as int - 32) as char] + rest
    ensures Capitalize(w) == cap
  {
    assert w[1..] == rest;
  }

  /** The four stat keys read as the chart's labels. */
  lemma CapitalizedKeys()
    ensures Capitalize("pending") == "Pending" && Capitalize("confirmed") == "Confirmed"
    ensures Capitalize("declined") == "Declined" && Capitalize("cancelled") == "Cancelled"
  {
    CapitalizeWord("pending", 'p', "ending", "Pending");
    CapitalizeWord("confirmed", 'c', "onfirmed", "Confirmed");
    CapitalizeWord("declined", 'd', "eclined", "Declined");
    CapitalizeWord("cancelled", 'c', "ancelled", "Cancelled");
  }

  /**
   * The chart has an entry exactly for each non-zero count, named by its
   * capitalized key and valued by the count; a zero count has none.
   */
  lemma ChartDataEntries(st: Stats)
    ensures st.pending > 0 <==> Stat("Pending", st.pending) in ChartData(st)
    ensures st.confirmed > 0 <==> Stat("Confirmed", st.confirmed) in ChartData(st)
    ensures st.declined > 0 <==> Stat("Declined", st.declined) in ChartData(st)
    ensures st.cancelled > 0 <==> Stat("Cancelled", st.cancelled) in ChartData(st)
  {
    var es := StatEntries(st);
    CapitalizedKeys();
    ChartKeepsPositive(es, "pending", st.pending);
    ChartKeepsPositive(es, "confirmed", st.confirmed);
    ChartKeepsPositive(es, "declined", st.declined);
    ChartKeepsPositive(es, "cancelled", st.cancelled);
  }

  /** `notifications`: the Confirm and Declined records, oldest date first. */
  function Notifications(mine: seq<Appointment>): (r: seq<Appointment>)
    ensures Sorted(r, DateOf, true)
    ensures forall a :: a in r <==> a in mine && (a.status == "Confirm" || a.status == "Declined")
    ensures forall a :: multiset(r)[a] == if a.status == "Confirm" || a.status == "Declined" then multiset(mine)[a] else 0
  {
    var p := (a: Appointment) => a.status == "Confirm" || a.status == "Declined";
    var r := SortByDate(Filter(mine, p), DateOf, true);
    FilterMultiset(mine, p);
    forall a ensures a in r <==> a in mine && p(a) {
      assert a in r <==> a in multiset(r);
      FilterMembership(mine, p, a);
    }
    r
  }

  class PatientHome {
    var patient: Option<Patient>
    var appointments: seq<Appointment>
    var stats: Stats
    var currentPage: int

    function TotalPages(): nat
      reads this
    {
      Paging.TotalPages(|Notifications(appointments)|, ItemsPerPage)
    }

    /** The notifications of the current page. */
    function PageNotifications(): (r: seq<Appointment>)
      reads this
      ensures |r| <= ItemsPerPage
    {
      Paging.Page(Notifications(appointments), currentPage, ItemsPerPage)
    }

    ghost predicate Valid()
      reads this
    {
      1 <= currentPage && (currentPage == 1 || currentPage <= TotalPages())
    }

    /** Mount: without a stored user email every count stays 0 and nothing is loaded. */
    constructor (patients: seq<Patient>, all: seq<Appointment>, userEmail: Option<string>)
      ensures Valid() && currentPage == 1
      ensures userEmail.None? || userEmail.value == "" ==>
        patient.None? && appointments == [] && stats == Stats(0, 0, 0, 0)
      ensures userEmail.Some? && userEmail.value != "" ==>
        && patient == FindPatient(patients, userEmail.value)
        && appointments == MyAppointments(all, userEmail.value)
        && stats == ComputeStats(appointments)
    {
      if userEmail.None? || userEmail.value == "" {
        patient, appointments, stats := None, [], Stats(0, 0, 0, 0);
      } else {
        var mine := MyAppointments(all, userEmail.value);
        patient := FindPatient(patients, userEmail.value);
        appointments := mine;
        stats := ComputeStats(mine);
      }
      currentPage := 1;
    }

    /** `handlePrevPage`, drawn only when there is more than one page. */
    method HandlePrevPage()
      requires Valid() && TotalPages() > 1
      modifies this`currentPage
      ensures Valid()
      ensures currentPage == Paging.PrevPage(old(currentPage))
      ensures 1 <= currentPage <= TotalPages()
    {
      currentPage := Paging.PrevPage(currentPage);
    }

    /** `handleNextPage`, drawn only when there is more than one page. */
    method HandleNextPage()
      requires Valid() && TotalPages() > 1
      modifies this`currentPage
      ensures Valid()
      ensures currentPage == Paging.NextPage(old(currentPage), TotalPages())
      ensures 1 <= currentPage <= TotalPages()
    {
      currentPage := Paging.NextPage(currentPage, TotalPages());
    }
  }
}
