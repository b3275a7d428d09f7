/**
 * The doctor's dashboard (DoctorDashboard.jsx): per-status counts of the
 * doctor's appointments, a tally of the diagnoses the doctor wrote in the
 * patient histories, the Pending appointments as notifications sorted by
 * date, and pages of five notifications.
 */
module DoctorDashboard {
  import opened Common
  import opened Sorting
  import Paging

  const ItemsPerPage: nat := 5

  /** The status names the counters test, in chart order. */
  const CountedStatuses: seq<string> := ["Pending", "Confirm", "Declined", "Cancelled"]

  /** `myAppointments`: the records of doctor `email`, as stored (no status default). */
  function MyAppointments(all: seq<Appointment>, email: string): (r: seq<Appointment>)
    ensures forall a :: a in r <==> a in all && a.doctorEmail == email
    ensures Subsequence(r, all)
    ensures forall a :: multiset(r)[a] == if a.doctorEmail == email then multiset(all)[a] else 0
  {
    var p := (a: Appointment) => a.doctorEmail == email;
    forall a ensures a in Filter(all, p) <==> a in all && p(a) {
      FilterMembership(all, p, a);
    }
    FilterMultiset(all, p);
    Filter(all, p)
  }

  /** `statusStats`: one entry per counted status, valued by the records with exactly that status. */
  function StatusStats(mine: seq<Appointment>): (r: seq<Stat>)
    ensures |r| == |CountedStatuses|
    ensures forall i :: 0 <= i < |r| ==>
      r[i].name == CountedStatuses[i] && r[i].value == CountStatus(mine, CountedStatuses[i])
  {
    [Stat("Pending", CountStatus(mine, "Pending")),
     Stat("Confirm", CountStatus(mine, "Confirm")),
     Stat("Declined", CountStatus(mine, "Declined")),
     Stat("Cancelled", CountStatus(mine, "Cancelled"))]
  }

  function SumValues(stats: seq<Stat>): nat
  {
    if stats == [] then 0 else stats[0].value + SumValues(stats[1..])
  }

  /** The chart total of `statusStats` is at most the number of the doctor's records. */
  lemma StatusStatsTotal(mine: seq<Appointment>)
    ensures SumValues(StatusStats(mine)) <= |mine|
  {
    FourCountsAtMost(mine);
    var r := StatusStats(mine);
    assert SumValues([r[3]]) == r[3].value by { assert [r[3]][1..] == []; }
    assert SumValues([r[2], r[3]]) == r[2].value + r[3].value by { assert [r[2], r[3]][1..] == [r[3]]; }
    assert SumValues([r[1], r[2], r[3]]) == r[1].value + r[2].value + r[3].value by {
      assert [r[1], r[2], r[3]][1..] == [r[2], r[3]];
    }
    assert r[1..] == [r[1], r[2], r[3]];
  }

  // ---------------------------------------------------------------------
  // The diagnosis tally

  /** The diagnoses of the records of `recs` written by `email`, in order. */
  function RecordDiagnoses(recs: seq<MedicalRecord>, email: string): seq<string>
  {
    if recs == [] then []
    else RecordDiagnoses(recs[..|recs| - 1], email)
         + (if recs[|recs| - 1].doctorEmail == email then [recs[|recs| - 1].diagnosis] else [])
  }

  /** The diagnoses written by `email`, history entry by history entry. */
  function DoctorDiagnoses(hs: seq<HistoryEntry>, email: string): seq<string>
  {
    if hs == [] then []
    else DoctorDiagnoses(hs[..|hs| - 1], email) + RecordDiagnoses(hs[|hs| - 1].records, email)
  }

  /**
   * `diagMap[d] = (diagMap[d] || 0) + 1` on a dictionary kept in insertion
   * order: the entry of `d` gains one, or `d` is added at the end with 1.
   */
  function Bump(t: seq<Stat>, d: string): (r: seq<Stat>)
  {
    match FindIndex(t, (s: Stat) => s.name == d)
    case Some(i) => t[i := Stat(d, t[i].value + 1)]
    case None => t + [Stat(d, 1)]
  }

  /** `Object.entries(diagMap)` after bumping every diagnosis of `ds` in turn. */
  function TallyOf(ds: seq<string>): seq<Stat>
  {
    if ds == [] then [] else Bump(TallyOf(ds[..|ds| - 1]), ds[|ds| - 1])
  }

  /** The value of the first entry named `k`, 0 when there is none (`diagMap[k] || 0`). */
  function Lookup(t: seq<Stat>, k: string): (v: nat)
    ensures v > 0 ==> exists i :: 0 <= i < |t| && t[i].name == k
  {
    match FindIndex(t, (s: Stat) => s.name == k)
    case Some(i) => t[i].value
    case None => 0
  }

  /** The nested forEach loops: the tally of the diagnoses `email` wrote. */
  method DiagnosisTally(histories: seq<HistoryEntry>, email: string) returns (data: seq<Stat>)
    ensures data == TallyOf(DoctorDiagnoses(histories, email))
  {
    data := [];
    var i := 0;
    while i < |histories|
      invariant 0 <= i <= |histories|
      invariant data == TallyOf(DoctorDiagnoses(histories[..i], email))
    {
      var recs := histories[i].records;
      ghost var before := DoctorDiagnoses(histories[..i], email);
      var j := 0;
      assert before + RecordDiagnoses(recs[..0], email) == before;
      while j < |recs|
        invariant 0 <= j <= |recs|
        invariant data == TallyOf(before + RecordDiagnoses(recs[..j], email))
      {
        ghost var ds := before + RecordDiagnoses(recs[..j], email);
        RecordDiagnosesStep(recs, j, email);
        if recs[j].doctorEmail == email {
          TallyOfSnoc(ds, recs[j].diagnosis);
          assert before + RecordDiagnoses(recs[..j + 1], email) == ds + [recs[j].diagnosis];
          data := Bump(data, recs[j].diagnosis);
        } else {
          assert before + RecordDiagnoses(recs[..j + 1], email) == ds;
        }
        j := j + 1;
      }
      assert recs[..j] == recs;
      DoctorDiagnosesStep(histories, i, email);
      i := i + 1;
    }
    assert histories[..i] == histories;
  }

  lemma RecordDiagnosesStep(recs: seq<MedicalRecord>, j: nat, email: string)
    requires j < |recs|
    ensures RecordDiagnoses(recs[..j + 1], email) ==
      RecordDiagnoses(recs[..j], email) + (if recs[j].doctorEmail == email then [recs[j].diagnosis] else [])
  {
    assert recs[..j + 1][..j] == recs[..j];
  }

  lemma DoctorDiagnosesStep(hs: seq<HistoryEntry>, i: nat, email: string)
    requires i < |hs|
    ensures DoctorDiagnoses(hs[..i + 1], email) == DoctorDiagnoses(hs[..i], email) + RecordDiagnoses(hs[i].records, email)
  {
    assert hs[..i + 1][..i] == hs[..i];
  }

  lemma TallyOfSnoc(ds: seq<string>, d: string)
    ensures TallyOf(ds + [d]) == Bump(TallyOf(ds), d)
  {
    assert (ds + [d])[..|ds|] == ds;
  }

  /** Bumping `d` adds one to the value of `d` and leaves every other key's value alone. */
  lemma BumpLookup(t: seq<Stat>, d: string, k: string)
    ensures Lookup(Bump(t, d), k) == Lookup(t, k) + (if d == k then 1 else 0)
  {
    var r := Bump(t, d);
    var pd := (s: Stat) => s.name == d;
    var pk := (s: Stat) => s.name == k;
    match FindIndex(t, pd)
    case Some(i) =>
      forall j | 0 <= j < |t| ensures pk(r[j]) == pk(t[j]) {
      }
      FindIndexSame(t, r, pk);
    case None =>
      FindIndexExtended(t, r, pk);
  }

  /** The tally's value for each diagnosis is the number of its occurrences. */
  lemma {:induction false} TallyCounts(ds: seq<string>, k: string)
    ensures Lookup(TallyOf(ds), k) == multiset(ds)[k]
  {
    if ds != [] {
      var init := ds[..|ds| - 1];
      assert ds == init + [ds[|ds| - 1]];
      TallyCounts(init, k);
      BumpLookup(TallyOf(init), ds[|ds| - 1], k);
    }
  }

  predicate DistinctNames(t: seq<Stat>)
  {
    forall i, j :: 0 <= i < j < |t| ==> t[i].name != t[j].name
  }

  /** The names of the tally are exactly the diagnoses. */
  lemma {:induction false} TallyNames(ds: seq<string>)
    ensures forall k :: (exists i :: 0 <= i < |TallyOf(ds)| && TallyOf(ds)[i].name == k) <==> k in ds
  {
    if ds != [] {
      var init := ds[..|ds| - 1];
      var d := ds[|ds| - 1];
      assert ds == init + [d];
      TallyNames(init);
      var t := TallyOf(init);
      var r := Bump(t, d);
      assert TallyOf(ds) == r;
      match FindIndex(t, (s: Stat) => s.name == d)
      case Some(i) =>
        assert forall j :: 0 <= j < |t| ==> r[j].name == t[j].name;
        assert d in init;
      case None =>
        assert r == t + [Stat(d, 1)];
        forall k ensures (exists i :: 0 <= i < |r| && r[i].name == k) <==> k in ds {
          assert k in ds <==> k in init || k == d;
          if k in init {
            var i :| 0 <= i < |t| && t[i].name == k;
            assert r[i] == t[i];
          }
          if exists i :: 0 <= i < |r| && r[i].name == k {
            var i :| 0 <= i < |r| && r[i].name == k;
            if i < |t| {
              assert r[i] == t[i];
              assert k in init;
            } else {
              assert r[i] == Stat(d, 1);
            }
          }
          if k == d {
            assert r[|t|].name == k;
          }
        }
    }
  }

  /** Every entry is positive, no name repeats, and the names are exactly the diagnoses. */
  lemma {:induction false} TallyShape(ds: seq<string>)
    ensures DistinctNames(TallyOf(ds))
    ensures forall i :: 0 <= i < |TallyOf(ds)| ==> TallyOf(ds)[i].value > 0
    ensures forall k :: (exists i :: 0 <= i < |TallyOf(ds)| && TallyOf(ds)[i].name == k) <==> k in ds
  {
    TallyNames(ds);
    if ds != [] {
      var init := ds[..|ds| - 1];
      var d := ds[|ds| - 1];
      TallyShape(init);
      var t := TallyOf(init);
      match FindIndex(t, (s: Stat) => s.name == d)
      case Some(i) =>
      case None =>
    }
  }

  /** The values add up to the diagnoses counted. */
  lemma {:induction false} TallySum(ds: seq<string>)
    ensures SumValues(TallyOf(ds)) == |ds|
  {
    if ds != [] {
      var init := ds[..|ds| - 1];
      var d := ds[|ds| - 1];
      TallySum(init);
      var t := TallyOf(init);
      match FindIndex(t, (s: Stat) => s.name == d)
      case Some(i) =>
        SumUpdate(t, i, Stat(d, t[i].value + 1));
      case None =>
        SumAppend(t, Stat(d, 1));
    }
  }

  lemma {:induction false} SumUpdate(t: seq<Stat>, i: nat, s: Stat)
    requires i < |t|
    ensures SumValues(t[i := s]) == SumValues(t) - t[i].value + s.value
  {
    if i > 0 {
      assert t[i := s][1..] == t[1..][i - 1 := s];
      SumUpdate(t[1..], i - 1, s);
    }
  }

  lemma {:induction false} SumAppend(t: seq<Stat>, s: Stat)
    ensures SumValues(t + [s]) == SumValues(t) + s.value
  {
    if t != [] {
      assert (t + [s])[1..] == t[1..] + [s];
      SumAppend(t[1..], s);
    }
  }

  /**
   * The dashboard's tally: each diagnosis `email` wrote appears once, with
   * the number of records carrying it, and the values add up to those records.
   */
  lemma DiagnosisTallyMeaning(histories: seq<HistoryEntry>, email: string, k: string)
    ensures Lookup(TallyOf(DoctorDiagnoses(histories, email)), k) == multiset(DoctorDiagnoses(histories, email))[k]
    ensures DistinctNames(TallyOf(DoctorDiagnoses(histories, email)))
    ensures SumValues(TallyOf(DoctorDiagnoses(histories, email))) == |DoctorDiagnoses(histories, email)|
  {
    TallyCounts(DoctorDiagnoses(histories, email), k);
    TallyShape(DoctorDiagnoses(histories, email));
    TallySum(DoctorDiagnoses(histories, email));
  }

  /** A diagnosis in the tally was written by `email` in some history record. */
  lemma {:induction false} DoctorDiagnosesSound(hs: seq<HistoryEntry>, email: string, k: string)
    requires k in DoctorDiagnoses(hs, email)
    ensures exists e, r :: e in hs && r in e.records && r.doctorEmail == email && r.diagnosis == k
  {
    var init := hs[..|hs| - 1];
    var e := hs[|hs| - 1];
    if k in DoctorDiagnoses(init, email) {
      DoctorDiagnosesSound(init, email, k);
      var e', r :| e' in init && r in e'.records && r.doctorEmail == email && r.diagnosis == k;
      assert e' in hs;
    } else {
      RecordDiagnosesSound(e.records, email, k);
    }
  }

  lemma {:induction false} RecordDiagnosesSound(recs: seq<MedicalRecord>, email: string, k: string)
    requires k in RecordDiagnoses(recs, email)
    ensures exists r :: r in recs && r.doctorEmail == email && r.diagnosis == k
  {
    var init := recs[..|recs| - 1];
    if k in RecordDiagnoses(init, email) {
      RecordDiagnosesSound(init, email, k);
      var r :| r in init && r.doctorEmail == email && r.diagnosis == k;
      assert r in recs;
    } else {
      assert recs[|recs| - 1] in recs;
    }
  }

  // ---------------------------------------------------------------------
  // Notifications

  /** `notifications`: the records with status exactly "Pending", oldest date first. */
  function Notifications(mine: seq<Appointment>): (r: seq<Appointment>)
    ensures Sorted(r, DateOf, true)
    ensures forall a :: a in r <==> a in mine && a.status == "Pending"
    ensures |r| == CountStatus(mine, "Pending")
    ensures forall a :: multiset(r)[a] == if a.status == "Pending" then multiset(mine)[a] else 0
  {
    var p := (a: Appointment) => a.status == "Pending";
    var r := SortByDate(Filter(mine, p), DateOf, true);
    FilterMultiset(mine, p);
    forall a ensures a in r <==> a in mine && p(a) {
      assert a in r <==> a in multiset(r);
      FilterMembership(mine, p, a);
    }
    r
  }

  class DashboardView {
    var doctor: Option<Doctor>
    var appointments: seq<Appointment>
    var statusStats: seq<Stat>
    var diagnosisData: seq<Stat>
    var currentPage: int

    function TotalPages(): nat
      reads this
    {
      Paging.TotalPages(|Notifications(appointments)|, ItemsPerPage)
    }

    /** The notifications of the current page. */
    function PageNotifications(): (r: seq<Appointment>)
      reads this
      ensures |r| <= ItemsPerPage
    {
      Paging.Page(Notifications(appointments), currentPage, ItemsPerPage)
    }

    /** The page stays in 1..totalPages (or 1 when there is nothing to page). */
    ghost predicate Valid()
      reads this
    {
      1 <= currentPage && (currentPage == 1 || currentPage <= TotalPages())
    }

    /**
     * Mount: with a stored user email, the doctor with that email, their
     * appointments, the status counts and the diagnosis tally; without one,
     * everything stays empty.
     */
    constructor (doctors: seq<Doctor>, all: seq<Appointment>, histories: seq<HistoryEntry>, userEmail: Option<string>)
      ensures Valid() && currentPage == 1
      ensures userEmail.None? || userEmail.value == "" ==>
        doctor.None? && appointments == [] && statusStats == [] && diagnosisData == []
      ensures userEmail.Some? && userEmail.value != "" ==>
        && doctor == FindDoctor(doctors, userEmail.value)
        && appointments == MyAppointments(all, userEmail.value)
        && statusStats == StatusStats(appointments)
        && diagnosisData == TallyOf(DoctorDiagnoses(histories, userEmail.value))
    {
      if userEmail.None? || userEmail.value == "" {
        doctor, appointments, statusStats, diagnosisData := None, [], [], [];
      } else {
        var email := userEmail.value;
        var mine := MyAppointments(all, email);
        var tally := DiagnosisTally(histories, email);
        doctor := FindDoctor(doctors, email);
        appointments := mine;
        statusStats := StatusStats(mine);
        diagnosisData := tally;
      }
      currentPage := 1;
    }

    /** The pie chart's data: the statuses with a positive count. */
    function PieData(): (r: seq<Stat>)
      reads this
      ensures forall s :: s in r <==> s in statusStats && s.value > 0
      // the slices are coloured by position, so order and multiplicity are those of the positive stats
      ensures r == PositiveStats(statusStats)
    {
      PositiveStats(statusStats)
    }

    /** Previous, drawn only when there is more than one page: `Math.max(p - 1, 1)`. */
    method PrevPage()
      requires Valid() && TotalPages() > 1
      modifies this`currentPage
      ensures Valid()
      ensures currentPage == Paging.PrevPage(old(currentPage))
      ensures 1 <= currentPage <= TotalPages()
    {
      currentPage := Paging.PrevPage(currentPage);
    }

    /** Next, drawn only when there is more than one page: `Math.min(p + 1, totalPages)`. */
    method NextPage()
      requires Valid() && TotalPages() > 1
      modifies this`currentPage
      ensures Valid()
      ensures currentPage == Paging.NextPage(old(currentPage), TotalPages())
      ensures 1 <= currentPage <= TotalPages()
    {
      currentPage := Paging.NextPage(currentPage, TotalPages());
    }
  }
}
