/**
 * Shared data model of the clinic front end: the account and appointment
 * records every view reads, the list operations the views build on
 * (Array.prototype.filter / find / map), the search match the list views
 * use, and the order on "YYYY-MM-DD" date strings.
 */
module Common {

  datatype Option<T> = None | Some(value: T)

  /** A doctor account (the `doctors` list of the accounts data). */
  datatype Doctor = Doctor(email: string, name: string, password: string, specialization: string)

  /** A patient account (the `patients` list of the accounts data). */
  datatype Patient = Patient(id: int, name: string, email: string, password: string, age: int)

  /**
   * A record of the shared appointment list (`hardcodedAppointments`).
   * `status` is the string the data holds; "" stands for a missing status.
   */
  datatype Appointment = Appointment(
    id: int, patientEmail: string, doctorEmail: string,
    date: string, time: string, status: string)

  /** One prescription line of a medical record; every field is the form's text. */
  datatype Prescription = Prescription(
    title: string, brand: string, strengthValue: string, strengthUnit: string,
    dosage: string, durationValue: string, durationUnit: string, frequency: string)

  /** A medical record; `doctorEmail` is "" when the record carries none. */
  datatype MedicalRecord = MedicalRecord(
    date: string, diagnosis: string, prescriptions: seq<Prescription>, doctorEmail: string)

  /** One entry of the global `patientHistories` list. */
  datatype HistoryEntry = HistoryEntry(patientEmail: string, records: seq<MedicalRecord>)

  // ---------------------------------------------------------------------
  // Lists

  /** `r` is `xs` with some elements left out and the others kept in their order. */
  ghost predicate Subsequence<T>(r: seq<T>, xs: seq<T>)
    decreases |xs|
  {
    r == [] || (xs != [] && ((r[0] == xs[0] && Subsequence(r[1..], xs[1..])) || Subsequence(r, xs[1..])))
  }

  /** Array.prototype.filter: the elements satisfying `p`, in their order. */
  function Filter<T>(xs: seq<T>, p: T -> bool): (r: seq<T>)
    ensures |r| <= |xs|
    ensures forall i :: 0 <= i < |r| ==> p(r[i]) && r[i] in xs
    ensures forall i :: 0 <= i < |xs| && p(xs[i]) ==> xs[i] in r
    ensures Subsequence(r, xs)
  {
    if xs == [] then []
    else
      var rest := Filter(xs[1..], p);
      var head := if p(xs[0]) then [xs[0]] else [];
      forall i | 0 <= i < |head + rest| ensures (head + rest)[i] in xs {
        if i >= |head| { assert (head + rest)[i] == rest[i - |head|]; }
      }
      forall i | 0 < i < |xs| && p(xs[i]) ensures xs[i] in head + rest {
        assert xs[i] == xs[1..][i - 1];
      }
      assert Subsequence(head + rest, xs) by {
        if p(xs[0]) {
          assert (head + rest)[1..] == rest;
        } else {
          assert head + rest == rest;
        }
      }
      head + rest
  }

  /**
   * Every element satisfying `p` is kept as often as it occurs, and no
   * other element is kept.
   */
  lemma {:induction false} FilterMultiset<T>(xs: seq<T>, p: T -> bool)
    ensures forall x :: multiset(Filter(xs, p))[x] == if p(x) then multiset(xs)[x] else 0
    ensures multiset(Filter(xs, p)) <= multiset(xs)
  {
    if xs != [] {
      var rest := Filter(xs[1..], p);
      FilterMultiset(xs[1..], p);
      assert xs == [xs[0]] + xs[1..];
      assert multiset(xs) == multiset{xs[0]} + multiset(xs[1..]);
      if p(xs[0]) {
        assert Filter(xs, p) == [xs[0]] + rest;
        assert multiset(Filter(xs, p)) == multiset{xs[0]} + multiset(rest);
      } else {
        assert Filter(xs, p) == rest;
      }
    }
  }

  /** Filtering a concatenation filters each part. */
  lemma {:induction false} FilterAppend<T>(a: seq<T>, b: seq<T>, p: T -> bool)
    ensures Filter(a + b, p) == Filter(a, p) + Filter(b, p)
  {
    if a == [] {
      assert a + b == b;
    } else {
      assert (a + b)[1..] == a[1..] + b;
      FilterAppend(a[1..], b, p);
    }
  }

  /** The number of elements satisfying `p` (`xs.filter(p).length`). */
  function Count<T>(xs: seq<T>, p: T -> bool): nat
  {
    |Filter(xs, p)|
  }

  /** Predicates that agree on every element of `xs` filter it alike. */
  lemma {:induction false} FilterCongruent<T>(xs: seq<T>, p: T -> bool, q: T -> bool)
    requires forall i :: 0 <= i < |xs| ==> p(xs[i]) == q(xs[i])
    ensures Filter(xs, p) == Filter(xs, q)
  {
    if xs != [] {
      FilterCongruent(xs[1..], p, q);
    }
  }

  /**
   * Array.prototype.find (and findIndex): the index of the first element
   * satisfying `p`, or None when there is none.
   */
  function FindIndex<T>(xs: seq<T>, p: T -> bool): (r: Option<nat>)
    ensures r.Some? ==> r.value < |xs| && p(xs[r.value])
    ensures r.Some? ==> forall j :: 0 <= j < r.value ==> !p(xs[j])
    ensures r.None? <==> forall j :: 0 <= j < |xs| ==> !p(xs[j])
  {
    if xs == [] then None
    else if p(xs[0]) then Some(0)
    else match FindIndex(xs[1..], p)
      case None => None
      case Some(i) => Some(i + 1)
  }

  /** Lists on which `p` holds at the same positions are searched alike. */
  lemma {:induction false} FindIndexSame<T>(t: seq<T>, r: seq<T>, p: T -> bool)
    requires |t| == |r| && forall j :: 0 <= j < |t| ==> p(r[j]) == p(t[j])
    ensures FindIndex(r, p) == FindIndex(t, p)
  {
    if t != [] {
      FindIndexSame(t[1..], r[1..], p);
    }
  }

  /** Searching a list extended at the end finds the same first match, or else the new last element. */
  lemma {:induction false} FindIndexExtended<T>(t: seq<T>, r: seq<T>, p: T -> bool)
    requires |r| == |t| + 1 && r[..|t|] == t
    ensures FindIndex(t, p).Some? ==> FindIndex(r, p) == FindIndex(t, p)
    ensures FindIndex(t, p).None? && p(r[|t|]) ==> FindIndex(r, p) == Some(|t|)
    ensures FindIndex(t, p).None? && !p(r[|t|]) ==> FindIndex(r, p).None?
  {
    if t != [] {
      assert r[1..][..|t| - 1] == t[1..];
      FindIndexExtended(t[1..], r[1..], p);
    }
  }

  /** Array.prototype.some. */
  predicate Any<T>(xs: seq<T>, p: T -> bool)
  {
    exists i :: 0 <= i < |xs| && p(xs[i])
  }

  /**
   * `list.map(a => a.id === id ? { ...a, status } : a)`: every record with
   * that id gets the new status, every other record stays as it was.
   */
  function SetStatus(xs: seq<Appointment>, id: int, status: string): (r: seq<Appointment>)
    ensures |r| == |xs|
    ensures forall i :: 0 <= i < |xs| && xs[i].id == id ==> r[i] == xs[i].(status := status)
    ensures forall i :: 0 <= i < |xs| && xs[i].id != id ==> r[i] == xs[i]
  {
    if xs == [] then []
    else [if xs[0].id == id then xs[0].(status := status) else xs[0]] + SetStatus(xs[1..], id, status)
  }

  /** `{ ...a, status: a.status || "Pending" }`: a missing status reads as "Pending". */
  function WithDefaultStatus(a: Appointment): Appointment
  {
    if a.status == "" then a.(status := "Pending") else a
  }

  /** `list.map(WithDefaultStatus)`. */
  function DefaultStatuses(xs: seq<Appointment>): (r: seq<Appointment>)
    ensures |r| == |xs|
    ensures forall i :: 0 <= i < |xs| ==> r[i] == WithDefaultStatus(xs[i])
  {
    if xs == [] then [] else [WithDefaultStatus(xs[0])] + DefaultStatuses(xs[1..])
  }

  /** Every loaded record has a non-empty status and otherwise is the stored record. */
  lemma {:induction false} DefaultStatusesNonEmpty(xs: seq<Appointment>)
    ensures forall a :: a in DefaultStatuses(xs) ==> a.status != ""
    ensures forall a :: a in DefaultStatuses(xs) ==> exists b :: b in xs && a == WithDefaultStatus(b)
  {
    var r := DefaultStatuses(xs);
    forall a | a in r
      ensures a.status != "" && exists b :: b in xs && a == WithDefaultStatus(b)
    {
      var i :| 0 <= i < |r| && r[i] == a;
      assert xs[i] in xs;
    }
  }

  /** An element is kept by Filter exactly when it is in the list and satisfies `p`. */
  lemma FilterMembership<T>(xs: seq<T>, p: T -> bool, x: T)
    ensures x in Filter(xs, p) <==> x in xs && p(x)
  {
    if x in xs && p(x) {
      var i :| 0 <= i < |xs| && xs[i] == x;
    }
  }

  /** Lists on which `p` holds at the same positions keep equally many elements. */
  lemma {:induction false} FilterSameLength<T>(xs: seq<T>, ys: seq<T>, p: T -> bool)
    requires |xs| == |ys|
    requires forall i :: 0 <= i < |xs| ==> p(xs[i]) == p(ys[i])
    ensures |Filter(xs, p)| == |Filter(ys, p)|
  {
    if xs != [] {
      assert p(xs[0]) == p(ys[0]);
      FilterSameLength(xs[1..], ys[1..], p);
    }
  }

  /** The sort key of the list views. */
  function DateOf(a: Appointment): string
  {
    a.date
  }

  /** The sort key of the medical-record lists. */
  function RecordDate(r: MedicalRecord): string
  {
    r.date
  }

  /** `list.filter(a => a.status === status).length`. */
  function CountStatus(xs: seq<Appointment>, status: string): nat
  {
    Count(xs, (a: Appointment) => a.status == status)
  }

  /** Writing status `s` never adds a record with a different status `t`. */
  lemma {:induction false} SetStatusCountOther(xs: seq<Appointment>, id: int, s: string, t: string)
    requires s != t
    ensures CountStatus(SetStatus(xs, id, s), t) <= CountStatus(xs, t)
  {
    if xs != [] {
      var r := SetStatus(xs, id, s);
      assert r[1..] == SetStatus(xs[1..], id, s);
      SetStatusCountOther(xs[1..], id, s, t);
    }
  }

  /** A record has at most one status, so the four counts together never exceed the records. */
  lemma {:induction false} FourCountsAtMost(xs: seq<Appointment>)
    ensures CountStatus(xs, "Pending") + CountStatus(xs, "Confirm")
          + CountStatus(xs, "Declined") + CountStatus(xs, "Cancelled") <= |xs|
  {
    if xs != [] {
      FourCountsAtMost(xs[1..]);
    }
  }

  /** The status tabs of the appointment views; "All" is no status filter. */
  const StatusTabs: seq<string> := ["All", "Pending", "Confirm", "Declined", "Cancelled"]

  /** `activeTab === "All" || a.status === activeTab`. */
  predicate TabMatch(tab: string, a: Appointment)
  {
    tab == "All" || a.status == tab
  }

  /** The view's user owns the record: as its doctor when `byDoctor`, else as its patient. */
  predicate OwnedBy(a: Appointment, email: string, byDoctor: bool)
  {
    if byDoctor then a.doctorEmail == email else a.patientEmail == email
  }

  /** Reading the missing statuses first does not change what a test blind to the status keeps. */
  lemma {:induction false} DefaultStatusesFilter(xs: seq<Appointment>, p: Appointment -> bool)
    requires forall a :: p(WithDefaultStatus(a)) == p(a)
    ensures DefaultStatuses(Filter(xs, p)) == Filter(DefaultStatuses(xs), p)
  {
    if xs != [] {
      DefaultStatusesFilter(xs[1..], p);
      var ds := DefaultStatuses(xs);
      assert ds[1..] == DefaultStatuses(xs[1..]);
      assert p(ds[0]) == p(xs[0]);
      var rest := Filter(xs[1..], p);
      if p(xs[0]) {
        assert Filter(xs, p) == [xs[0]] + rest;
        assert DefaultStatuses([xs[0]] + rest)[1..] == DefaultStatuses(rest);
      } else {
        assert Filter(xs, p) == rest;
      }
    }
  }

  /** Each loaded record has a status and is a kept record with its status read. */
  lemma LoadedFrom(all: seq<Appointment>, p: Appointment -> bool)
    ensures forall a :: a in DefaultStatuses(Filter(all, p)) ==>
      a.status != "" && exists b :: b in all && p(b) && a == WithDefaultStatus(b)
  {
    var own := Filter(all, p);
    var r := DefaultStatuses(own);
    forall a | a in r ensures a.status != "" && exists b :: b in all && p(b) && a == WithDefaultStatus(b) {
      var i :| 0 <= i < |r| && r[i] == a;
      assert own[i] in all && p(own[i]);
    }
  }

  /** Each kept record is loaded, with its status read. */
  lemma LoadedAll(all: seq<Appointment>, p: Appointment -> bool)
    ensures forall b :: b in all && p(b) ==> WithDefaultStatus(b) in DefaultStatuses(Filter(all, p))
  {
    var own := Filter(all, p);
    var r := DefaultStatuses(own);
    forall b | b in all && p(b) ensures WithDefaultStatus(b) in r {
      FilterMembership(all, p, b);
      var i :| 0 <= i < |own| && own[i] == b;
      assert r[i] == WithDefaultStatus(b);
    }
  }

  /**
   * `all.filter(owned).map(a => ({ ...a, status: a.status || "Pending" }))`:
   * the records the user owns, in stored order and each once, a missing
   * status read as "Pending".
   */
  function LoadOwn(all: seq<Appointment>, email: string, byDoctor: bool): (r: seq<Appointment>)
    ensures forall a :: a in r ==> a.status != "" && OwnedBy(a, email, byDoctor)
    ensures Subsequence(r, DefaultStatuses(all))
    ensures forall a :: multiset(r)[a] == if OwnedBy(a, email, byDoctor) then multiset(DefaultStatuses(all))[a] else 0
    ensures forall a :: a in r ==> exists b :: b in all && OwnedBy(b, email, byDoctor) && a == WithDefaultStatus(b)
    ensures forall b :: b in all && OwnedBy(b, email, byDoctor) ==> WithDefaultStatus(b) in r
  {
    var keep := (a: Appointment) => OwnedBy(a, email, byDoctor);
    DefaultStatusesFilter(all, keep);
    FilterMultiset(DefaultStatuses(all), keep);
    LoadedFrom(all, keep);
    LoadedAll(all, keep);
    DefaultStatuses(Filter(all, keep))
  }

  /** A chart entry `{ name, value }`. */
  datatype Stat = Stat(name: string, value: nat)

  /** `stats.filter(s => s.value > 0)`: the chart drops the empty entries and keeps the rest in order. */
  function PositiveStats(stats: seq<Stat>): (r: seq<Stat>)
    ensures forall s :: s in r <==> s in stats && s.value > 0
    ensures Subsequence(r, stats)
    ensures forall s :: multiset(r)[s] == if s.value > 0 then multiset(stats)[s] else 0
  {
    var p := (s: Stat) => s.value > 0;
    forall s ensures s in Filter(stats, p) <==> s in stats && p(s) {
      FilterMembership(stats, p, s);
    }
    FilterMultiset(stats, p);
    Filter(stats, p)
  }

  // ---------------------------------------------------------------------
  // Names

  /** `doctors.find(d => d.email === email)`. */
  function FindDoctor(doctors: seq<Doctor>, email: string): (r: Option<Doctor>)
    ensures r.Some? ==> r.value in doctors && r.value.email == email
    ensures r.Some? ==>
      exists i :: 0 <= i < |doctors| && doctors[i] == r.value && forall j :: 0 <= j < i ==> doctors[j].email != email
    ensures r.None? <==> forall d :: d in doctors ==> d.email != email
  {
    match FindIndex(doctors, (d: Doctor) => d.email == email)
    case Some(i) => Some(doctors[i])
    case None => None
  }

  /** `patients.find(p => p.email === email)`. */
  function FindPatient(patients: seq<Patient>, email: string): (r: Option<Patient>)
    ensures r.Some? ==> r.value in patients && r.value.email == email
    ensures r.Some? ==>
      exists i :: 0 <= i < |patients| && patients[i] == r.value && forall j :: 0 <= j < i ==> patients[j].email != email
    ensures r.None? <==> forall p :: p in patients ==> p.email != email
  {
    match FindIndex(patients, (p: Patient) => p.email == email)
    case Some(i) => Some(patients[i])
    case None => None
  }

  /** `patientHistories.find(h => h.patientEmail === email)`, as an index. */
  function FindHistory(histories: seq<HistoryEntry>, email: string): (r: Option<nat>)
    ensures r.Some? ==> r.value < |histories| && histories[r.value].patientEmail == email
    ensures r.Some? ==> forall j :: 0 <= j < r.value ==> histories[j].patientEmail != email
    ensures r.None? <==> forall j :: 0 <= j < |histories| ==> histories[j].patientEmail != email
  {
    FindIndex(histories, (h: HistoryEntry) => h.patientEmail == email)
  }

  /** `getPatientName`: the first patient with that email, else the fallback. */
  function PatientName(patients: seq<Patient>, email: string, fallback: string): (r: string)
    ensures (exists p :: p in patients && p.email == email) ==>
              exists p :: p in patients && p.email == email && r == p.name
    ensures (exists p :: p in patients && p.email == email) ==>
              exists i :: 0 <= i < |patients| && patients[i].email == email && r == patients[i].name &&
                forall j :: 0 <= j < i ==> patients[j].email != email
    ensures (forall p :: p in patients ==> p.email != email) ==> r == fallback
  {
    match FindIndex(patients, (p: Patient) => p.email == email)
    case Some(i) => patients[i].name
    case None => fallback
  }

  /** `getDoctorName`: the first doctor with that email, else the fallback. */
  function DoctorName(doctors: seq<Doctor>, email: string, fallback: string): (r: string)
    ensures (exists d :: d in doctors && d.email == email) ==>
              exists d :: d in doctors && d.email == email && r == d.name
    ensures (exists d :: d in doctors && d.email == email) ==>
              exists i :: 0 <= i < |doctors| && doctors[i].email == email && r == doctors[i].name &&
                forall j :: 0 <= j < i ==> doctors[j].email != email
    ensures (forall d :: d in doctors ==> d.email != email) ==> r == fallback
  {
    match FindIndex(doctors, (d: Doctor) => d.email == email)
    case Some(i) => doctors[i].name
    case None => fallback
  }

  // ---------------------------------------------------------------------
  // Text search (ASCII case folding)

  function LowerChar(c: char): char
  {
    if 'A' <= c <= 'Z' then (c as int + 32) as char else c
  }

  function UpperChar(c: char): char
  {
    if 'a' <= c <= 'z' then (c as int - 32) as char else c
  }

  /** String.prototype.toLowerCase, on ASCII letters. */
  function Lower(s: string): (r: string)
    ensures |r| == |s|
    ensures forall i :: 0 <= i < |r| ==> !('A' <= r[i] <= 'Z')
    ensures forall i :: 0 <= i < |s| && !('A' <= s[i] <= 'Z') ==> r[i] == s[i]
    ensures forall i :: 0 <= i < |s| && 'A' <= s[i] <= 'Z' ==> UpperChar(r[i]) == s[i]
  {
    if s == [] then [] else [LowerChar(s[0])] + Lower(s[1..])
  }

  predicate IsPrefix(needle: string, hay: string)
  {
    |needle| <= |hay| && hay[..|needle|] == needle
  }

  /** String.prototype.includes. */
  predicate Contains(hay: string, needle: string)
    decreases |hay|
  {
    IsPrefix(needle, hay) || (hay != [] && Contains(hay[1..], needle))
  }

  /** `needle` occurs in `hay` starting at offset `k`. */
  predicate OccursAt(hay: string, needle: string, k: int)
  {
    0 <= k <= |hay| - |needle| && hay[k..k + |needle|] == needle
  }

  /** `hay.includes(needle)` holds exactly when `needle` occurs at some offset of `hay`. */
  lemma {:induction false} ContainsAt(hay: string, needle: string)
    ensures Contains(hay, needle) <==> exists k :: OccursAt(hay, needle, k)
  {
    if IsPrefix(needle, hay) {
      assert OccursAt(hay, needle, 0);
    }
    if hay != [] {
      ContainsAt(hay[1..], needle);
      if exists k :: OccursAt(hay[1..], needle, k) {
        var k :| OccursAt(hay[1..], needle, k);
        assert hay[k + 1..k + 1 + |needle|] == hay[1..][k..k + |needle|];
        assert OccursAt(hay, needle, k + 1);
      }
      if exists k :: OccursAt(hay, needle, k) {
        var k :| OccursAt(hay, needle, k);
        if k > 0 {
          assert hay[1..][k - 1..k - 1 + |needle|] == hay[k..k + |needle|];
          assert OccursAt(hay[1..], needle, k - 1);
        }
      }
    } else {
      if exists k :: OccursAt(hay, needle, k) {
        var k :| OccursAt(hay, needle, k);
        assert needle == [];
      }
    }
  }

  /** The empty search matches every string. */
  lemma EmptySearchMatches(hay: string)
    ensures Contains(hay, "")
  {
  }

  /**
   * The list views' search: the displayed name, lower-cased, contains the
   * lower-cased search, or the date contains the search as typed.
   */
  predicate MatchesSearch(name: string, date: string, search: string)
  {
    Contains(Lower(name), Lower(search)) || Contains(date, search)
  }

  // ---------------------------------------------------------------------
  // Dates: "YYYY-MM-DD" strings, whose lexicographic order is their calendar order

  /** Lexicographic order on strings (at most). */
  predicate LexLe(a: string, b: string)
    decreases |a|
  {
    a == [] || (b != [] && (a[0] < b[0] || (a[0] == b[0] && LexLe(a[1..], b[1..]))))
  }

  /** `new Date(a) < new Date(b)` on well-formed date strings. */
  predicate DateBefore(a: string, b: string)
  {
    !LexLe(b, a)
  }

  /** Strings that agree up to `k` and then differ upward are in order. */
  lemma {:induction false} LexLeAt(a: string, b: string, k: nat)
    requires k < |a| && k < |b| && a[..k] == b[..k] && a[k] < b[k]
    ensures LexLe(a, b)
  {
    if k > 0 {
      assert a[0] == a[..k][0] == b[..k][0] == b[0];
      assert a[1..][..k - 1] == a[..k][1..] && b[1..][..k - 1] == b[..k][1..];
      LexLeAt(a[1..], b[1..], k - 1);
    }
  }

  lemma {:induction false} LexLeRefl(a: string)
    ensures LexLe(a, a)
  {
    if a != [] {
      LexLeRefl(a[1..]);
    }
  }

  lemma {:induction false} LexLeTotal(a: string, b: string)
    ensures LexLe(a, b) || LexLe(b, a)
  {
    if a != [] && b != [] && a[0] == b[0] {
      LexLeTotal(a[1..], b[1..]);
    }
  }

  lemma {:induction false} LexLeTrans(a: string, b: string, c: string)
    requires LexLe(a, b) && LexLe(b, c)
    ensures LexLe(a, c)
  {
    if a != [] && a[0] == b[0] && b[0] == c[0] {
      LexLeTrans(a[1..], b[1..], c[1..]);
    }
  }

  lemma {:induction false} LexLeAntisym(a: string, b: string)
    requires LexLe(a, b) && LexLe(b, a)
    ensures a == b
  {
    if a != [] {
      LexLeAntisym(a[1..], b[1..]);
    }
  }

  /** DateBefore is a strict order: irreflexive and transitive, and it implies LexLe. */
  lemma DateBeforeStrict(a: string, b: string, c: string)
    ensures !DateBefore(a, a)
    ensures DateBefore(a, b) ==> LexLe(a, b) && a != b
    ensures DateBefore(a, b) && DateBefore(b, c) ==> DateBefore(a, c)
  {
    LexLeRefl(a);
    LexLeTotal(a, b);
    if DateBefore(a, b) && DateBefore(b, c) {
      LexLeTotal(b, c);
      if LexLe(c, a) {
        LexLeTrans(c, a, b);
      }
    }
  }
}
