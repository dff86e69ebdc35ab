/** The dashboard's figures: bed totals and occupancy over all wards, patient and
    staff counts, the patient status breakdown and the most recent admissions. */
module Dashboard {

  import opened Collections
  import opened Text
  import opened Records

  function WardTotalBeds(w: Ward): int { w.info.totalBeds }
  function WardOccupiedBeds(w: Ward): int { w.info.occupiedBeds }
  function WardAvailableBeds(w: Ward): int { w.info.availableBeds }

  function TotalBeds(wards: seq<Ward>): int
  {
    SumInt(wards, WardTotalBeds)
  }

  function OccupiedBeds(wards: seq<Ward>): int
  {
    SumInt(wards, WardOccupiedBeds)
  }

  /** The free beds: the total less the occupied. */
  function AvailableBeds(wards: seq<Ward>): int
  {
    TotalBeds(wards) - OccupiedBeds(wards)
  }

  /** When every ward's tallies agree, the free beds shown are the sum of the
      wards' own free beds, and never more than the total. */
  lemma {:induction false} AvailableBedsAddUp(wards: seq<Ward>)
    requires forall i :: 0 <= i < |wards| ==> BedsConsistent(wards[i].info)
    ensures AvailableBeds(wards) == SumInt(wards, WardAvailableBeds)
    ensures AvailableBeds(wards) <= TotalBeds(wards)
  {
    if wards != [] {
      assert forall i :: 0 <= i < |wards[1..]| ==> wards[1..][i] == wards[i + 1];
      AvailableBedsAddUp(wards[1..]);
      assert BedsConsistent(wards[0].info);
    }
  }

  /** The occupancy rate in tenths of a per cent, as `toFixed(1)` shows it (the
      nearest tenth); 0 when there are no beds. */
  function OccupancyTenths(occupied: int, total: int): (r: int)
    ensures total <= 0 ==> r == 0
    ensures total > 0 && occupied >= 0 ==> -total <= 2 * (1000 * occupied - r * total) < total
  {
    if total > 0 then RoundQuotient(1000 * occupied, total) else 0
  }

  /** With no more beds occupied than there are, the rate is between 0.0 and
      100.0 per cent. */
  lemma OccupancyTenthsInRange(occupied: int, total: int)
    requires 0 <= occupied <= total && total > 0
    ensures 0 <= OccupancyTenths(occupied, total) <= 1000
  {
    var r := OccupancyTenths(occupied, total);
    if r < 0 {
      MultiplyBelow(r, -1, total);
      assert false;
    } else if r > 1000 {
      MultiplyBelow(1001, r, total);
      assert false;
    }
  }

  function PatientActive(p: Patient): bool { IsActive(p.info.status) }

  function PatientStatusIs(status: PatientStatus): Patient -> bool
  {
    (p: Patient) => p.info.status == status
  }

  function StaffActive(m: StaffMember): bool { m.info.status == "Active" }

  /** `activePatients`: the patients who are not discharged. */
  function ActivePatients(patients: seq<Patient>): nat
  {
    Count(patients, PatientActive)
  }

  function PatientsWithStatus(patients: seq<Patient>, status: PatientStatus): nat
  {
    Count(patients, PatientStatusIs(status))
  }

  /** `criticalPatients`. */
  function CriticalPatients(patients: seq<Patient>): nat
  {
    PatientsWithStatus(patients, Critical)
  }

  /** `activeStaff`. */
  function ActiveStaff(staff: seq<StaffMember>): nat
  {
    Count(staff, StaffActive)
  }

  /** `activeStaff` is the length of the list of members whose status is `Active`:
      positive exactly when someone is active, and the whole staff exactly when
      everyone is. */
  lemma ActiveStaffCounted(staff: seq<StaffMember>)
    ensures ActiveStaff(staff) == |Filter(staff, StaffActive)|
    ensures ActiveStaff(staff) > 0 <==> exists i :: 0 <= i < |staff| && staff[i].info.status == "Active"
    ensures ActiveStaff(staff) == |staff| <==> forall i :: 0 <= i < |staff| ==> staff[i].info.status == "Active"
  {
    CountPositive(staff, StaffActive);
    CountAllExact(staff, StaffActive);
  }

  /** Every patient is active or discharged, and every critical patient is
      active. */
  lemma PatientCountsAgree(patients: seq<Patient>)
    ensures ActivePatients(patients) + PatientsWithStatus(patients, Discharged) == |patients|
    ensures CriticalPatients(patients) <= ActivePatients(patients)
  {
    var any := (p: Patient) => true;
    CountDisjointUnion(patients, PatientActive, PatientStatusIs(Discharged), any);
    AllCounted(patients, any);
    CountImplies(patients, PatientStatusIs(Critical), PatientActive);
  }

  lemma {:induction false} AllCounted<T>(s: seq<T>, p: T -> bool)
    requires forall i :: 0 <= i < |s| ==> p(s[i])
    ensures Count(s, p) == |s|
  {
    if s != [] {
      assert forall i :: 0 <= i < |s[1..]| ==> s[1..][i] == s[i + 1];
      AllCounted(s[1..], p);
    }
  }

  /** Every element is counted exactly when every element satisfies the predicate. */
  lemma {:induction false} CountAllExact<T>(s: seq<T>, p: T -> bool)
    ensures Count(s, p) == |s| <==> forall i :: 0 <= i < |s| ==> p(s[i])
  {
    if s != [] {
      CountAllExact(s[1..], p);
      assert forall i :: 0 <= i < |s[1..]| ==> s[1..][i] == s[i + 1];
      if Count(s, p) == |s| {
        assert p(s[0]);
      }
    }
  }

  /** The critical-patients alert shows exactly when some patient is critical. */
  lemma CriticalAlertShown(patients: seq<Patient>)
    ensures CriticalPatients(patients) > 0 <==>
      exists i :: 0 <= i < |patients| && patients[i].info.status == Critical
  {
    CountPositive(patients, PatientStatusIs(Critical));
  }

  /** One slice of the status chart. */
  datatype StatusSlice = StatusSlice(name: PatientStatus, value: nat)

  function SliceValue(s: StatusSlice): int { s.value }

  function SliceShown(s: StatusSlice): bool { s.value > 0 }

  /** `statusData`: the four active statuses in order, without the empty ones. */
  function StatusData(patients: seq<Patient>): seq<StatusSlice>
  {
    Filter(AllSlices(patients), SliceShown)
  }

  function AllSlices(patients: seq<Patient>): seq<StatusSlice>
  {
    [StatusSlice(Admitted, PatientsWithStatus(patients, Admitted)),
     StatusSlice(Critical, PatientsWithStatus(patients, Critical)),
     StatusSlice(Stable, PatientsWithStatus(patients, Stable)),
     StatusSlice(Recovering, PatientsWithStatus(patients, Recovering))]
  }

  /** The active patients, counted status by status. */
  lemma {:induction false} ActiveByStatus(patients: seq<Patient>)
    ensures ActivePatients(patients) == PatientsWithStatus(patients, Admitted) +
      PatientsWithStatus(patients, Critical) + PatientsWithStatus(patients, Stable) +
      PatientsWithStatus(patients, Recovering)
  {
    if patients != [] {
      ActiveByStatus(patients[1..]);
    }
  }

  /** The chart keeps the status order, shows only statuses somebody has, and its
      slices add up to the active patients. */
  lemma StatusDataShape(patients: seq<Patient>)
    ensures IsSubsequence(StatusData(patients), AllSlices(patients))
    ensures forall i :: 0 <= i < |StatusData(patients)| ==> StatusData(patients)[i].value > 0
    ensures forall i :: 0 <= i < |AllSlices(patients)| ==>
      (AllSlices(patients)[i] in StatusData(patients) <==> AllSlices(patients)[i].value > 0)
    ensures SumInt(StatusData(patients), SliceValue) == ActivePatients(patients)
  {
    var all := AllSlices(patients);
    FilterExact(all, SliceShown);
    SumIntDropsZeros(all, SliceShown, SliceValue);
    ActiveByStatus(patients);
    assert SumInt(all[4..], SliceValue) == 0;
    assert SumInt(all[3..], SliceValue) == all[3].value + SumInt(all[3..][1..], SliceValue);
    assert all[3..][1..] == all[4..];
    assert SumInt(all[2..], SliceValue) == all[2].value + SumInt(all[2..][1..], SliceValue);
    assert all[2..][1..] == all[3..];
    assert SumInt(all[1..], SliceValue) == all[1].value + SumInt(all[1..][1..], SliceValue);
    assert all[1..][1..] == all[2..];
  }

  /** Newest admission first. */
  predicate NewestFirst(ps: seq<Patient>)
  {
    forall i, j :: 0 <= i < j < |ps| ==> ps[i].admissionDate >= ps[j].admissionDate
  }

  /** Puts `p` before the first patient admitted no later. */
  function InsertByAdmission(p: Patient, sorted: seq<Patient>): seq<Patient>
  {
    if sorted == [] || p.admissionDate >= sorted[0].admissionDate then [p] + sorted
    else [sorted[0]] + InsertByAdmission(p, sorted[1..])
  }

  lemma {:induction false} InsertPermutes(p: Patient, sorted: seq<Patient>)
    ensures multiset(InsertByAdmission(p, sorted)) == multiset(sorted) + multiset{p}
  {
    if !(sorted == [] || p.admissionDate >= sorted[0].admissionDate) {
      InsertPermutes(p, sorted[1..]);
      assert sorted == [sorted[0]] + sorted[1..];
    }
  }

  lemma {:induction false} InsertKeepsOrder(p: Patient, sorted: seq<Patient>)
    requires NewestFirst(sorted)
    ensures NewestFirst(InsertByAdmission(p, sorted))
  {
    if !(sorted == [] || p.admissionDate >= sorted[0].admissionDate) {
      var tail := sorted[1..];
      var rest := InsertByAdmission(p, tail);
      InsertKeepsOrder(p, tail);
      InsertPermutes(p, tail);
      forall i | 0 <= i < |rest| ensures rest[i].admissionDate <= sorted[0].admissionDate {
        assert rest[i] in multiset(rest);
        if rest[i] != p {
          assert rest[i] in multiset(tail);
          var j :| 0 <= j < |tail| && tail[j] == rest[i];
          assert sorted[j + 1] == rest[i];
        }
      }
      assert InsertByAdmission(p, sorted) == [sorted[0]] + rest;
    }
  }

  /** `[...patients].sort(...)` by admission date, newest first, on a copy. */
  function SortByAdmission(ps: seq<Patient>): seq<Patient>
  {
    if ps == [] then [] else InsertByAdmission(ps[0], SortByAdmission(ps[1..]))
  }

  /** The sorted copy is newest first and holds the same patients. */
  lemma {:induction false} SortByAdmissionSorts(ps: seq<Patient>)
    ensures NewestFirst(SortByAdmission(ps)) && multiset(SortByAdmission(ps)) == multiset(ps)
  {
    if ps != [] {
      SortByAdmissionSorts(ps[1..]);
      InsertKeepsOrder(ps[0], SortByAdmission(ps[1..]));
      InsertPermutes(ps[0], SortByAdmission(ps[1..]));
      assert ps == [ps[0]] + ps[1..];
    }
  }

  /** `recentPatients`: the first five of the sorted copy. */
  function RecentPatients(ps: seq<Patient>): seq<Patient>
  {
    var sorted := SortByAdmission(ps);
    if |sorted| <= 5 then sorted else sorted[..5]
  }

  /** At most five patients, all from the list, newest first, and none left out
      was admitted later than any shown. */
  lemma RecentPatientsAreNewest(ps: seq<Patient>)
    ensures |RecentPatients(ps)| == if |ps| < 5 then |ps| else 5
    ensures NewestFirst(RecentPatients(ps))
    ensures forall p :: p in RecentPatients(ps) ==> p in ps
    ensures forall p, q :: p in ps && p !in RecentPatients(ps) && q in RecentPatients(ps) ==>
      p.admissionDate <= q.admissionDate
  {
    var sorted := SortByAdmission(ps);
    var r := RecentPatients(ps);
    SortByAdmissionSorts(ps);
    assert |sorted| == |multiset(sorted)| == |multiset(ps)| == |ps|;
    forall p | p in r ensures p in ps {
      assert p in multiset(sorted);
    }
    forall p, q | p in ps && p !in r && q in r ensures p.admissionDate <= q.admissionDate {
      assert p in multiset(sorted);
      var j :| 0 <= j < |sorted| && sorted[j] == p;
      var i :| 0 <= i < |r| && r[i] == q;
      assert r[i] == sorted[i];
      assert j >= |r|;
    }
  }
}
