/** The application store: the wards, patients, staff and saved forms every page
    reads, and the operations that change them. Each remote table call is one
    `Remote` parameter; after an accepted write the local list holds what the table
    holds, so one list models both. */
module Store {

  import opened Collections
  import opened Records

  /** The error a `.single()` query reports when no row has the id. */
  const NotFound := "the requested row does not exist"

  // ----- Lookups -----------------------------------------------------------------

  predicate HasWard(ws: seq<Ward>, id: string)
  {
    exists i :: 0 <= i < |ws| && ws[i].id == id
  }

  predicate HasPatient(ps: seq<Patient>, id: string)
  {
    exists i :: 0 <= i < |ps| && ps[i].id == id
  }

  predicate HasStaff(ss: seq<StaffMember>, id: string)
  {
    exists i :: 0 <= i < |ss| && ss[i].id == id
  }

  predicate HasForm(fs: seq<SavedForm>, id: string)
  {
    exists i :: 0 <= i < |fs| && fs[i].id == id
  }

  predicate WardIdsUnique(ws: seq<Ward>)
  {
    forall i, j :: 0 <= i < j < |ws| ==> ws[i].id != ws[j].id
  }

  predicate PatientIdsUnique(ps: seq<Patient>)
  {
    forall i, j :: 0 <= i < j < |ps| ==> ps[i].id != ps[j].id
  }

  predicate StaffIdsUnique(ss: seq<StaffMember>)
  {
    forall i, j :: 0 <= i < j < |ss| ==> ss[i].id != ss[j].id
  }

  predicate FormIdsUnique(fs: seq<SavedForm>)
  {
    forall i, j :: 0 <= i < j < |fs| ==> fs[i].id != fs[j].id
  }

  function WardIdIs(id: string): Ward -> bool { (w: Ward) => w.id == id }
  function WardIdIsNot(id: string): Ward -> bool { (w: Ward) => w.id != id }
  function PatientIdIs(id: string): Patient -> bool { (p: Patient) => p.id == id }
  function PatientIdIsNot(id: string): Patient -> bool { (p: Patient) => p.id != id }
  function StaffIdIs(id: string): StaffMember -> bool { (m: StaffMember) => m.id == id }
  function StaffIdIsNot(id: string): StaffMember -> bool { (m: StaffMember) => m.id != id }

  /** `patients.find(p => p.id === id)`. */
  function FindPatient(ps: seq<Patient>, id: string): (r: Option<Patient>)
    ensures r.None? <==> !HasPatient(ps, id)
    ensures r.Some? ==> r.value in ps && r.value.id == id
  {
    Find(ps, PatientIdIs(id))
  }

  /** With unique ids, the patient found is the one at index `k`. */
  lemma FindPatientAt(ps: seq<Patient>, k: int)
    requires PatientIdsUnique(ps) && 0 <= k < |ps|
    ensures FindPatient(ps, ps[k].id) == Some(ps[k])
    ensures OnlyAt(ps, PatientIdIs(ps[k].id), k)
  {
  }

  // ----- The bed-count primitive -------------------------------------------------

  /** The new tallies of `updateWardBedCount`: one more occupied bed, or one fewer
      but never below zero; the free beds are recomputed from the total. */
  function Bump(w: WardInfo, increment: bool): (r: WardInfo)
    ensures r == w.(occupiedBeds := r.occupiedBeds, availableBeds := r.availableBeds)
    ensures r.availableBeds == r.totalBeds - r.occupiedBeds
    ensures increment ==> r.occupiedBeds == w.occupiedBeds + 1
    ensures !increment ==> r.occupiedBeds == if w.occupiedBeds > 0 then w.occupiedBeds - 1 else 0
  {
    var occupied := if increment then w.occupiedBeds + 1
                    else if w.occupiedBeds - 1 > 0 then w.occupiedBeds - 1 else 0;
    w.(occupiedBeds := occupied, availableBeds := w.totalBeds - occupied)
  }

  /** A ward with consistent tallies keeps them through any bed change. */
  lemma BumpKeepsConsistent(w: WardInfo, increment: bool)
    requires BedsConsistent(w)
    ensures BedsConsistent(Bump(w, increment))
  {
  }

  /** Admitting and then releasing one patient leaves a consistent ward as it was;
      so does releasing and then admitting one when a bed was occupied. */
  lemma BumpRoundTrip(w: WardInfo)
    requires BedsConsistent(w)
    ensures Bump(Bump(w, true), false) == w
    ensures w.occupiedBeds > 0 ==> Bump(Bump(w, false), true) == w
  {
  }

  /** The reply of `updateWardBedCount`: the ward must exist and both table calls
      must go through. */
  function BedCountReply(ws: seq<Ward>, id: string, remote: Remote): (r: Reply<()>)
    ensures r.Ok? <==> HasWard(ws, id) && remote.Accept?
  {
    if remote.Reject? then Err(remote.message)
    else if !HasWard(ws, id) then Err(NotFound)
    else Ok(())
  }

  /** The ward list after `updateWardBedCount(id, increment)`. */
  function AfterBedCount(ws: seq<Ward>, id: string, increment: bool, remote: Remote): (r: seq<Ward>)
  {
    if BedCountReply(ws, id, remote).Err? then ws
    else ReplaceWhere(ws, WardIdIs(id), Ward(id, Bump(Find(ws, WardIdIs(id)).value.info, increment)))
  }

  /** Only the ward with the given id changes, and only in its bed tallies; a
      failed call changes nothing. */
  lemma AfterBedCountTouchesOnlyTarget(ws: seq<Ward>, id: string, increment: bool, remote: Remote)
    requires WardIdsUnique(ws)
    ensures var r := AfterBedCount(ws, id, increment, remote);
      |r| == |ws| &&
      (BedCountReply(ws, id, remote).Err? ==> r == ws) &&
      forall i :: 0 <= i < |ws| ==>
        r[i].id == ws[i].id &&
        (ws[i].id != id ==> r[i] == ws[i]) &&
        (ws[i].id == id && remote.Accept? ==> r[i].info == Bump(ws[i].info, increment))
  {
    if BedCountReply(ws, id, remote).Ok? {
      var f := Find(ws, WardIdIs(id));
      forall i | 0 <= i < |ws| && ws[i].id == id ensures f.value == ws[i] {
        var j :| 0 <= j < |ws| && ws[j] == f.value && WardIdIs(id)(ws[j]);
        assert i == j;
      }
    }
  }

  /** A bed change keeps the ward ids, so they stay unique and none is empty. */
  lemma AfterBedCountKeepsIds(ws: seq<Ward>, id: string, increment: bool, remote: Remote)
    requires WardIdsUnique(ws) && !HasWard(ws, "")
    ensures var r := AfterBedCount(ws, id, increment, remote);
      WardIdsUnique(r) && !HasWard(r, "")
  {
    AfterBedCountTouchesOnlyTarget(ws, id, increment, remote);
  }

  /** Every ward consistent before is consistent after a bed change. */
  lemma AfterBedCountKeepsConsistent(ws: seq<Ward>, id: string, increment: bool, remote: Remote)
    requires WardIdsUnique(ws)
    requires forall i :: 0 <= i < |ws| ==> BedsConsistent(ws[i].info)
    ensures var r := AfterBedCount(ws, id, increment, remote);
      forall i :: 0 <= i < |r| ==> BedsConsistent(r[i].info)
  {
    AfterBedCountTouchesOnlyTarget(ws, id, increment, remote);
  }

  // ----- When the patient operations change bed counts ---------------------------

  /** `addPatient` increments iff the new patient is not discharged and has a ward. */
  predicate AdmitTakesBed(info: PatientInfo)
  {
    IsActive(info.status) && info.wardId != ""
  }

  /** The patient occupies a bed in a ward; deleting or discharging it releases that bed. */
  predicate HoldsBed(p: Patient)
  {
    IsActive(p.info.status) && p.info.wardId != ""
  }

  /** `updatePatient` touches bed counts only when the ward changes and the new
      status is not discharged. */
  predicate EditMoves(prior: Patient, info: PatientInfo)
  {
    prior.info.wardId != info.wardId && IsActive(info.status)
  }

  predicate EditReleases(prior: Patient, info: PatientInfo)
  {
    EditMoves(prior, info) && HoldsBed(prior)
  }

  predicate EditTakes(prior: Patient, info: PatientInfo)
  {
    EditMoves(prior, info) && info.wardId != ""
  }

  function WardsAfterAdmit(ws: seq<Ward>, info: PatientInfo, bed: Remote): seq<Ward>
  {
    if AdmitTakesBed(info) then AfterBedCount(ws, info.wardId, true, bed) else ws
  }

  function WardsAfterEdit(ws: seq<Ward>, prior: Patient, info: PatientInfo, dec: Remote, inc: Remote): seq<Ward>
  {
    var released := if EditReleases(prior, info) then AfterBedCount(ws, prior.info.wardId, false, dec) else ws;
    if EditTakes(prior, info) then AfterBedCount(released, info.wardId, true, inc) else released
  }

  /** Ward list after deleting or discharging `p` (`None`: no such patient locally). */
  function WardsAfterLeave(ws: seq<Ward>, p: Option<Patient>, bed: Remote): seq<Ward>
  {
    if p.Some? && HoldsBed(p.value) then AfterBedCount(ws, p.value.info.wardId, false, bed) else ws
  }

  /** Admitting an active patient into a consistent ward takes exactly one of its
      free beds and leaves every other ward as it was. */
  lemma AdmitTakesOneBed(ws: seq<Ward>, info: PatientInfo, k: int)
    requires WardIdsUnique(ws) && 0 <= k < |ws| && ws[k].id == info.wardId
    requires AdmitTakesBed(info) && BedsConsistent(ws[k].info)
    ensures var r := WardsAfterAdmit(ws, info, Accept);
      |r| == |ws| &&
      r[k].info.occupiedBeds == ws[k].info.occupiedBeds + 1 &&
      r[k].info.availableBeds == ws[k].info.availableBeds - 1 &&
      forall i :: 0 <= i < |ws| && i != k ==> r[i] == ws[i]
  {
    AfterBedCountTouchesOnlyTarget(ws, info.wardId, true, Accept);
  }

  /** An edit that keeps the ward never touches a bed count, whatever the
      status change. */
  lemma SameWardEditKeepsBeds(ws: seq<Ward>, prior: Patient, info: PatientInfo, dec: Remote, inc: Remote)
    requires info.wardId == prior.info.wardId
    ensures WardsAfterEdit(ws, prior, info, dec, inc) == ws
  {
  }

  /** The patient as `dischargePatient` stores it. */
  function DischargedRecord(p: Patient, now: int): (q: Patient)
    ensures q.id == p.id && q.info.status == PatientStatus.Discharged && q.dischargeDate == Some(now)
    ensures q.info == p.info.(status := PatientStatus.Discharged) && q.admissionDate == p.admissionDate
  {
    p.(info := p.info.(status := PatientStatus.Discharged), dischargeDate := Some(now))
  }

  /** A second discharge releases no bed. */
  lemma DischargeTwiceKeepsBeds(ws: seq<Ward>, p: Patient, now: int, bed: Remote)
    ensures WardsAfterLeave(ws, Some(DischargedRecord(p, now)), bed) == ws
  {
  }

  // ----- Census: the bed counts the patient list calls for ------------------------

  function ActiveIn(wardId: string): Patient -> bool
  {
    (p: Patient) => p.info.wardId == wardId && IsActive(p.info.status)
  }

  /** Active patients assigned to the ward. */
  function Census(ps: seq<Patient>, wardId: string): nat
  {
    Count(ps, ActiveIn(wardId))
  }

  /** Every ward's occupied count is the number of active patients in it. */
  predicate BedsMatchCensus(ws: seq<Ward>, ps: seq<Patient>)
  {
    forall i :: 0 <= i < |ws| ==> ws[i].info.occupiedBeds == Census(ps, ws[i].id)
  }

  lemma CensusUpdate(ps: seq<Patient>, k: int, q: Patient, wardId: string)
    requires 0 <= k < |ps|
    ensures Census(ps[k := q], wardId) ==
      Census(ps, wardId) - (if ActiveIn(wardId)(ps[k]) then 1 else 0) + (if ActiveIn(wardId)(q) then 1 else 0)
  {
    CountUpdate(ps, k, q, ActiveIn(wardId));
  }

  /** A single bed change keeps the census when it follows the one patient that
      entered or left ward `id`. */
  lemma BedCountFollowsCensus(ws: seq<Ward>, ps: seq<Patient>, ps': seq<Patient>, id: string, increment: bool)
    requires WardIdsUnique(ws) && !HasWard(ws, "") && id != ""
    requires BedsMatchCensus(ws, ps)
    requires forall w :: w != id ==> Census(ps', w) == Census(ps, w)
    requires Census(ps', id) == if increment then Census(ps, id) + 1 else Census(ps, id) - 1
    ensures BedsMatchCensus(AfterBedCount(ws, id, increment, Accept), ps')
  {
    AfterBedCountTouchesOnlyTarget(ws, id, increment, Accept);
  }

  /** Admitting a patient keeps every ward's count equal to its census when the
      bed-count call goes through. */
  lemma AdmitKeepsCensus(ws: seq<Ward>, ps: seq<Patient>, p: Patient)
    requires WardIdsUnique(ws) && !HasWard(ws, "")
    requires BedsMatchCensus(ws, ps)
    ensures BedsMatchCensus(WardsAfterAdmit(ws, p.info, Accept), [p] + ps)
  {
    var ps' := [p] + ps;
    assert ps'[1..] == ps;
    if AdmitTakesBed(p.info) {
      BedCountFollowsCensus(ws, ps, ps', p.info.wardId, true);
    } else {
      forall i | 0 <= i < |ws| ensures Census(ps', ws[i].id) == Census(ps, ws[i].id) {
        assert ws[i].id != "";
      }
    }
  }

  /** Deleting the patient at index `k` keeps the census. */
  lemma DeleteKeepsCensus(ws: seq<Ward>, ps: seq<Patient>, k: int)
    requires WardIdsUnique(ws) && !HasWard(ws, "")
    requires BedsMatchCensus(ws, ps)
    requires 0 <= k < |ps|
    ensures BedsMatchCensus(WardsAfterLeave(ws, Some(ps[k]), Accept), ps[..k] + ps[k + 1..])
  {
    var ps' := ps[..k] + ps[k + 1..];
    forall w ensures Census(ps', w) == Census(ps, w) - (if ActiveIn(w)(ps[k]) then 1 else 0) {
      CountRemove(ps, k, ActiveIn(w));
    }
    if HoldsBed(ps[k]) {
      BedCountFollowsCensus(ws, ps, ps', ps[k].info.wardId, false);
    } else {
      forall i | 0 <= i < |ws| ensures Census(ps', ws[i].id) == Census(ps, ws[i].id) {
        assert ws[i].id != "";
      }
    }
  }

  /** With unique ids, `deletePatient` finds the patient at index `k` and the
      filter drops exactly that index. */
  lemma RemovePatientAt(ps: seq<Patient>, k: int)
    requires PatientIdsUnique(ps) && 0 <= k < |ps|
    ensures FindPatient(ps, ps[k].id) == Some(ps[k])
    ensures Filter(ps, PatientIdIsNot(ps[k].id)) == ps[..k] + ps[k + 1..]
  {
    FindPatientAt(ps, k);
    FilterOutOnlyAt(ps, PatientIdIs(ps[k].id), PatientIdIsNot(ps[k].id), k);
  }

  /** Discharging the patient at index `k` keeps the census. */
  lemma DischargeKeepsCensus(ws: seq<Ward>, ps: seq<Patient>, k: int, now: int)
    requires WardIdsUnique(ws) && !HasWard(ws, "") && PatientIdsUnique(ps)
    requires BedsMatchCensus(ws, ps)
    requires 0 <= k < |ps|
    ensures BedsMatchCensus(WardsAfterLeave(ws, FindPatient(ps, ps[k].id), Accept),
                            ReplaceWhere(ps, PatientIdIs(ps[k].id), DischargedRecord(ps[k], now)))
  {
    var id := ps[k].id;
    var q := DischargedRecord(ps[k], now);
    FindPatientAt(ps, k);
    ReplaceOnlyAt(ps, PatientIdIs(id), q, k);
    var ps' := ps[k := q];
    forall w ensures Census(ps', w) == Census(ps, w) - (if ActiveIn(w)(ps[k]) then 1 else 0) {
      CensusUpdate(ps, k, q, w);
    }
    if HoldsBed(ps[k]) {
      BedCountFollowsCensus(ws, ps, ps', ps[k].info.wardId, false);
    } else {
      forall i | 0 <= i < |ws| ensures Census(ps', ws[i].id) == Census(ps, ws[i].id) {
        assert ws[i].id != "";
      }
    }
  }

  /** The edits after which the bed rule of `updatePatient` still matches the census:
      a patient who held a bed does not go to `Discharged` while changing ward, and
      an edit that keeps the ward does not change whether the patient is active. */
  predicate EditKeepsActivity(prior: Patient, info: PatientInfo)
  {
    (prior.info.wardId != info.wardId && !IsActive(info.status) ==> !HoldsBed(prior)) &&
    (prior.info.wardId == info.wardId && prior.info.wardId != "" ==> IsActive(prior.info.status) == IsActive(info.status))
  }

  /** A ward move or a status change that keeps the activity keeps the census. */
  lemma EditKeepsCensus(ws: seq<Ward>, ps: seq<Patient>, k: int, info: PatientInfo)
    requires WardIdsUnique(ws) && !HasWard(ws, "") && PatientIdsUnique(ps)
    requires BedsMatchCensus(ws, ps)
    requires 0 <= k < |ps| && EditKeepsActivity(ps[k], info)
    ensures BedsMatchCensus(WardsAfterEdit(ws, ps[k], info, Accept, Accept),
                            ReplaceWhere(ps, PatientIdIs(ps[k].id), ps[k].(info := info)))
  {
    var prior := ps[k];
    var q := prior.(info := info);
    ReplaceOnlyAt(ps, PatientIdIs(prior.id), q, k);
    var ps' := ps[k := q];
    if EditMoves(prior, info) {
      MoveKeepsCensus(ws, ps, k, info);
    } else {
      forall w ensures Census(ps', w) == Census(ps, w) - (if ActiveIn(w)(prior) then 1 else 0) + (if ActiveIn(w)(q) then 1 else 0) {
        CensusUpdate(ps, k, q, w);
      }
      forall i | 0 <= i < |ws| ensures Census(ps', ws[i].id) == Census(ps, ws[i].id) {
        assert ws[i].id != "";
      }
    }
  }

  /** A move between wards: the prior ward releases the bed first, then the new
      ward takes it, each step following the census. */
  lemma MoveKeepsCensus(ws: seq<Ward>, ps: seq<Patient>, k: int, info: PatientInfo)
    requires WardIdsUnique(ws) && !HasWard(ws, "") && PatientIdsUnique(ps)
    requires BedsMatchCensus(ws, ps)
    requires 0 <= k < |ps| && EditKeepsActivity(ps[k], info) && EditMoves(ps[k], info)
    ensures BedsMatchCensus(WardsAfterEdit(ws, ps[k], info, Accept, Accept), ps[k := ps[k].(info := info)])
  {
    var prior := ps[k];
    var mid := ps[k := Gone(prior)];
    ReleaseFollowsCensus(ws, ps, k, info);
    var released := if EditReleases(prior, info) then AfterBedCount(ws, prior.info.wardId, false, Accept) else ws;
    AfterBedCountKeepsIds(ws, prior.info.wardId, false, Accept);
    assert mid[k] == Gone(prior);
    TakeFollowsCensus(released, mid, k, prior, info);
    assert WardsAfterEdit(ws, prior, info, Accept, Accept) ==
      if EditTakes(prior, info) then AfterBedCount(released, info.wardId, true, Accept) else released;
    assert mid[k := prior.(info := info)] == ps[k := prior.(info := info)];
  }

  /** A patient record that holds no bed anywhere. */
  function Gone(p: Patient): Patient
  {
    p.(info := p.info.(status := PatientStatus.Discharged))
  }

  /** Releasing the prior bed follows the patient leaving the census. */
  lemma ReleaseFollowsCensus(ws: seq<Ward>, ps: seq<Patient>, k: int, info: PatientInfo)
    requires WardIdsUnique(ws) && !HasWard(ws, "")
    requires BedsMatchCensus(ws, ps)
    requires 0 <= k < |ps| && EditMoves(ps[k], info)
    ensures BedsMatchCensus(if EditReleases(ps[k], info) then AfterBedCount(ws, ps[k].info.wardId, false, Accept) else ws,
                            ps[k := Gone(ps[k])])
  {
    var prior := ps[k];
    var mid := ps[k := Gone(prior)];
    forall w ensures Census(mid, w) == Census(ps, w) - (if ActiveIn(w)(prior) then 1 else 0) {
      CensusUpdate(ps, k, Gone(prior), w);
    }
    if EditReleases(prior, info) {
      BedCountFollowsCensus(ws, ps, mid, prior.info.wardId, false);
    } else {
      forall i | 0 <= i < |ws| ensures Census(mid, ws[i].id) == Census(ps, ws[i].id) {
        assert ws[i].id != "";
      }
    }
  }

  /** Taking the new bed follows the patient entering the census. */
  lemma TakeFollowsCensus(ws: seq<Ward>, mid: seq<Patient>, k: int, prior: Patient, info: PatientInfo)
    requires WardIdsUnique(ws) && !HasWard(ws, "")
    requires BedsMatchCensus(ws, mid)
    requires 0 <= k < |mid| && mid[k] == Gone(prior)
    requires EditKeepsActivity(prior, info) && EditMoves(prior, info)
    ensures BedsMatchCensus(if EditTakes(prior, info) then AfterBedCount(ws, info.wardId, true, Accept) else ws,
                            mid[k := prior.(info := info)])
  {
    var q := prior.(info := info);
    var ps' := mid[k := q];
    forall w ensures Census(ps', w) == Census(mid, w) + (if ActiveIn(w)(q) then 1 else 0) {
      CensusUpdate(mid, k, q, w);
    }
    if EditTakes(prior, info) {
      BedCountFollowsCensus(ws, mid, ps', info.wardId, true);
    } else {
      forall i | 0 <= i < |ws| ensures Census(ps', ws[i].id) == Census(mid, ws[i].id) {
        assert ws[i].id != "";
      }
    }
  }

  /** The gap this rule leaves: re-admitting a discharged patient by editing the
      status while keeping the ward takes no bed, so the ward's count falls one
      behind its census. */
  lemma ReadmissionInSameWardTakesNoBed(w: Ward, prior: Patient)
    requires prior.info.wardId == w.id && prior.info.status == PatientStatus.Discharged
    requires w.info.occupiedBeds == 0
    ensures BedsMatchCensus([w], [prior])
    ensures WardsAfterEdit([w], prior, prior.info.(status := Admitted), Accept, Accept) == [w]
    ensures !BedsMatchCensus([w], [prior.(info := prior.info.(status := Admitted))])
  {
    var readmitted := prior.(info := prior.info.(status := Admitted));
    assert [prior][1..] == [] && [readmitted][1..] == [];
    assert !ActiveIn(w.id)(prior) && ActiveIn(w.id)(readmitted);
    assert Census([prior], w.id) == 0;
    assert Census([readmitted], w.id) == 1;
    assert [w][0].info.occupiedBeds != Census([readmitted], [w][0].id);
  }

  /** The second gap: discharging a patient by editing the status while keeping the
      ward releases no bed, so the ward's count stays one ahead of its census. */
  lemma DischargeInSameWardKeepsBed(w: Ward, prior: Patient)
    requires prior.info.wardId == w.id && IsActive(prior.info.status)
    requires w.info.occupiedBeds == 1
    ensures BedsMatchCensus([w], [prior])
    ensures WardsAfterEdit([w], prior, prior.info.(status := PatientStatus.Discharged), Accept, Accept) == [w]
    ensures !BedsMatchCensus([w], [prior.(info := prior.info.(status := PatientStatus.Discharged))])
  {
    var discharged := prior.(info := prior.info.(status := PatientStatus.Discharged));
    assert [prior][1..] == [] && [discharged][1..] == [];
    assert ActiveIn(w.id)(prior) && !ActiveIn(w.id)(discharged);
    assert Census([prior], w.id) == 1;
    assert Census([discharged], w.id) == 0;
    assert [w][0].info.occupiedBeds != Census([discharged], [w][0].id);
  }

  /** The third gap: moving a patient who holds a bed to another ward with the
      status `Discharged` makes no bed call, so the old ward keeps the bed. */
  lemma DischargedMoveKeepsBed(w: Ward, v: Ward, prior: Patient)
    requires prior.info.wardId == w.id && w.id != "" && IsActive(prior.info.status)
    requires v.id != w.id && w.info.occupiedBeds == 1 && v.info.occupiedBeds == 0
    ensures BedsMatchCensus([w, v], [prior])
    ensures WardsAfterEdit([w, v], prior, prior.info.(wardId := v.id, status := PatientStatus.Discharged), Accept, Accept) == [w, v]
    ensures !BedsMatchCensus([w, v], [prior.(info := prior.info.(wardId := v.id, status := PatientStatus.Discharged))])
  {
    var moved := prior.(info := prior.info.(wardId := v.id, status := PatientStatus.Discharged));
    assert [prior][1..] == [] && [moved][1..] == [];
    assert ActiveIn(w.id)(prior) && !ActiveIn(v.id)(prior);
    assert !ActiveIn(w.id)(moved) && !ActiveIn(v.id)(moved);
    assert Census([prior], w.id) == 1 && Census([prior], v.id) == 0;
    assert Census([moved], w.id) == 0;
    assert [w, v][0].info.occupiedBeds != Census([moved], [w, v][0].id);
  }

  // ----- The store ---------------------------------------------------------------

  /** Replacing the patient with an id by a record with the same id keeps the
      ids unique. */
  lemma ReplaceKeepsPatientIds(ps: seq<Patient>, id: string, q: Patient)
    requires PatientIdsUnique(ps) && q.id == id
    ensures PatientIdsUnique(ReplaceWhere(ps, PatientIdIs(id), q))
  {
    var r := ReplaceWhere(ps, PatientIdIs(id), q);
    assert forall i :: 0 <= i < |ps| ==> r[i].id == ps[i].id;
  }

  class AppStore {
    var wards: seq<Ward>
    var patients: seq<Patient>
    var staff: seq<StaffMember>
    var patientForms: seq<SavedForm>
    var otForms: seq<SavedForm>

    /** Every list holds each id once; no ward has the empty id that stands for
        "no ward". */
    predicate Valid()
      reads this
    {
      WardIdsUnique(wards) && !HasWard(wards, "") && PatientIdsUnique(patients) &&
      StaffIdsUnique(staff) && FormIdsUnique(patientForms) && FormIdsUnique(otForms)
    }

    constructor ()
      ensures Valid()
      ensures wards == [] && patients == [] && staff == [] && patientForms == [] && otForms == []
    {
      wards := [];
      patients := [];
      staff := [];
      patientForms := [];
      otForms := [];
    }

    /** `updateWardBedCount(wardId, increment)`. */
    method UpdateWardBedCount(wardId: string, increment: bool, remote: Remote) returns (r: Reply<()>)
      requires Valid()
      modifies this
      ensures Valid()
      ensures r == BedCountReply(old(wards), wardId, remote)
      ensures wards == AfterBedCount(old(wards), wardId, increment, remote)
      ensures patients == old(patients) && staff == old(staff)
      ensures patientForms == old(patientForms) && otForms == old(otForms)
    {
      var found := Find(wards, WardIdIs(wardId));
      if remote.Reject? {
        return Err(remote.message);
      }
      if found.None? {
        return Err(NotFound);
      }
      var changed := Ward(wardId, Bump(found.value.info, increment));
      wards := ReplaceWhere(wards, WardIdIs(wardId), changed);
      r := Ok(());
    }

    /** `addWard`: the new row is appended. */
    method AddWard(info: WardInfo, newId: string, remote: Remote) returns (r: Reply<Ward>)
      requires Valid() && newId != "" && !HasWard(wards, newId)
      modifies this
      ensures Valid()
      ensures remote.Reject? ==> r == Err(remote.message) && wards == old(wards)
      ensures remote.Accept? ==> r == Ok(Ward(newId, info)) && wards == old(wards) + [Ward(newId, info)]
      ensures patients == old(patients) && staff == old(staff)
      ensures patientForms == old(patientForms) && otForms == old(otForms)
    {
      if remote.Reject? {
        return Err(remote.message);
      }
      var w := Ward(newId, info);
      assert forall i :: 0 <= i < |wards| ==> wards[i].id != newId;
      wards := wards + [w];
      r := Ok(w);
    }

    /** `updateWard`: the row with the id takes the submitted fields. */
    method UpdateWard(id: string, info: WardInfo, remote: Remote) returns (r: Reply<Ward>)
      requires Valid()
      modifies this
      ensures Valid()
      ensures remote.Reject? ==> r == Err(remote.message) && wards == old(wards)
      ensures remote.Accept? && !HasWard(old(wards), id) ==> r == Err(NotFound) && wards == old(wards)
      ensures remote.Accept? && HasWard(old(wards), id) ==>
        r == Ok(Ward(id, info)) && wards == ReplaceWhere(old(wards), WardIdIs(id), Ward(id, info))
      ensures patients == old(patients) && staff == old(staff)
      ensures patientForms == old(patientForms) && otForms == old(otForms)
    {
      if remote.Reject? {
        return Err(remote.message);
      }
      if !HasWard(wards, id) {
        return Err(NotFound);
      }
      var w := Ward(id, info);
      wards := ReplaceWhere(wards, WardIdIs(id), w);
      r := Ok(w);
    }

    /** `deleteWard`: every row with the id is dropped; a missing id is no error. */
    method DeleteWard(id: string, remote: Remote) returns (r: Reply<()>)
      requires Valid()
      modifies this
      ensures Valid()
      ensures remote.Reject? ==> r == Err(remote.message) && wards == old(wards)
      ensures remote.Accept? ==> r == Ok(()) && wards == Filter(old(wards), WardIdIsNot(id))
      ensures patients == old(patients) && staff == old(staff)
      ensures patientForms == old(patientForms) && otForms == old(otForms)
    {
      if remote.Reject? {
        return Err(remote.message);
      }
      FilterMembers(wards, WardIdIsNot(id));
      FilterKeepsDistinct(wards, WardIdIsNot(id), (w: Ward) => w.id);
      wards := Filter(wards, WardIdIsNot(id));
      r := Ok(());
    }

    /** `addPatient`: the row is inserted with the admission time, the patient's ward
        gains a bed when it is active and has one, and the record goes first. The
        outcome of the bed-count call does not change the reply. */
    method AddPatient(info: PatientInfo, newId: string, now: int, insert: Remote, bed: Remote)
      returns (r: Reply<Patient>)
      requires Valid() && !HasPatient(patients, newId)
      modifies this
      ensures Valid()
      ensures insert.Reject? ==> r == Err(insert.message) && wards == old(wards) && patients == old(patients)
      ensures insert.Accept? ==>
        var p := Patient(newId, info, now, None);
        r == Ok(p) && patients == [p] + old(patients) &&
        wards == WardsAfterAdmit(old(wards), info, bed)
      ensures staff == old(staff) && patientForms == old(patientForms) && otForms == old(otForms)
    {
      if insert.Reject? {
        return Err(insert.message);
      }
      var p := Patient(newId, info, now, None);
      if info.status != PatientStatus.Discharged && info.wardId != "" {
        var _ := UpdateWardBedCount(info.wardId, true, bed);
      }
      patients := [p] + patients;
      r := Ok(p);
    }

    /** `updatePatient`: the row takes the submitted fields; when the ward changes and
        the new status is active, the prior ward releases a bed (if the patient held
        one) and the new ward takes one (if set). */
    method UpdatePatient(id: string, info: PatientInfo, remote: Remote, dec: Remote, inc: Remote)
      returns (r: Reply<Patient>)
      requires Valid()
      modifies this
      ensures Valid()
      ensures remote.Reject? ==> r == Err(remote.message) && wards == old(wards) && patients == old(patients)
      ensures remote.Accept? && !HasPatient(old(patients), id) ==>
        r == Err(NotFound) && wards == old(wards) && patients == old(patients)
      ensures remote.Accept? && HasPatient(old(patients), id) ==>
        var before := FindPatient(old(patients), id).value;
        var q := before.(info := info);
        r == Ok(q) && patients == ReplaceWhere(old(patients), PatientIdIs(id), q) &&
        wards == WardsAfterEdit(old(wards), before, info, dec, inc)
      ensures staff == old(staff) && patientForms == old(patientForms) && otForms == old(otForms)
    {
      var before := FindPatient(patients, id);
      if remote.Reject? {
        return Err(remote.message);
      }
      if before.None? {
        return Err(NotFound);
      }
      var p := before.value;
      var q := p.(info := info);
      MoveBed(p, info, dec, inc);
      ReplaceKeepsPatientIds(patients, id, q);
      patients := ReplaceWhere(patients, PatientIdIs(id), q);
      r := Ok(q);
    }

    /** The bed moves of `updatePatient`: on a change of ward to an active status,
        the prior ward releases the patient's bed, then the new ward takes one. */
    method MoveBed(p: Patient, info: PatientInfo, dec: Remote, inc: Remote)
      requires Valid()
      modifies this
      ensures Valid()
      ensures wards == WardsAfterEdit(old(wards), p, info, dec, inc)
      ensures patients == old(patients) && staff == old(staff)
      ensures patientForms == old(patientForms) && otForms == old(otForms)
    {
      ghost var start := wards;
      if p.info.wardId != info.wardId && info.status != PatientStatus.Discharged {
        if p.info.wardId != "" && p.info.status != PatientStatus.Discharged {
          var _ := UpdateWardBedCount(p.info.wardId, false, dec);
        }
        assert wards == if EditReleases(p, info) then AfterBedCount(start, p.info.wardId, false, dec) else start;
        if info.wardId != "" {
          var _ := UpdateWardBedCount(info.wardId, true, inc);
        }
      }
    }

    /** The bed release of `deletePatient` and `dischargePatient`: only a patient
        with a ward who is not yet discharged gives a bed back. */
    method ReleaseBed(p: Option<Patient>, bed: Remote)
      requires Valid()
      modifies this
      ensures Valid()
      ensures wards == WardsAfterLeave(old(wards), p, bed)
      ensures patients == old(patients) && staff == old(staff)
      ensures patientForms == old(patientForms) && otForms == old(otForms)
    {
      if p.Some? && p.value.info.wardId != "" && p.value.info.status != PatientStatus.Discharged {
        var _ := UpdateWardBedCount(p.value.info.wardId, false, bed);
      }
    }

    /** `deletePatient`: the row is removed, a missing id included; the ward releases
        the bed the patient held. */
    method DeletePatient(id: string, remote: Remote, bed: Remote) returns (r: Reply<()>)
      requires Valid()
      modifies this
      ensures Valid()
      ensures remote.Reject? ==> r == Err(remote.message) && wards == old(wards) && patients == old(patients)
      ensures remote.Accept? ==>
        r == Ok(()) && patients == Filter(old(patients), PatientIdIsNot(id)) &&
        wards == WardsAfterLeave(old(wards), FindPatient(old(patients), id), bed)
      ensures staff == old(staff) && patientForms == old(patientForms) && otForms == old(otForms)
    {
      var p := FindPatient(patients, id);
      if remote.Reject? {
        return Err(remote.message);
      }
      ReleaseBed(p, bed);
      FilterKeepsDistinct(patients, PatientIdIsNot(id), (p: Patient) => p.id);
      patients := Filter(patients, PatientIdIsNot(id));
      r := Ok(());
    }

    /** `dischargePatient`: the row gets status `Discharged` and the discharge time; the
        ward releases a bed only if the patient had one and was not yet discharged. */
    method DischargePatient(id: string, now: int, remote: Remote, bed: Remote) returns (r: Reply<Patient>)
      requires Valid()
      modifies this
      ensures Valid()
      ensures remote.Reject? ==> r == Err(remote.message) && wards == old(wards) && patients == old(patients)
      ensures remote.Accept? && !HasPatient(old(patients), id) ==>
        r == Err(NotFound) && wards == old(wards) && patients == old(patients)
      ensures remote.Accept? && HasPatient(old(patients), id) ==>
        var before := FindPatient(old(patients), id);
        var q := DischargedRecord(before.value, now);
        r == Ok(q) && patients == ReplaceWhere(old(patients), PatientIdIs(id), q) &&
        wards == WardsAfterLeave(old(wards), before, bed)
      ensures staff == old(staff) && patientForms == old(patientForms) && otForms == old(otForms)
    {
      var p := FindPatient(patients, id);
      if remote.Reject? {
        return Err(remote.message);
      }
      if p.None? {
        return Err(NotFound);
      }
      var q := DischargedRecord(p.value, now);
      ReleaseBed(p, bed);
      ReplaceKeepsPatientIds(patients, id, q);
      patients := ReplaceWhere(patients, PatientIdIs(id), q);
      r := Ok(q);
    }

    /** `addStaff`: the new member is appended. */
    method AddStaff(info: StaffInfo, newId: string, remote: Remote) returns (r: Reply<StaffMember>)
      requires Valid() && !HasStaff(staff, newId)
      modifies this
      ensures Valid()
      ensures remote.Reject? ==> r == Err(remote.message) && staff == old(staff)
      ensures remote.Accept? ==>
        r == Ok(StaffMember(newId, info)) && staff == old(staff) + [StaffMember(newId, info)]
      ensures wards == old(wards) && patients == old(patients)
      ensures patientForms == old(patientForms) && otForms == old(otForms)
    {
      if remote.Reject? {
        return Err(remote.message);
      }
      var m := StaffMember(newId, info);
      assert forall i :: 0 <= i < |staff| ==> staff[i].id != newId;
      staff := staff + [m];
      r := Ok(m);
    }

    /** `updateStaff`: the member with the id takes the submitted fields. */
    method UpdateStaff(id: string, info: StaffInfo, remote: Remote) returns (r: Reply<StaffMember>)
      requires Valid()
      modifies this
      ensures Valid()
      ensures remote.Reject? ==> r == Err(remote.message) && staff == old(staff)
      ensures remote.Accept? && !HasStaff(old(staff), id) ==> r == Err(NotFound) && staff == old(staff)
      ensures remote.Accept? && HasStaff(old(staff), id) ==>
        r == Ok(StaffMember(id, info)) && staff == ReplaceWhere(old(staff), StaffIdIs(id), StaffMember(id, info))
      ensures wards == old(wards) && patients == old(patients)
      ensures patientForms == old(patientForms) && otForms == old(otForms)
    {
      if remote.Reject? {
        return Err(remote.message);
      }
      if !HasStaff(staff, id) {
        return Err(NotFound);
      }
      var m := StaffMember(id, info);
      staff := ReplaceWhere(staff, StaffIdIs(id), m);
      r := Ok(m);
    }

    /** `deleteStaff`: every member with the id is dropped; a missing id is no error. */
    method DeleteStaff(id: string, remote: Remote) returns (r: Reply<()>)
      requires Valid()
      modifies this
      ensures Valid()
      ensures remote.Reject? ==> r == Err(remote.message) && staff == old(staff)
      ensures remote.Accept? ==> r == Ok(()) && staff == Filter(old(staff), StaffIdIsNot(id))
      ensures wards == old(wards) && patients == old(patients)
      ensures patientForms == old(patientForms) && otForms == old(otForms)
    {
      if remote.Reject? {
        return Err(remote.message);
      }
      FilterKeepsDistinct(staff, StaffIdIsNot(id), (m: StaffMember) => m.id);
      staff := Filter(staff, StaffIdIsNot(id));
      r := Ok(());
    }

    /** `addPatientForm`: the saved form goes first in the patient-form list. */
    method AddPatientForm(info: FormInfo, newId: string, remote: Remote) returns (r: Reply<SavedForm>)
      requires Valid() && !HasForm(patientForms, newId)
      modifies this
      ensures Valid()
      ensures remote.Reject? ==> r == Err(remote.message) && patientForms == old(patientForms)
      ensures remote.Accept? ==>
        r == Ok(SavedForm(newId, info)) && patientForms == [SavedForm(newId, info)] + old(patientForms)
      ensures wards == old(wards) && patients == old(patients) && staff == old(staff) && otForms == old(otForms)
    {
      if remote.Reject? {
        return Err(remote.message);
      }
      var f := SavedForm(newId, info);
      patientForms := [f] + patientForms;
      r := Ok(f);
    }

    /** `addOtForm`: the saved form goes first in the operating-theatre form list. */
    method AddOtForm(info: FormInfo, newId: string, remote: Remote) returns (r: Reply<SavedForm>)
      requires Valid() && !HasForm(otForms, newId)
      modifies this
      ensures Valid()
      ensures remote.Reject? ==> r == Err(remote.message) && otForms == old(otForms)
      ensures remote.Accept? ==>
        r == Ok(SavedForm(newId, info)) && otForms == [SavedForm(newId, info)] + old(otForms)
      ensures wards == old(wards) && patients == old(patients) && staff == old(staff)
      ensures patientForms == old(patientForms)
    {
      if remote.Reject? {
        return Err(remote.message);
      }
      var f := SavedForm(newId, info);
      otForms := [f] + otForms;
      r := Ok(f);
    }
  }
}
