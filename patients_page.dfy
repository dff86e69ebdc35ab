/** The patient page: the add and edit form with its submission, the transfer
    request it files, where a filled-in form is saved, the patient list filter and
    which actions each patient offers. */
module PatientsPage {

  import opened Collections
  import opened Text
  import opened Records
  import opened Store
  import opened WardTransfers

  /** The add / edit form; the age is the text of its input. */
  datatype PatientForm = PatientForm(
    name: string,
    age: string,
    gender: string,
    wardId: string,
    bedNumber: string,
    diagnosis: string,
    status: PatientStatus,
    doctor: string,
    emergencyContact: string,
    bloodGroup: string)

  /** The form a new patient starts from. */
  const NewPatientForm := PatientForm("", "", "Male", "", "", "", Admitted, "", "", "")

  /** The statuses the status input offers: a patient is never added or edited into
      `Discharged`. */
  const StatusChoices := [Admitted, Critical, Stable, Recovering]

  /** The choices are exactly the statuses that hold a bed. */
  lemma ChoicesAreActive(s: PatientStatus)
    ensures s in StatusChoices <==> IsActive(s)
  {
  }

  /** The statuses the list filter offers; `None` is `All`. */
  const FilterOptions: seq<Option<PatientStatus>> :=
    [None, Some(Admitted), Some(Critical), Some(Stable), Some(Recovering), Some(PatientStatus.Discharged)]

  /** The text an age shows as in the input; a missing age shows as nothing. */
  function AgeText(age: Option<int>): string
  {
    if age.Some? then IntToString(age.value) else ""
  }

  /** `handleOpenModal(patient)`: the form shows the patient's own fields. */
  function PrefillPatient(p: Patient): (f: PatientForm)
    ensures f.name == p.info.name && f.wardId == p.info.wardId && f.status == p.info.status
    ensures f.age == AgeText(p.info.age)
  {
    var i := p.info;
    PatientForm(i.name, AgeText(i.age), i.gender, i.wardId, i.bedNumber, i.diagnosis, i.status,
      i.doctor, i.emergencyContact, i.bloodGroup)
  }

  /** `{ ...formData, age: parseInt(formData.age) }`: an age that is not a number is
      sent as `NaN`, written `None`. */
  function SubmittedInfo(f: PatientForm): (info: PatientInfo)
    ensures info.name == f.name && info.wardId == f.wardId && info.status == f.status
  {
    PatientInfo(f.name, ParseInt(f.age), f.gender, f.wardId, f.bedNumber, f.diagnosis, f.status,
      f.doctor, f.emergencyContact, f.bloodGroup)
  }

  /** Opening a patient for editing and saving it untouched sends the patient's own
      record back, age included. */
  lemma PrefillRoundTrip(p: Patient)
    ensures SubmittedInfo(PrefillPatient(p)) == p.info
  {
    if p.info.age.Some? {
      ParseIntOfIntToString(p.info.age.value);
    }
  }

  /** An input's change (`[e.target.name]: e.target.value`). */
  datatype PatientEdit =
    | SetName(name: string)
    | SetAge(age: string)
    | SetGender(gender: string)
    | SetWardId(wardId: string)
    | SetBedNumber(bedNumber: string)
    | SetDiagnosis(diagnosis: string)
    | SetStatus(status: PatientStatus)
    | SetDoctor(doctor: string)
    | SetEmergencyContact(emergencyContact: string)
    | SetBloodGroup(bloodGroup: string)

  function ApplyEdit(f: PatientForm, e: PatientEdit): (r: PatientForm)
    ensures e.SetStatus? ==> r.status == e.status
    ensures !e.SetStatus? ==> r.status == f.status
    ensures e.SetWardId? ==> r.wardId == e.wardId
    ensures !e.SetWardId? ==> r.wardId == f.wardId
  {
    match e
    case SetName(x) => f.(name := x)
    case SetAge(x) => f.(age := x)
    case SetGender(x) => f.(gender := x)
    case SetWardId(x) => f.(wardId := x)
    case SetBedNumber(x) => f.(bedNumber := x)
    case SetDiagnosis(x) => f.(diagnosis := x)
    case SetStatus(x) => f.(status := x)
    case SetDoctor(x) => f.(doctor := x)
    case SetEmergencyContact(x) => f.(emergencyContact := x)
    case SetBloodGroup(x) => f.(bloodGroup := x)
  }

  /** An edit the form's inputs can produce: a status comes from the choices, which
      are the statuses that hold a bed. */
  predicate Offered(e: PatientEdit)
  {
    e.SetStatus? ==> IsActive(e.status)
  }

  /** The calls the page makes into the store. */
  datatype PatientCall = AddPatientCall(info: PatientInfo) | UpdatePatientCall(id: string, info: PatientInfo)

  /** The transfer modal's own fields. */
  datatype TransferDetails = TransferDetails(
    toWardId: string,
    toBedNumber: string,
    transferReason: string,
    transferredBy: string,
    transferredByRole: string,
    notes: string)

  const NewTransferDetails := TransferDetails("", "", "", "", "Nurse", "")

  /** `transferData`: a pending request from where the patient lies now to where the
      modal says. */
  function TransferRequest(p: Patient, d: TransferDetails): (t: TransferForm)
    ensures t.patientId == p.id && t.status == "Pending"
    ensures t.fromWardId == p.info.wardId && t.fromBedNumber == p.info.bedNumber
    ensures t.toWardId == d.toWardId && t.toBedNumber == d.toBedNumber
    ensures t.transferReason == d.transferReason && t.notes == d.notes
    ensures t.transferredBy == d.transferredBy && t.transferredByRole == d.transferredByRole
  {
    TransferForm(p.id, p.info.wardId, d.toWardId, p.info.bedNumber, d.toBedNumber, d.transferReason,
      d.transferredBy, d.transferredByRole, "Pending", d.notes)
  }

  /** The request a patient's transfer modal files is the one the ward transfer page
      files after selecting that patient and typing the same details. */
  lemma TransferRequestMatchesTransferPage(patients: seq<Patient>, k: int, d: TransferDetails)
    requires PatientIdsUnique(patients) && 0 <= k < |patients| && patients[k].id != ""
    ensures var f0 := AfterChange(NewTransferForm, PatientIdField, patients[k].id, patients);
      var f1 := AfterChange(f0, ToWardIdField, d.toWardId, patients);
      var f2 := AfterChange(f1, ToBedNumberField, d.toBedNumber, patients);
      var f3 := AfterChange(f2, TransferReasonField, d.transferReason, patients);
      var f4 := AfterChange(f3, TransferredByField, d.transferredBy, patients);
      var f5 := AfterChange(f4, TransferredByRoleField, d.transferredByRole, patients);
      AfterChange(f5, NotesField, d.notes, patients) == TransferRequest(patients[k], d)
  {
    SelectionSnapshotsPatient(NewTransferForm, patients, [], k);
  }

  datatype PatientAction = Forms | Transfer | Discharge | EditPatient | DeletePatient

  /** The buttons a patient's row shows. */
  function OfferedPatientActions(p: Patient): (r: set<PatientAction>)
    ensures Forms in r && EditPatient in r && DeletePatient in r
    ensures Transfer in r <==> p.info.status != PatientStatus.Discharged
    ensures Discharge in r <==> p.info.status != PatientStatus.Discharged
  {
    {Forms, EditPatient, DeletePatient} +
    (if p.info.status != PatientStatus.Discharged then {Transfer, Discharge} else {})
  }

  /** Every discharge the list offers frees the patient's bed when they hold one. */
  lemma OfferedDischargeFreesBed(ws: seq<Ward>, p: Patient, now: int)
    requires Discharge in OfferedPatientActions(p) && p.info.wardId != ""
    ensures HoldsBed(p)
    ensures Count([DischargedRecord(p, now)], ActiveIn(p.info.wardId)) == 0
  {
  }

  /** `filteredPatients`: the term is looked for in the name and the diagnosis. */
  predicate PatientMatchesSearch(p: Patient, term: string)
  {
    MatchesTerm(p.info.name, term) || MatchesTerm(p.info.diagnosis, term)
  }

  function KeepPatient(term: string, status: Option<PatientStatus>): Patient -> bool
  {
    (p: Patient) => PatientMatchesSearch(p, term) && (status.None? || p.info.status == status.value)
  }

  function FilteredPatients(patients: seq<Patient>, term: string, status: Option<PatientStatus>): seq<Patient>
  {
    Filter(patients, KeepPatient(term, status))
  }

  lemma FilteredPatientsExact(patients: seq<Patient>, term: string, status: Option<PatientStatus>)
    ensures IsSubsequence(FilteredPatients(patients, term, status), patients)
    ensures forall i :: 0 <= i < |patients| ==>
      (patients[i] in FilteredPatients(patients, term, status) <==>
        PatientMatchesSearch(patients[i], term) && (status.None? || patients[i].info.status == status.value))
  {
    FilterExact(patients, KeepPatient(term, status));
  }

  /** Filtering by a status lists only patients in it, so the `Discharged` filter
      lists exactly the discharged patients matching the term. */
  lemma StatusFilterIsExact(patients: seq<Patient>, term: string, s: PatientStatus)
    ensures forall i :: 0 <= i < |FilteredPatients(patients, term, Some(s))| ==>
      FilteredPatients(patients, term, Some(s))[i].info.status == s
  {
  }

  /** The forms the forms modal lists as already filled in: the patient forms, then
      the operating-theatre forms. */
  function ExistingForms(patientForms: seq<SavedForm>, otForms: seq<SavedForm>): (r: seq<SavedForm>)
    ensures |r| == |patientForms| + |otForms|
    ensures r[..|patientForms|] == patientForms && r[|patientForms|..] == otForms
  {
    patientForms + otForms
  }

  /** `handleSaveForm`: a form whose type is `OT` goes to the operating-theatre
      forms, every other one to the patient forms. */
  method HandleSaveForm(store: AppStore, info: FormInfo, newId: string, remote: Remote)
    returns (r: Reply<SavedForm>)
    requires store.Valid() && !HasForm(store.otForms, newId) && !HasForm(store.patientForms, newId)
    modifies store
    ensures store.Valid()
    ensures r == (if remote.Accept? then Ok(SavedForm(newId, info)) else Err(remote.message))
    ensures info.formType == "OT" && remote.Accept? ==>
      store.otForms == [SavedForm(newId, info)] + old(store.otForms) && store.patientForms == old(store.patientForms)
    ensures info.formType != "OT" && remote.Accept? ==>
      store.patientForms == [SavedForm(newId, info)] + old(store.patientForms) && store.otForms == old(store.otForms)
    ensures remote.Reject? ==> store.otForms == old(store.otForms) && store.patientForms == old(store.patientForms)
    ensures store.wards == old(store.wards) && store.patients == old(store.patients) && store.staff == old(store.staff)
  {
    if info.formType == "OT" {
      r := store.AddOtForm(info, newId, remote);
    } else {
      r := store.AddPatientForm(info, newId, remote);
    }
  }

  /** The add / edit modal and the transfer modal of the patient page. */
  class PatientsPage {
    var formData: PatientForm
    var editingPatient: Option<Patient>
    var isModalOpen: bool
    var transferFormData: TransferDetails
    var selectedPatientForTransfer: Option<Patient>
    var isTransferModalOpen: bool

    /** While a new patient is being entered, the form holds a status from the
        choices. */
    predicate Valid()
      reads this
    {
      isModalOpen && editingPatient.None? ==> IsActive(formData.status)
    }

    constructor ()
      ensures Valid()
      ensures formData == NewPatientForm && editingPatient.None? && !isModalOpen
      ensures transferFormData == NewTransferDetails && selectedPatientForTransfer.None? && !isTransferModalOpen
    {
      formData := NewPatientForm;
      editingPatient := None;
      isModalOpen := false;
      transferFormData := NewTransferDetails;
      selectedPatientForTransfer := None;
      isTransferModalOpen := false;
    }

    /** `handleOpenModal`: prefilled from a patient to edit, blank otherwise. */
    method OpenModal(patient: Option<Patient>)
      modifies this
      ensures Valid()
      ensures isModalOpen && editingPatient == patient
      ensures patient.Some? ==> formData == PrefillPatient(patient.value)
      ensures patient.None? ==> formData == NewPatientForm
      ensures transferFormData == old(transferFormData)
      ensures selectedPatientForTransfer == old(selectedPatientForTransfer)
      ensures isTransferModalOpen == old(isTransferModalOpen)
    {
      editingPatient := patient;
      if patient.Some? {
        formData := PrefillPatient(patient.value);
      } else {
        formData := NewPatientForm;
      }
      isModalOpen := true;
    }

    /** `handleCloseModal`. */
    method CloseModal()
      modifies this
      ensures Valid()
      ensures !isModalOpen && editingPatient.None? && formData == old(formData)
      ensures transferFormData == old(transferFormData)
      ensures selectedPatientForTransfer == old(selectedPatientForTransfer)
      ensures isTransferModalOpen == old(isTransferModalOpen)
    {
      isModalOpen := false;
      editingPatient := None;
    }

    /** `handleChange`. */
    method HandleChange(e: PatientEdit)
      requires Valid() && Offered(e)
      modifies this
      ensures Valid()
      ensures formData == ApplyEdit(old(formData), e)
      ensures editingPatient == old(editingPatient) && isModalOpen == old(isModalOpen)
      ensures transferFormData == old(transferFormData)
      ensures selectedPatientForTransfer == old(selectedPatientForTransfer)
      ensures isTransferModalOpen == old(isTransferModalOpen)
    {
      formData := ApplyEdit(formData, e);
    }

    /** `handleSubmit`: an edit goes to `updatePatient`, a new patient to `addPatient`,
        which then takes a bed exactly when a ward was chosen; the modal closes when
        the store accepts. */
    method Submit(outcome: Remote) returns (call: PatientCall)
      requires Valid()
      modifies this
      ensures Valid()
      ensures outcome.Accept? ==> editingPatient.None?
      ensures outcome.Reject? ==> editingPatient == old(editingPatient)
      ensures old(editingPatient).Some? ==>
        call == UpdatePatientCall(old(editingPatient).value.id, SubmittedInfo(formData))
      ensures old(editingPatient).None? ==> call == AddPatientCall(SubmittedInfo(formData))
      ensures old(editingPatient).None? && old(isModalOpen) ==> IsActive(formData.status)
      ensures isModalOpen == (old(isModalOpen) && outcome.Reject?)
      ensures formData == old(formData) && transferFormData == old(transferFormData)
      ensures selectedPatientForTransfer == old(selectedPatientForTransfer)
      ensures isTransferModalOpen == old(isTransferModalOpen)
    {
      var info := SubmittedInfo(formData);
      if editingPatient.Some? {
        call := UpdatePatientCall(editingPatient.value.id, info);
      } else {
        call := AddPatientCall(info);
      }
      if outcome.Accept? {
        isModalOpen := false;
        editingPatient := None;
      }
    }

    /** `handleOpenTransferModal`. */
    method OpenTransferModal(patient: Patient)
      requires Valid()
      modifies this
      ensures Valid()
      ensures selectedPatientForTransfer == Some(patient) && transferFormData == NewTransferDetails
      ensures isTransferModalOpen
      ensures formData == old(formData) && editingPatient == old(editingPatient) && isModalOpen == old(isModalOpen)
    {
      selectedPatientForTransfer := Some(patient);
      transferFormData := NewTransferDetails;
      isTransferModalOpen := true;
    }

    /** `handleSubmitTransfer`: the request for the selected patient; the modal
        closes and forgets the patient when the store accepts. */
    method SubmitTransfer(outcome: Remote) returns (call: TransferCall)
      requires Valid() && selectedPatientForTransfer.Some?
      modifies this
      ensures Valid()
      ensures call == CreateTransfer(TransferRequest(old(selectedPatientForTransfer).value, transferFormData))
      ensures outcome.Accept? ==> !isTransferModalOpen && selectedPatientForTransfer.None?
      ensures outcome.Reject? ==>
        isTransferModalOpen == old(isTransferModalOpen) && selectedPatientForTransfer == old(selectedPatientForTransfer)
      ensures formData == old(formData) && editingPatient == old(editingPatient) && isModalOpen == old(isModalOpen)
      ensures transferFormData == old(transferFormData)
    {
      call := CreateTransfer(TransferRequest(selectedPatientForTransfer.value, transferFormData));
      if outcome.Accept? {
        isTransferModalOpen := false;
        selectedPatientForTransfer := None;
      }
    }
  }
}
