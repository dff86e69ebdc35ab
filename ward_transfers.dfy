/** The ward transfer page: the request form and how selecting a patient fills
    it, the transfer list filter, and which step of the transfer workflow each
    transfer offers. Approving, cancelling and completing are requests to the
    transfer store, whose effects are not part of this model. */
module WardTransfers {

  import opened Collections
  import opened Text
  import opened Records
  import opened Store

  /** A stored transfer as the list shows it. */
  datatype WardTransfer = WardTransfer(
    id: string,
    patientId: string,
    fromWardId: string,
    toWardId: string,
    fromBedNumber: string,
    toBedNumber: string,
    transferReason: string,
    status: string)

  /** The request form. */
  datatype TransferForm = TransferForm(
    patientId: string,
    fromWardId: string,
    toWardId: string,
    fromBedNumber: string,
    toBedNumber: string,
    transferReason: string,
    transferredBy: string,
    transferredByRole: string,
    status: string,
    notes: string)

  /** The form `handleOpenModal` resets to: a pending request filed by a nurse. */
  const NewTransferForm := TransferForm("", "", "", "", "", "", "", "Nurse", "Pending", "")

  /** The inputs of the form that carry a `name`; the from-fields have none and are
      only filled in by selecting a patient. */
  datatype TransferField =
    | PatientIdField | ToWardIdField | ToBedNumberField | TransferReasonField
    | TransferredByField | TransferredByRoleField | NotesField

  /** `{ ...prev, [name]: value }`. */
  function SetField(f: TransferForm, name: TransferField, value: string): (r: TransferForm)
    ensures r.fromWardId == f.fromWardId && r.fromBedNumber == f.fromBedNumber && r.status == f.status
    ensures name == PatientIdField ==> r == f.(patientId := value)
    ensures name == ToWardIdField ==> r == f.(toWardId := value)
    ensures name == ToBedNumberField ==> r == f.(toBedNumber := value)
    ensures name == TransferReasonField ==> r == f.(transferReason := value)
    ensures name == TransferredByField ==> r == f.(transferredBy := value)
    ensures name == TransferredByRoleField ==> r == f.(transferredByRole := value)
    ensures name == NotesField ==> r == f.(notes := value)
  {
    match name
    case PatientIdField => f.(patientId := value)
    case ToWardIdField => f.(toWardId := value)
    case ToBedNumberField => f.(toBedNumber := value)
    case TransferReasonField => f.(transferReason := value)
    case TransferredByField => f.(transferredBy := value)
    case TransferredByRoleField => f.(transferredByRole := value)
    case NotesField => f.(notes := value)
  }

  /** The patients the request can be for: everyone not discharged, in list order. */
  function PatientChoices(patients: seq<Patient>): seq<Patient>
  {
    Filter(patients, (p: Patient) => p.info.status != PatientStatus.Discharged)
  }

  lemma PatientChoicesExact(patients: seq<Patient>)
    ensures IsSubsequence(PatientChoices(patients), patients)
    ensures forall i :: 0 <= i < |patients| ==>
      (patients[i] in PatientChoices(patients) <==> patients[i].info.status != PatientStatus.Discharged)
  {
    FilterExact(patients, (p: Patient) => p.info.status != PatientStatus.Discharged);
  }

  /** The wards the patient can move to: every ward but the one they are in. */
  function DestinationChoices(wards: seq<Ward>, fromWardId: string): seq<Ward>
  {
    Filter(wards, WardIdIsNot(fromWardId))
  }

  lemma DestinationChoicesExact(wards: seq<Ward>, fromWardId: string)
    ensures IsSubsequence(DestinationChoices(wards, fromWardId), wards)
    ensures forall i :: 0 <= i < |wards| ==>
      (wards[i] in DestinationChoices(wards, fromWardId) <==> wards[i].id != fromWardId)
  {
    FilterExact(wards, WardIdIsNot(fromWardId));
  }

  /** The term is looked for in the patient's name and in the reason. */
  predicate TransferMatchesSearch(patients: seq<Patient>, t: WardTransfer, term: string)
  {
    var p := Find(patients, PatientIdIs(t.patientId));
    (p.Some? && MatchesTerm(p.value.info.name, term)) || MatchesTerm(t.transferReason, term)
  }

  function KeepTransfer(patients: seq<Patient>, term: string, status: string): WardTransfer -> bool
  {
    (t: WardTransfer) => TransferMatchesSearch(patients, t, term) && (status == "All" || t.status == status)
  }

  /** `filteredTransfers`. */
  function FilteredTransfers(transfers: seq<WardTransfer>, patients: seq<Patient>, term: string, status: string)
    : seq<WardTransfer>
  {
    Filter(transfers, KeepTransfer(patients, term, status))
  }

  lemma FilteredTransfersExact(transfers: seq<WardTransfer>, patients: seq<Patient>, term: string, status: string)
    ensures IsSubsequence(FilteredTransfers(transfers, patients, term, status), transfers)
    ensures forall i :: 0 <= i < |transfers| ==>
      (transfers[i] in FilteredTransfers(transfers, patients, term, status) <==>
        TransferMatchesSearch(patients, transfers[i], term) && (status == "All" || transfers[i].status == status))
  {
    FilterExact(transfers, KeepTransfer(patients, term, status));
  }

  /** With no term and no status filter every transfer is listed, whatever its
      patient: an empty term occurs in every reason. */
  lemma BlankSearchShowsAllTransfers(transfers: seq<WardTransfer>, patients: seq<Patient>)
    ensures FilteredTransfers(transfers, patients, "", "All") == transfers
  {
    forall i | 0 <= i < |transfers| ensures KeepTransfer(patients, "", "All")(transfers[i]) {
      EmptyTermMatches(transfers[i].transferReason);
    }
    FilterAll(transfers, KeepTransfer(patients, "", "All"));
  }

  const StatusOptions := ["All", "Pending", "Approved", "Completed", "Cancelled"]

  datatype TransferAction = ViewDetails | Approve | Cancel | Complete | DeleteRecord

  /** The buttons a transfer's row shows. */
  function OfferedTransferActions(t: WardTransfer): (r: set<TransferAction>)
    ensures ViewDetails in r
    ensures Approve in r <==> t.status == "Pending"
    ensures Cancel in r <==> t.status == "Pending"
    ensures Complete in r <==> t.status == "Approved"
    ensures DeleteRecord in r <==> t.status == "Cancelled" || t.status == "Completed"
  {
    {ViewDetails} +
    (if t.status == "Pending" then {Approve, Cancel} else {}) +
    (if t.status == "Approved" then {Complete} else {}) +
    (if t.status == "Cancelled" || t.status == "Completed" then {DeleteRecord} else {})
  }

  /** A transfer is completed only after it was approved: neither a pending nor a
      cancelled one offers completion, and a finished one offers only its record's
      removal. */
  lemma CompleteNeedsApproval(t: WardTransfer)
    ensures t.status == "Pending" || t.status == "Cancelled" ==> Complete !in OfferedTransferActions(t)
    ensures t.status == "Completed" || t.status == "Cancelled" ==> OfferedTransferActions(t) == {ViewDetails, DeleteRecord}
    ensures t.status !in StatusOptions ==> OfferedTransferActions(t) == {ViewDetails}
  {
  }

  /** The calls the page makes into the transfer store. */
  datatype TransferCall =
    | CreateTransfer(form: TransferForm)
    | UpdateStatus(transferId: string, status: string, approvedBy: Option<string>)
    | CompleteTransfer(transferId: string, patientId: string, toWardId: string, toBedNumber: string)
    | DeleteTransfer(transferId: string)

  /** What pressing an action's button asks of the store (after the confirmation);
      viewing asks nothing. */
  function RequestFor(t: WardTransfer, action: TransferAction): (c: Option<TransferCall>)
    ensures action == ViewDetails <==> c.None?
    ensures action == Approve ==> c == Some(UpdateStatus(t.id, "Approved", Some("Admin")))
    ensures action == Cancel ==> c == Some(UpdateStatus(t.id, "Cancelled", None))
    ensures action == Complete ==> c == Some(CompleteTransfer(t.id, t.patientId, t.toWardId, t.toBedNumber))
    ensures action == DeleteRecord ==> c == Some(DeleteTransfer(t.id))
  {
    match action
    case ViewDetails => None
    case Approve => Some(UpdateStatus(t.id, "Approved", Some("Admin")))
    case Cancel => Some(UpdateStatus(t.id, "Cancelled", None))
    case Complete => Some(CompleteTransfer(t.id, t.patientId, t.toWardId, t.toBedNumber))
    case DeleteRecord => Some(DeleteTransfer(t.id))
  }

  /** Every status change the page can request moves a pending transfer on, to
      approved or to cancelled, and every request names the transfer it was pressed
      on. */
  lemma OfferedRequestsFollowWorkflow(t: WardTransfer, action: TransferAction)
    requires action in OfferedTransferActions(t)
    ensures var c := RequestFor(t, action);
      c.Some? && c.value.UpdateStatus? ==>
        t.status == "Pending" && (c.value.status == "Approved" || c.value.status == "Cancelled")
    ensures var c := RequestFor(t, action); c.Some? ==> !c.value.CreateTransfer? && c.value.transferId == t.id
    ensures var c := RequestFor(t, action);
      c.Some? && c.value.CompleteTransfer? ==> t.status == "Approved" && c.value.toWardId == t.toWardId
  {
  }

  /** `handleChange`: the input's value is stored; choosing a known patient then
      copies the patient's ward and bed into the from-fields (an unset one as
      `''`). */
  function AfterChange(f: TransferForm, name: TransferField, value: string, patients: seq<Patient>)
    : (r: TransferForm)
    ensures name != PatientIdField || value == "" || !HasPatient(patients, value) ==>
      r == SetField(f, name, value)
  {
    var changed := SetField(f, name, value);
    var patient := FindPatient(patients, value);
    if name == PatientIdField && value != "" && patient.Some? then
      changed.(fromWardId := patient.value.info.wardId, fromBedNumber := patient.value.info.bedNumber)
    else changed
  }

  /** Selecting a patient snapshots where they lie now: the request leaves from the
      patient's own ward and bed, every other field stays, and the destination
      choices then leave that ward out. */
  lemma SelectionSnapshotsPatient(f: TransferForm, patients: seq<Patient>, wards: seq<Ward>, k: int)
    requires PatientIdsUnique(patients) && 0 <= k < |patients| && patients[k].id != ""
    ensures var p := patients[k];
      var g := AfterChange(f, PatientIdField, p.id, patients);
      g == f.(patientId := p.id, fromWardId := p.info.wardId, fromBedNumber := p.info.bedNumber) &&
      forall i :: 0 <= i < |DestinationChoices(wards, g.fromWardId)| ==>
        DestinationChoices(wards, g.fromWardId)[i].id != p.info.wardId
  {
    FindPatientAt(patients, k);
  }

  /** Clearing the patient choice leaves the from-fields of the last patient in
      place. */
  lemma ClearingPatientKeepsFromFields(f: TransferForm, patients: seq<Patient>)
    ensures var g := AfterChange(f, PatientIdField, "", patients);
      g.patientId == "" && g.fromWardId == f.fromWardId && g.fromBedNumber == f.fromBedNumber
  {
  }

  /** The request form of the ward transfer page. */
  class TransferRequestForm {
    var formData: TransferForm
    var isModalOpen: bool

    constructor ()
      ensures formData == NewTransferForm && !isModalOpen
    {
      formData := NewTransferForm;
      isModalOpen := false;
    }

    /** `handleOpenModal`. */
    method OpenModal()
      modifies this
      ensures formData == NewTransferForm && isModalOpen
    {
      formData := NewTransferForm;
      isModalOpen := true;
    }

    /** `handleChange`, in its two successive state updates. */
    method HandleChange(name: TransferField, value: string, patients: seq<Patient>)
      modifies this
      ensures formData == AfterChange(old(formData), name, value, patients)
      ensures isModalOpen == old(isModalOpen)
    {
      formData := SetField(formData, name, value);
      if name == PatientIdField && value != "" {
        var patient := FindPatient(patients, value);
        if patient.Some? {
          formData := formData.(fromWardId := patient.value.info.wardId, fromBedNumber := patient.value.info.bedNumber);
        }
      }
    }

    /** `handleSubmit`: the form is sent as it stands; it closes when the store
        accepts. */
    method Submit(outcome: Remote) returns (call: TransferCall)
      modifies this
      ensures call == CreateTransfer(formData) && formData == old(formData)
      ensures isModalOpen == (old(isModalOpen) && outcome.Reject?)
    {
      call := CreateTransfer(formData);
      if outcome.Accept? {
        isModalOpen := false;
      }
    }
  }
}
