/** The plain form viewer: a template's pages without a drawing layer, and a save
    that records who filled the form in. */
module PlainForms {

  import opened Collections
  import opened Text
  import opened Records
  import opened FormCatalog
  import opened PageControls

  /** `handleSave` at instant `now`: nothing without a name that is more than
      white space, otherwise a completed record whose type is the template's
      identifier, with the patient's name and no drawings. */
  function ViewerRecord(form: FormTemplate, patient: Patient, filledBy: string, filledByRole: string,
                        notes: string, now: int): (r: Option<FormInfo>)
    ensures r.None? <==> Trim(filledBy) == []
    ensures r.Some? ==> (r.value.patientId == patient.id && r.value.patientName == Some(patient.info.name) &&
      r.value.formType == form.id && r.value.formName == form.name && r.value.status == "Completed")
    ensures r.Some? ==> (r.value.filledBy == Trim(filledBy) && r.value.filledBy != [] &&
      r.value.notes == Trim(notes) && r.value.filledByRole == filledByRole)
    ensures r.Some? ==> r.value.formId.None? && r.value.formData.None? && r.value.completedAt == Some(now)
  {
    var name := Trim(filledBy);
    if name == [] then None
    else Some(FormInfo(patient.id, Some(patient.info.name), form.id, form.name, None, name,
      filledByRole, Trim(notes), None, "Completed", Some(now)))
  }

  /** A record of a catalog template saved here is never of type `OT`, so it is
      stored with the patient forms even for an operating-theatre template. */
  lemma ViewerRecordIsNeverOt(k: int, patient: Patient, filledBy: string, filledByRole: string,
                              notes: string, now: int)
    requires 0 <= k < |AllForms| && Trim(filledBy) != []
    ensures var r := ViewerRecord(AllForms[k], patient, filledBy, filledByRole, notes, now);
      r.Some? && r.value.formType != "OT"
  {
    IdsAreNotOt();
  }

  /** The viewer of one template for one patient. */
  class FormViewer {
    const form: FormTemplate
    const patient: Patient
    const view: PageView
    var notes: string
    var filledBy: string
    var filledByRole: string

    predicate Valid()
      reads this, view
    {
      view.Valid() && view.totalPages == |form.pages|
    }

    constructor (form: FormTemplate, patient: Patient)
      ensures Valid() && fresh(view) && this.form == form && this.patient == patient
      ensures view.currentPage == 0 && view.zoom == InitialZoom
      ensures notes == "" && filledBy == "" && filledByRole == "Nurse"
    {
      this.form := form;
      this.patient := patient;
      view := new PageView(|form.pages|);
      notes := "";
      filledBy := "";
      filledByRole := "Nurse";
    }

    /** The name, role and notes inputs. */
    method EnterDetails(filledBy: string, filledByRole: string, notes: string)
      requires Valid()
      modifies this
      ensures Valid()
      ensures this.filledBy == filledBy && this.filledByRole == filledByRole && this.notes == notes
    {
      this.filledBy := filledBy;
      this.filledByRole := filledByRole;
      this.notes := notes;
    }

    /** `handleSave`: the record handed to `onSave`, if any. */
    method HandleSave(now: int) returns (r: Option<FormInfo>)
      requires Valid()
      ensures r == ViewerRecord(form, patient, filledBy, filledByRole, notes, now)
    {
      r := ViewerRecord(form, patient, filledBy, filledByRole, notes, now);
    }
  }
}
