/** The patient forms modal: a category-filtered list of templates to fill in, the
    patient's history of saved forms, and which viewer is open over it. */
module FormsModal {

  import opened Collections
  import opened Records
  import opened Store
  import opened FormCatalog
  import opened PatientsPage
  import Page = PatientsPage

  /** `viewMode`: `select`, `view`, `history` or `viewSaved`. */
  datatype Mode = Select | View | History | ViewSaved

  /** The viewer shown over the modal, if any. */
  datatype Overlay = NoViewer | Drawing(form: FormTemplate) | Saved(saved: SavedForm)

  function FormOfPatient(patientId: string): SavedForm -> bool
  {
    (f: SavedForm) => f.info.patientId == patientId
  }

  /** `patientForms`: the saved forms of this patient, in the order given. */
  function PatientFormsOf(existing: seq<SavedForm>, patientId: string): seq<SavedForm>
  {
    Filter(existing, FormOfPatient(patientId))
  }

  /** The history tab lists exactly this patient's forms, in their order. */
  lemma PatientFormsExact(existing: seq<SavedForm>, patientId: string)
    ensures IsSubsequence(PatientFormsOf(existing, patientId), existing)
    ensures forall i :: 0 <= i < |existing| ==>
      (existing[i] in PatientFormsOf(existing, patientId) <==> existing[i].info.patientId == patientId)
  {
    FilterExact(existing, FormOfPatient(patientId));
  }

  /** A form saved for the patient appears in the history tab, whichever list the
      store put it in. */
  lemma SavedFormIsListed(patientForms: seq<SavedForm>, otForms: seq<SavedForm>, f: SavedForm)
    ensures f in PatientFormsOf(ExistingForms([f] + patientForms, otForms), f.info.patientId)
    ensures f in PatientFormsOf(ExistingForms(patientForms, [f] + otForms), f.info.patientId)
  {
    var a := ExistingForms([f] + patientForms, otForms);
    var b := ExistingForms(patientForms, [f] + otForms);
    assert a[0] == f;
    assert b[|patientForms|] == f;
    PatientFormsExact(a, f.info.patientId);
    PatientFormsExact(b, f.info.patientId);
  }

  /** The modal, mounted once with the patients page. Its `patient` and `isOpen` are
      the page's `selectedPatientForForms` and `isFormsModalOpen`; while it is closed
      it renders nothing but keeps its own state, so a reopened modal resumes the
      tab, category and selections it was left with. */
  class PatientFormsModal {
    var patient: Option<Patient>
    var isOpen: bool
    var selectedCategory: Option<Category>
    var selectedForm: Option<FormTemplate>
    var selectedSavedForm: Option<SavedForm>
    var viewMode: Mode

    /** The list of templates on the `select` tab: `All` is the whole catalog. */
    function FilteredForms(): (r: seq<FormTemplate>)
      reads this
      ensures selectedCategory.None? ==> r == AllForms
      ensures forall i :: 0 <= i < |r| ==> selectedCategory.None? || r[i].category == selectedCategory.value
    {
      GetFormsByCategory(selectedCategory)
    }

    /** The drawing viewer shows while a template is selected in `view` mode, the
        saved viewer while a saved form is selected in `viewSaved` mode. */
    function Shown(): Overlay
      reads this
    {
      if selectedForm.Some? && viewMode == View then Drawing(selectedForm.value)
      else if selectedSavedForm.Some? && viewMode == ViewSaved then Saved(selectedSavedForm.value)
      else NoViewer
    }

    /** The state when the page first mounts: closed, no patient, the select tab. */
    constructor ()
      ensures patient.None? && !isOpen && selectedCategory.None? && selectedForm.None?
      ensures selectedSavedForm.None? && viewMode == Select && Shown() == NoViewer
    {
      patient := None;
      isOpen := false;
      selectedCategory := None;
      selectedForm := None;
      selectedSavedForm := None;
      viewMode := Select;
    }

    /** The page's forms button: the modal opens on the patient and keeps the state
        it was closed with, viewer included. */
    method Open(p: Patient)
      modifies this
      ensures patient == Some(p) && isOpen
      ensures viewMode == old(viewMode) && selectedCategory == old(selectedCategory)
      ensures selectedForm == old(selectedForm) && selectedSavedForm == old(selectedSavedForm)
      ensures Shown() == old(Shown())
    {
      patient := Some(p);
      isOpen := true;
    }

    /** The page's `onClose`: the patient is cleared and the modal hidden, and its
        own state is left as it was. */
    method Close()
      modifies this
      ensures patient.None? && !isOpen
      ensures viewMode == old(viewMode) && selectedCategory == old(selectedCategory)
      ensures selectedForm == old(selectedForm) && selectedSavedForm == old(selectedSavedForm)
    {
      patient := None;
      isOpen := false;
    }

    /** The category buttons. */
    method SelectCategory(category: Option<Category>)
      modifies this
      ensures selectedCategory == category && FilteredForms() == GetFormsByCategory(category)
      ensures selectedForm == old(selectedForm) && selectedSavedForm == old(selectedSavedForm)
      ensures viewMode == old(viewMode)
    {
      selectedCategory := category;
    }

    /** The two tabs. */
    method ShowTab(mode: Mode)
      requires mode == Select || mode == History
      modifies this
      ensures viewMode == mode && Shown() == NoViewer
      ensures selectedCategory == old(selectedCategory) && selectedForm == old(selectedForm)
      ensures selectedSavedForm == old(selectedSavedForm)
    {
      viewMode := mode;
    }

    /** `handleFormSelect`: the drawing viewer opens on the template. */
    method HandleFormSelect(form: FormTemplate)
      modifies this
      ensures selectedForm == Some(form) && viewMode == View && Shown() == Drawing(form)
      ensures selectedCategory == old(selectedCategory) && selectedSavedForm == old(selectedSavedForm)
    {
      selectedForm := Some(form);
      viewMode := View;
    }

    /** `handleSaveForm`: the record is stored by the page's handler, then the
        viewer closes onto the history tab whatever the store's reply. */
    method HandleSaveForm(store: AppStore, info: FormInfo, newId: string, remote: Remote)
      returns (r: Reply<SavedForm>)
      requires store.Valid() && !HasForm(store.otForms, newId) && !HasForm(store.patientForms, newId)
      modifies this, store
      ensures store.Valid()
      ensures r == (if remote.Accept? then Ok(SavedForm(newId, info)) else Err(remote.message))
      ensures remote.Accept? ==> (ExistingForms(store.patientForms, store.otForms) ==
        if info.formType == "OT" then ExistingForms(old(store.patientForms), [SavedForm(newId, info)] + old(store.otForms))
        else ExistingForms([SavedForm(newId, info)] + old(store.patientForms), old(store.otForms)))
      ensures remote.Reject? ==> store.patientForms == old(store.patientForms) && store.otForms == old(store.otForms)
      ensures store.wards == old(store.wards) && store.patients == old(store.patients) && store.staff == old(store.staff)
      ensures selectedForm.None? && viewMode == History && Shown() == NoViewer
      ensures selectedCategory == old(selectedCategory) && selectedSavedForm == old(selectedSavedForm)
    {
      r := Page.HandleSaveForm(store, info, newId, remote);
      selectedForm := None;
      viewMode := History;
    }

    /** `handleCloseViewer`: back to the template list. */
    method HandleCloseViewer()
      modifies this
      ensures selectedForm.None? && viewMode == Select && Shown() == NoViewer
      ensures selectedCategory == old(selectedCategory) && selectedSavedForm == old(selectedSavedForm)
    {
      selectedForm := None;
      viewMode := Select;
    }

    /** A click on a saved form opens it in the saved viewer. */
    method OpenSavedForm(saved: SavedForm)
      modifies this
      ensures selectedSavedForm == Some(saved) && viewMode == ViewSaved && Shown() == Saved(saved)
      ensures selectedCategory == old(selectedCategory) && selectedForm == old(selectedForm)
    {
      selectedSavedForm := Some(saved);
      viewMode := ViewSaved;
    }

    /** Closing the saved viewer returns to the history tab. */
    method CloseSavedForm()
      modifies this
      ensures selectedSavedForm.None? && viewMode == History && Shown() == NoViewer
      ensures selectedCategory == old(selectedCategory) && selectedForm == old(selectedForm)
    {
      selectedSavedForm := None;
      viewMode := History;
    }
  }
}
