/** The saved-form viewer: a stored record shown over its template, a page's
    drawing in place of the blank page where there is one, and the page
    download. */
module SavedForms {

  import opened Collections
  import opened Text
  import opened Records
  import opened FormCatalog
  import opened PageControls
  import opened DrawableForms
  import opened PlainForms

  /** `savedForm.formId || savedForm.formType`: the identifier when it is set and
      not empty, the type otherwise. */
  function TemplateKey(info: FormInfo): string
  {
    if info.formId.Some? && info.formId.value != "" then info.formId.value else info.formType
  }

  /** The template the viewer opens; without one it shows nothing. */
  function TemplateOf(info: FormInfo): Option<FormTemplate>
  {
    GetFormById(TemplateKey(info))
  }

  /** A record saved by the drawing viewer names its template by identifier, so
      the saved viewer opens that template again. */
  lemma DrawnRecordFindsTemplate(k: int, patient: Patient, filledBy: string, filledByRole: string,
                                 notes: string, drawings: map<nat, string>)
    requires 0 <= k < |AllForms| && Trim(filledBy) != []
    ensures var r := SaveRecord(AllForms[k], patient, filledBy, filledByRole, notes, drawings);
      r.Some? && TemplateOf(r.value) == Some(AllForms[k])
  {
    IdsAreNotOt();
    GetFormByOwnId(k);
    DrawnRecordOpens(AllForms[k], patient, filledBy, filledByRole, notes, drawings);
  }

  lemma DrawnRecordOpens(form: FormTemplate, patient: Patient, filledBy: string, filledByRole: string,
                         notes: string, drawings: map<nat, string>)
    requires Trim(filledBy) != [] && form.id != "" && GetFormById(form.id) == Some(form)
    ensures var r := SaveRecord(form, patient, filledBy, filledByRole, notes, drawings);
      r.Some? && TemplateOf(r.value) == Some(form)
  {
    var r := SaveRecord(form, patient, filledBy, filledByRole, notes, drawings);
    assert r.Some? && r.value.formId == Some(form.id);
    assert TemplateKey(r.value) == form.id;
  }

  /** A record saved by the plain viewer has no identifier, and its type, the
      template's identifier, finds the template all the same. */
  lemma PlainRecordFindsTemplate(k: int, patient: Patient, filledBy: string, filledByRole: string,
                                 notes: string, now: int)
    requires 0 <= k < |AllForms| && Trim(filledBy) != []
    ensures var r := ViewerRecord(AllForms[k], patient, filledBy, filledByRole, notes, now);
      r.Some? && TemplateOf(r.value) == Some(AllForms[k])
  {
    GetFormByOwnId(k);
    PlainRecordOpens(AllForms[k], patient, filledBy, filledByRole, notes, now);
  }

  lemma PlainRecordOpens(form: FormTemplate, patient: Patient, filledBy: string, filledByRole: string,
                         notes: string, now: int)
    requires Trim(filledBy) != [] && GetFormById(form.id) == Some(form)
    ensures var r := ViewerRecord(form, patient, filledBy, filledByRole, notes, now);
      r.Some? && TemplateOf(r.value) == Some(form)
  {
    var r := ViewerRecord(form, patient, filledBy, filledByRole, notes, now);
    assert r.Some? && r.value.formId.None? && r.value.formType == form.id;
    assert TemplateKey(r.value) == form.id;
  }

  /** A record naming no template by either field opens nothing. */
  lemma UnknownRecordOpensNothing(info: FormInfo)
    requires forall i :: 0 <= i < |AllForms| ==> AllForms[i].id != TemplateKey(info)
    ensures TemplateOf(info).None?
  {
    GetFormByUnknownId(TemplateKey(info));
  }

  /** `hasDrawing`: the record carries a non-empty image for the page. */
  predicate HasDrawing(info: FormInfo, page: nat)
  {
    info.formData.Some? && page in info.formData.value && info.formData.value[page] != ""
  }

  /** The image shown for a page: its drawing when there is one, the template's
      blank page otherwise (none past the template's last page). */
  function PageImage(info: FormInfo, template: FormTemplate, page: nat): (r: Option<string>)
    ensures HasDrawing(info, page) ==> r == Some(info.formData.value[page])
    ensures !HasDrawing(info, page) ==> (r.Some? <==> page < |template.pages|)
    ensures !HasDrawing(info, page) && r.Some? ==> r.value == template.pages[page]
  {
    if HasDrawing(info, page) then Some(info.formData.value[page])
    else if page < |template.pages| then Some(template.pages[page])
    else None
  }

  /** A record that carries a coherent canvas's drawings, as the drawing viewer
      saves it, shows on every page drawn on the history entry the drawing viewer
      showed last, and every other page blank. */
  lemma SavedViewerShowsLastShown(info: FormInfo, form: FormTemplate, c: Canvas, page: nat)
    requires Coherent(c) && info.formData == Some(c.drawings) && page < |form.pages|
    ensures var h := HistoryAt(c, page);
      0 <= ShownIndex(StepAt(c, page), |h|) < |h| || h == []
    ensures var h := HistoryAt(c, page);
      PageImage(info, form, page) == if h != [] then Some(h[ShownIndex(StepAt(c, page), |h|)]) else Some(form.pages[page])
  {
    assert PageCoherent(c, page);
  }

  /** The file name of a page download: `_Filled` marks a page with a drawing. */
  function DownloadName(formName: string, patientName: string, page: nat, filled: bool): (r: string)
    ensures |r| > 4 && r[|r| - 4..] == ".png"
  {
    formName + "_" + patientName + "_Page" + NatToString(page + 1) + (if filled then "_Filled" else "") + ".png"
  }

  /** A drawn page and a blank page never download under the same name. */
  lemma FilledNameDiffers(formName: string, patientName: string, page: nat)
    ensures |DownloadName(formName, patientName, page, true)| == |DownloadName(formName, patientName, page, false)| + 7
  {
  }

  /** What `handleDownload` saves: a file name and the image it holds. */
  datatype Download = Download(fileName: string, image: Option<string>)

  /** `handleDownload`: the page's drawing under the `_Filled` name, or else the
      blank page. */
  function DownloadOf(info: FormInfo, template: FormTemplate, patientName: string, page: nat): (r: Download)
    ensures r.image == PageImage(info, template, page)
    ensures r.fileName == DownloadName(info.formName, patientName, page, HasDrawing(info, page))
  {
    Download(DownloadName(info.formName, patientName, page, HasDrawing(info, page)), PageImage(info, template, page))
  }

  /** The viewer of one stored record, open only when its template was found. */
  class SavedFormViewer {
    const saved: FormInfo
    const template: FormTemplate
    const patient: Patient
    const view: PageView

    predicate Valid()
      reads this, view
    {
      view.Valid() && view.totalPages == |template.pages| && TemplateOf(saved) == Some(template)
    }

    constructor (saved: FormInfo, template: FormTemplate, patient: Patient)
      requires TemplateOf(saved) == Some(template)
      ensures Valid() && fresh(view) && this.saved == saved && this.template == template
      ensures this.patient == patient && view.currentPage == 0 && view.zoom == InitialZoom
    {
      this.saved := saved;
      this.template := template;
      this.patient := patient;
      view := new PageView(|template.pages|);
    }

    /** The image on screen. */
    method Shown() returns (r: Option<string>)
      requires Valid()
      ensures r == PageImage(saved, template, view.currentPage)
      ensures |template.pages| > 0 ==> r.Some?
    {
      r := PageImage(saved, template, view.currentPage);
    }

    /** `handleDownload` on the current page. */
    method HandleDownload() returns (r: Download)
      requires Valid()
      ensures r == DownloadOf(saved, template, patient.info.name, view.currentPage)
    {
      r := DownloadOf(saved, template, patient.info.name, view.currentPage);
    }
  }
}
