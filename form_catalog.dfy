/** The catalog of fillable form templates: the ward monitoring, billing and
    operating-theatre forms, and the lookups the form pages use. */
module FormCatalog {

  import opened Collections

  /** A form template: its scanned page images, in order, and the roles meant to
      fill it in. */
  datatype FormTemplate = FormTemplate(
    id: string,
    name: string,
    category: Category,
    pages: seq<string>,
    requiredRole: seq<Role>)

  /** The form categories, in the order of `formCategories` after `All`. */
  datatype Category = Monitoring | Medication | Assessment | Procedures | Consent | Documentation | Billing | OT

  datatype Role = Nurse | Doctor | Surgeon | Anesthesiologist | Administrator

  /** The category as the templates and the saved forms spell it. */
  function CategoryName(c: Category): string
  {
    match c
    case Monitoring => "Monitoring"
    case Medication => "Medication"
    case Assessment => "Assessment"
    case Procedures => "Procedures"
    case Consent => "Consent"
    case Documentation => "Documentation"
    case Billing => "Billing"
    case OT => "OT"
  }

  /** Only the operating-theatre category is spelled `OT`. */
  lemma CategoryNameOt(c: Category)
    ensures CategoryName(c) == "OT" <==> c == OT
  {
  }

  const VitalChart := FormTemplate("vital-chart", "Vital Signs Chart", Monitoring,
    ["/ward monitoring/vital_chart_1.png",
     "/ward monitoring/vital_chart_2.png"],
    [Nurse, Doctor])

  const MedicationChart := FormTemplate("medication-chart", "Medication Chart", Medication,
    ["/ward monitoring/medication_chart_1.png",
     "/ward monitoring/medication_chart_2.png"],
    [Nurse, Doctor])

  const DoctorAssessment := FormTemplate("doctor-assessment", "Doctor Initial Assessment", Assessment,
    ["/ward monitoring/doctor_initial_assessment_1.png",
     "/ward monitoring/doctor_initial_assessment_2.png",
     "/ward monitoring/doctor_initial_assessment_3.png",
     "/ward monitoring/doctor_initial_assessment_4.png"],
    [Doctor])

  const BloodTransfusion := FormTemplate("blood-transfusion", "Blood Transfusion Chart", Procedures,
    ["/ward monitoring/blood_transfusion_chart_1.png",
     "/ward monitoring/blood_transfusion_chart_2.png"],
    [Nurse, Doctor])

  const ClinicalConsent := FormTemplate("clinical-consent", "Clinical Consent Form", Consent,
    ["/ward monitoring/clinical_consentt_1.png",
     "/ward monitoring/clilical_consent_2.png"],
    [Doctor])

  const IvCareBundle := FormTemplate("iv-care-bundle", "IV Care Bundle", Procedures,
    ["/ward monitoring/iv_care_bundle_1.png",
     "/ward monitoring/iv_care_bundle_2.png",
     "/ward monitoring/iv_care_bundle_2 (2).png",
     "/ward monitoring/iv_care_bundle_2 (3).png",
     "/ward monitoring/iv_care_bundle_2 (4).png"],
    [Nurse])

  const MonitoringEvt := FormTemplate("monitoring-evt", "Monitoring EVT Hospital Stay", Monitoring,
    ["/ward monitoring/monitoring_evt_hsp_sty_1.png",
     "/ward monitoring/monitoring_evt_hsp_sty_2.png"],
    [Nurse, Doctor])

  const NursesNotes := FormTemplate("nurses-notes", "Nurses Notes", Documentation,
    ["/ward monitoring/nurses_notes.png"],
    [Nurse])

  const ProgressNotes := FormTemplate("progress-notes", "Progress Notes", Documentation,
    ["/ward monitoring/progress_notes.png"],
    [Doctor, Nurse])

  const WardOrder := FormTemplate("ward-order", "Ward Order Form", Billing,
    ["/WardBilling[1]/ward_order_1.png",
     "/WardBilling[1]/ward_order_2.png",
     "/WardBilling[1]/ward_order_3.png",
     "/WardBilling[1]/ward_order_4.png"],
    [Doctor, Administrator])

  const InformedConsentSurgery := FormTemplate("informed-consent-surgery", "Informed Consent for Surgery & Procedures", OT,
    ["/ot/Informed_consent_for _sgry_&_prcd_eng_1.png",
     "/ot/Informed_consent_for_sgry_&_prcd_eng_2.png"],
    [Doctor, Surgeon])

  const ConsentAnesthesia := FormTemplate("consent-anesthesia", "Consent for Anesthesia & Sedation", OT,
    ["/ot/consent_anesthesia_sedation_(eng).png"],
    [Anesthesiologist, Doctor])

  const ConsentSurgicalProcedures := FormTemplate("consent-surgical-procedures", "Consent for Surgical Procedures", OT,
    ["/ot/consent_for_surg_prodrs_(eng)_1.png"],
    [Doctor, Surgeon])

  const GeneralInfoConsent := FormTemplate("general-info-consent", "General Information Consent", OT,
    ["/ot/general_info_const_(eng)_1.png"],
    [Doctor, Nurse])

  const HighRiskConsent := FormTemplate("high-risk-consent", "High Risk Consent", OT,
    ["/ot/high_risk_consent.png",
     "/ot/high_risk_consent (2).png"],
    [Doctor, Surgeon])

  const InputOutputChart := FormTemplate("input-output-chart", "Input Output Chart", OT,
    ["/ot/input_output_chart.png"],
    [Nurse, Anesthesiologist])

  const OperationReport := FormTemplate("operation-report", "Operation Report", OT,
    ["/ot/operation report.png"],
    [Surgeon, Doctor])

  const OtNurseMonitoring := FormTemplate("ot-nurse-monitoring", "OT Nurse Monitoring", OT,
    ["/ot/ot_nurse_monitrg.png"],
    [Nurse])

  const PreAnaestheticAssessment := FormTemplate("pre-anaesthetic-assessment", "Pre-Anaesthetic Assessment", OT,
    ["/ot/pre-anaesthetic_assessment_1.png",
     "/ot/pre-anaesthetic_assessment_2.png",
     "/ot/pre-anaesthetic_assessment_3.png",
     "/ot/pre-anaesthetic_assessment_4.png"],
    [Anesthesiologist])

  const PreOperativeCheckNurses := FormTemplate("pre-operative-check-nurses", "Pre-Operative Check for Nurses", OT,
    ["/ot/pre_opertve_check_for_nurses_(1).png",
     "/ot/pre_opertve_check_nurses_(2).png"],
    [Nurse])

  const SurgicalSummary := FormTemplate("surgical-summary", "Surgical Summary", OT,
    ["/ot/summary.png",
     "/ot/summary (2).png"],
    [Surgeon, Doctor])

  const SurgicalSafetyChecklist := FormTemplate("surgical-safety-checklist", "Surgical Safety Checklist", OT,
    ["/ot/surgical_safety_chklist.png"],
    [Nurse, Surgeon, Anesthesiologist])

  /** The ward monitoring forms. */
  const MonitoringForms: seq<FormTemplate> := [
    VitalChart,
    MedicationChart,
    DoctorAssessment,
    BloodTransfusion,
    ClinicalConsent,
    IvCareBundle,
    MonitoringEvt,
    NursesNotes,
    ProgressNotes]

  /** The billing forms. */
  const BillingForms: seq<FormTemplate> := [
    WardOrder]

  /** The operating-theatre forms. */
  const OtForms: seq<FormTemplate> := [
    InformedConsentSurgery,
    ConsentAnesthesia,
    ConsentSurgicalProcedures,
    GeneralInfoConsent,
    HighRiskConsent,
    InputOutputChart,
    OperationReport,
    OtNurseMonitoring,
    PreAnaestheticAssessment,
    PreOperativeCheckNurses,
    SurgicalSummary,
    SurgicalSafetyChecklist]

  /** `formCategories`; `None` is `All`. */
  const FormCategories: seq<Option<Category>> := [None, Some(Monitoring), Some(Medication), Some(Assessment),
    Some(Procedures), Some(Consent), Some(Documentation), Some(Billing), Some(OT)]

  /** `allForms`: the monitoring forms, then the billing forms, then the
      operating-theatre forms. */
  const AllForms: seq<FormTemplate> := MonitoringForms + BillingForms + OtForms

  function FormIdIs(id: string): FormTemplate -> bool { (f: FormTemplate) => f.id == id }

  function CategoryIs(category: Category): FormTemplate -> bool { (f: FormTemplate) => f.category == category }

  function RequiresRole(role: Role): FormTemplate -> bool { (f: FormTemplate) => role in f.requiredRole }

  /** `getFormById`. */
  function GetFormById(id: string): Option<FormTemplate>
  {
    Find(AllForms, FormIdIs(id))
  }

  /** `getFormsByCategory`: `All` (written `None`) is the whole catalog itself. */
  function GetFormsByCategory(category: Option<Category>): seq<FormTemplate>
  {
    if category.None? then AllForms else Filter(AllForms, CategoryIs(category.value))
  }

  /** `getOTFormById`. */
  function GetOtFormById(id: string): Option<FormTemplate>
  {
    Find(OtForms, FormIdIs(id))
  }

  /** `getOTFormsByRole`: the role must be one of the listed roles. */
  function GetOtFormsByRole(role: Role): seq<FormTemplate>
  {
    Filter(OtForms, RequiresRole(role))
  }

  predicate FormIdsDistinct(forms: seq<FormTemplate>)
  {
    forall i, j :: 0 <= i < j < |forms| ==> forms[i].id != forms[j].id
  }

  /** The catalog lists 22 forms in three groups. */
  lemma CatalogShape()
    ensures |MonitoringForms| == 9 && |BillingForms| == 1 && |OtForms| == 12 && |AllForms| == 22
    ensures AllForms[..9] == MonitoringForms && AllForms[9..10] == BillingForms && AllForms[10..] == OtForms
  {
  }

  /** A cheap fingerprint of an identifier: its length and its end characters. */
  function IdSignature(id: string): (int, char, char)
  {
    if id == [] then (0, ' ', ' ') else (|id|, id[0], id[|id| - 1])
  }

  /** The identifiers' fingerprints, in catalog order. */
  lemma IdSignatures()
    ensures forall i :: 0 <= i < |AllForms| ==> IdSignature(AllForms[i].id) == Signatures[i]
  {
    CatalogShape();
    MonitoringSignatures();
    OtSignatures();
    assert IdSignature(BillingForms[0].id) == Signatures[9];
    forall i | 0 <= i < |AllForms| ensures IdSignature(AllForms[i].id) == Signatures[i] {
      if i < 9 {
        assert AllForms[i] == MonitoringForms[i];
      } else if i == 9 {
        assert AllForms[i] == BillingForms[0];
      } else {
        assert AllForms[i] == OtForms[i - 10];
      }
    }
  }

  lemma MonitoringSignatures()
    ensures forall i :: 0 <= i < |MonitoringForms| ==> IdSignature(MonitoringForms[i].id) == Signatures[i]
  {
  }

  lemma OtSignatures()
    ensures forall i :: 0 <= i < |OtForms| ==> IdSignature(OtForms[i].id) == Signatures[10 + i]
  {
    OtSignaturesBelow(6);
    OtSignaturesFrom(6);
  }

  lemma OtSignaturesBelow(n: int)
    requires n == 6
    ensures forall i :: 0 <= i < n ==> IdSignature(OtForms[i].id) == Signatures[10 + i]
  {
  }

  lemma OtSignaturesFrom(n: int)
    requires n == 6
    ensures forall i :: n <= i < |OtForms| ==> IdSignature(OtForms[i].id) == Signatures[10 + i]
  {
  }

  const Signatures: seq<(int, char, char)> := [(11, 'v', 't'), (16, 'm', 't'), (17, 'd', 't'), (17, 'b', 'n'), (16, 'c', 't'), (14, 'i', 'e'), (14, 'm', 't'), (12, 'n', 's'), (14, 'p', 's'), (10, 'w', 'r'), (24, 'i', 'y'), (18, 'c', 'a'), (27, 'c', 's'), (20, 'g', 't'), (17, 'h', 't'), (18, 'i', 't'), (16, 'o', 't'), (19, 'o', 'g'), (26, 'p', 't'), (26, 'p', 's'), (16, 's', 'y'), (25, 's', 't')]

  lemma SignaturesDistinct()
    ensures |Signatures| == 22
    ensures forall i, j :: 0 <= i < j < |Signatures| ==> Signatures[i] != Signatures[j]
  {
  }

  /** No two templates share an identifier. */
  lemma CatalogIdsDistinct()
    ensures FormIdsDistinct(AllForms)
  {
    IdSignatures();
    SignaturesDistinct();
    forall i, j | 0 <= i < j < |AllForms| ensures AllForms[i].id != AllForms[j].id {
      assert IdSignature(AllForms[i].id) != IdSignature(AllForms[j].id);
    }
  }

  /** No identifier is empty, and none is `OT`, the category the store routes on. */
  lemma IdsAreNotOt()
    ensures forall i :: 0 <= i < |AllForms| ==> AllForms[i].id != "" && AllForms[i].id != "OT"
  {
    IdSignatures();
    assert forall i :: 0 <= i < |Signatures| ==> Signatures[i].0 > 2;
    assert IdSignature("OT").0 == 2;
  }

  /** Every template has a page to show, so the viewers' last page index is never
      negative, and names at least one role. */
  lemma EveryFormHasPages()
    ensures forall i :: 0 <= i < |AllForms| ==> |AllForms[i].pages| > 0 && |AllForms[i].requiredRole| > 0
  {
  }

  /** The operating-theatre forms are exactly the catalog entries of category `OT`. */
  lemma OtFormsAreOtCategory()
    ensures forall i :: 0 <= i < |OtForms| ==> OtForms[i].category == OT
    ensures GetFormsByCategory(Some(OT)) == OtForms
  {
    var ot := CategoryIs(OT);
    NoOtBeforeOtForms();
    OtFormsAllOt();
    FilterNone(MonitoringForms, ot);
    FilterNone(BillingForms, ot);
    FilterAll(OtForms, ot);
    FilterAppend(MonitoringForms, BillingForms, ot);
    FilterAppend(MonitoringForms + BillingForms, OtForms, ot);
  }

  lemma NoOtBeforeOtForms()
    ensures forall i :: 0 <= i < |MonitoringForms| ==> MonitoringForms[i].category != OT
    ensures forall i :: 0 <= i < |BillingForms| ==> BillingForms[i].category != OT
  {
  }

  lemma OtFormsAllOt()
    ensures forall i :: 0 <= i < |OtForms| ==> OtForms[i].category == OT
  {
  }

  /** Every template's category is one of the listed categories other than `All`. */
  lemma CategoriesCoverCatalog()
    ensures forall i :: 0 <= i < |AllForms| ==> Some(AllForms[i].category) in FormCategories[1..]
  {
  }

  /** With distinct identifiers, looking a template up by its own identifier finds
      it. */
  lemma {:induction false} FindByOwnId(forms: seq<FormTemplate>, k: int)
    requires FormIdsDistinct(forms) && 0 <= k < |forms|
    ensures Find(forms, FormIdIs(forms[k].id)) == Some(forms[k])
  {
    if k > 0 {
      assert FormIdsDistinct(forms[1..]) by {
        forall i, j | 0 <= i < j < |forms[1..]| ensures forms[1..][i].id != forms[1..][j].id {
          assert forms[1..][i] == forms[i + 1] && forms[1..][j] == forms[j + 1];
        }
      }
      assert forms[1..][k - 1] == forms[k];
      FindByOwnId(forms[1..], k - 1);
    }
  }

  /** `getFormById` finds every template under its own identifier. */
  lemma GetFormByOwnId(k: int)
    requires 0 <= k < |AllForms|
    ensures GetFormById(AllForms[k].id) == Some(AllForms[k])
  {
    CatalogIdsDistinct();
    FindByOwnId(AllForms, k);
  }

  /** An identifier that no template has finds nothing. */
  lemma GetFormByUnknownId(id: string)
    requires forall i :: 0 <= i < |AllForms| ==> AllForms[i].id != id
    ensures GetFormById(id).None?
  {
  }

  /** The operating-theatre lookup agrees with the catalog-wide one on every
      operating-theatre form. */
  lemma OtLookupAgrees(k: int)
    requires 0 <= k < |OtForms|
    ensures GetOtFormById(OtForms[k].id) == GetFormById(OtForms[k].id) == Some(OtForms[k])
  {
    CatalogIdsDistinct();
    assert FormIdsDistinct(OtForms) by {
      forall i, j | 0 <= i < j < |OtForms| ensures OtForms[i].id != OtForms[j].id {
        assert OtForms[i] == AllForms[10 + i] && OtForms[j] == AllForms[10 + j];
      }
    }
    FindByOwnId(OtForms, k);
    assert AllForms[10 + k] == OtForms[k];
    FindByOwnId(AllForms, 10 + k);
  }

  /** A category lookup keeps the catalog order and lists exactly that category's
      templates. */
  lemma GetFormsByCategoryExact(category: Option<Category>)
    ensures IsSubsequence(GetFormsByCategory(category), AllForms)
    ensures forall i :: 0 <= i < |AllForms| ==>
      (AllForms[i] in GetFormsByCategory(category) <==> category.None? || AllForms[i].category == category.value)
  {
    if category.None? {
      var any := (f: FormTemplate) => true;
      FilterAll(AllForms, any);
      FilterExact(AllForms, any);
    } else {
      FilterExact(AllForms, CategoryIs(category.value));
    }
  }

  /** A role lookup keeps the catalog order and lists exactly the operating-theatre
      templates naming that role. */
  lemma GetOtFormsByRoleExact(role: Role)
    ensures IsSubsequence(GetOtFormsByRole(role), OtForms)
    ensures forall i :: 0 <= i < |OtForms| ==>
      (OtForms[i] in GetOtFormsByRole(role) <==> role in OtForms[i].requiredRole)
  {
    FilterExact(OtForms, RequiresRole(role));
  }
}
