/** The drawing form viewer: a template's pages shown one at a time with a
    drawing layer, an undo / redo history per page, and the save that hands the
    filled-in form on. A page's drawing is the merged image of the page and its
    strokes, kept per page index (the `page-N` key). */
module DrawableForms {

  import opened Collections
  import opened Text
  import opened Records
  import opened FormCatalog
  import opened PageControls

  /** The three per-page maps: the image currently shown (and saved) for each
      page, the images after each stroke, and the position in that history. */
  datatype Canvas = Canvas(
    drawings: map<nat, string>,
    history: map<nat, seq<string>>,
    historyStep: map<nat, nat>)

  const EmptyCanvas := Canvas(map[], map[], map[])

  /** `historyStep[key] || 0`. */
  function StepAt(c: Canvas, page: nat): nat
  {
    if page in c.historyStep then c.historyStep[page] else 0
  }

  /** `history[key] || []`. */
  function HistoryAt(c: Canvas, page: nat): seq<string>
  {
    if page in c.history then c.history[page] else []
  }

  /** `h.slice(0, n)` for a non-negative `n`: the first `n` entries, or all of
      them when there are fewer. */
  function Take(h: seq<string>, n: nat): (r: seq<string>)
    ensures |r| == if n < |h| then n else |h|
    ensures r == h[..|r|]
  {
    if n < |h| then h[..n] else h
  }

  /** `handleClearPage` once confirmed: the page is forgotten in all three maps. */
  function ClearPage(c: Canvas, page: nat): Canvas
  {
    Canvas(c.drawings - {page}, c.history - {page}, c.historyStep - {page})
  }

  /** `stopDrawing`: the merged image becomes the page's drawing, the history
      keeps its first `step + 1` entries and the image, and the step advances. */
  function Stroke(c: Canvas, page: nat, image: string): Canvas
  {
    var h := HistoryAt(c, page);
    var step := StepAt(c, page);
    Canvas(c.drawings[page := image], c.history[page := Take(h, step + 1) + [image]],
      c.historyStep[page := step + 1])
  }

  /** `handleUndo`: above step 0, step back and show the history entry at the new
      step when there is one (an empty image counts as none). */
  function Undo(c: Canvas, page: nat): Canvas
  {
    var h := HistoryAt(c, page);
    var step := StepAt(c, page);
    if step > 0 then
      var shown := if step - 1 < |h| && h[step - 1] != "" then c.drawings[page := h[step - 1]] else c.drawings;
      Canvas(shown, c.history, c.historyStep[page := step - 1])
    else c
  }

  /** `handleRedo`: below the last entry, step on and show the entry there. */
  function Redo(c: Canvas, page: nat): Canvas
  {
    var h := HistoryAt(c, page);
    var step := StepAt(c, page);
    if step < |h| - 1 then
      var shown := if h[step + 1] != "" then c.drawings[page := h[step + 1]] else c.drawings;
      Canvas(shown, c.history, c.historyStep[page := step + 1])
    else c
  }

  /** The history entry a page shows: the one at its step, or the last one when
      the step has run one past the end, as it does after a run of strokes. */
  function ShownIndex(step: nat, length: nat): int
  {
    if step < length then step else length - 1
  }

  /** A page's maps agree: its step and history are kept together, the step never
      passes the history's length, no entry is empty, and the page has a drawing
      exactly when it has a history, namely the entry at the shown index. */
  predicate PageCoherent(c: Canvas, page: nat)
  {
    var h := HistoryAt(c, page);
    var step := StepAt(c, page);
    (page in c.history <==> page in c.historyStep) && step <= |h| &&
    (forall i :: 0 <= i < |h| ==> h[i] != "") &&
    (page in c.drawings <==> |h| > 0) &&
    (|h| > 0 ==> c.drawings[page] == h[ShownIndex(step, |h|)])
  }

  ghost predicate Coherent(c: Canvas)
  {
    forall page: nat :: PageCoherent(c, page)
  }

  lemma EmptyCanvasCoherent()
    ensures Coherent(EmptyCanvas)
  {
    forall page: nat ensures PageCoherent(EmptyCanvas, page) {
    }
  }

  /** The maps of page `page` are the same in `c` and `d`. */
  predicate SamePage(c: Canvas, d: Canvas, page: nat)
  {
    (page in c.drawings <==> page in d.drawings) &&
    (page in c.drawings ==> c.drawings[page] == d.drawings[page]) &&
    HistoryAt(c, page) == HistoryAt(d, page) && StepAt(c, page) == StepAt(d, page) &&
    (page in c.history <==> page in d.history) && (page in c.historyStep <==> page in d.historyStep)
  }

  /** Each operation changes the maps at its own page only. */
  lemma OtherPagesUntouched(c: Canvas, page: nat, other: nat, image: string)
    requires other != page
    ensures SamePage(c, Stroke(c, page, image), other) && SamePage(c, Undo(c, page), other)
    ensures SamePage(c, Redo(c, page), other) && SamePage(c, ClearPage(c, page), other)
  {
  }

  /** A stroke keeps the canvas coherent and is what the page then shows. */
  lemma StrokeKeepsCoherent(c: Canvas, page: nat, image: string)
    requires Coherent(c) && image != ""
    ensures Coherent(Stroke(c, page, image))
    ensures Stroke(c, page, image).drawings[page] == image
  {
    var d := Stroke(c, page, image);
    forall p: nat ensures PageCoherent(d, p) {
      assert PageCoherent(c, p);
      if p != page {
        OtherPagesUntouched(c, page, p, image);
      } else {
        var h := HistoryAt(c, page);
        var step := StepAt(c, page);
        var h2 := Take(h, step + 1) + [image];
        assert HistoryAt(d, page) == h2;
        assert h2[|h2| - 1] == image;
        assert forall i :: 0 <= i < |h2| - 1 ==> h2[i] == h[i];
      }
    }
  }

  lemma UndoKeepsCoherent(c: Canvas, page: nat)
    requires Coherent(c)
    ensures Coherent(Undo(c, page))
  {
    var d := Undo(c, page);
    forall p: nat ensures PageCoherent(d, p) {
      assert PageCoherent(c, p);
      if p != page {
        OtherPagesUntouched(c, page, p, "");
      }
    }
  }

  lemma RedoKeepsCoherent(c: Canvas, page: nat)
    requires Coherent(c)
    ensures Coherent(Redo(c, page))
  {
    var d := Redo(c, page);
    forall p: nat ensures PageCoherent(d, p) {
      assert PageCoherent(c, p);
      if p != page {
        OtherPagesUntouched(c, page, p, "");
      }
    }
  }

  /** Clearing keeps the canvas coherent and leaves the page undrawn at step 0,
      with nothing to undo or redo. */
  lemma ClearKeepsCoherent(c: Canvas, page: nat)
    requires Coherent(c)
    ensures Coherent(ClearPage(c, page))
    ensures page !in ClearPage(c, page).drawings && StepAt(ClearPage(c, page), page) == 0
    ensures Undo(ClearPage(c, page), page) == ClearPage(c, page) == Redo(ClearPage(c, page), page)
  {
    var d := ClearPage(c, page);
    forall p: nat ensures PageCoherent(d, p) {
      assert PageCoherent(c, p);
      if p != page {
        OtherPagesUntouched(c, page, p, "");
      }
    }
  }

  /** A run of strokes leaves the step one past the last history entry, so the
      first undo after a stroke shows that stroke again: the drawing does not
      change, only the step. */
  lemma UndoAfterStrokeReshows(c: Canvas, page: nat, image: string)
    requires StepAt(c, page) == |HistoryAt(c, page)| && image != ""
    ensures StepAt(Stroke(c, page, image), page) == |HistoryAt(Stroke(c, page, image), page)|
    ensures Undo(Stroke(c, page, image), page).drawings == Stroke(c, page, image).drawings
    ensures StepAt(Undo(Stroke(c, page, image), page), page) == StepAt(c, page)
  {
    var h := HistoryAt(c, page);
    var s := Stroke(c, page, image);
    assert HistoryAt(s, page) == h + [image];
    assert StepAt(s, page) == |h| + 1;
    assert HistoryAt(s, page)[|h|] == image;
  }

  /** On a page drawn once, undo leaves that stroke in the drawing: the first
      stroke of a page cannot be taken back. */
  lemma FirstStrokeSurvivesUndo()
    ensures Undo(Stroke(EmptyCanvas, 0, "stroke"), 0).drawings == map[0 := "stroke"]
    ensures Undo(Undo(Stroke(EmptyCanvas, 0, "stroke"), 0), 0) == Undo(Stroke(EmptyCanvas, 0, "stroke"), 0)
  {
    UndoAfterStrokeReshows(EmptyCanvas, 0, "stroke");
  }

  /** Below the end of the history, redo takes back an undo exactly. */
  lemma RedoRevertsUndo(c: Canvas, page: nat)
    requires Coherent(c) && 0 < StepAt(c, page) < |HistoryAt(c, page)|
    ensures Redo(Undo(c, page), page) == c
  {
    assert PageCoherent(c, page);
    var h := HistoryAt(c, page);
    var step := StepAt(c, page);
    var u := Undo(c, page);
    assert u.drawings == c.drawings[page := h[step - 1]];
    assert u.historyStep == c.historyStep[page := step - 1];
    assert c.drawings[page := h[step - 1]][page := h[step]] == c.drawings;
    assert c.historyStep[page := step - 1][page := step] == c.historyStep;
  }

  /** After a stroke following an undo the step is on the last entry, and undo
      then shows the entry before the stroke. */
  lemma StrokeAfterUndoTruncates(c: Canvas, page: nat, image: string)
    requires Coherent(c) && StepAt(c, page) < |HistoryAt(c, page)| && image != ""
    ensures var d := Stroke(c, page, image);
      HistoryAt(d, page) == HistoryAt(c, page)[..StepAt(c, page) + 1] + [image] &&
      StepAt(d, page) == |HistoryAt(d, page)| - 1
    ensures Undo(Stroke(c, page, image), page).drawings == c.drawings
  {
    assert PageCoherent(c, page);
    var h := HistoryAt(c, page);
    var step := StepAt(c, page);
    var d := Stroke(c, page, image);
    assert HistoryAt(d, page) == h[..step + 1] + [image];
    assert HistoryAt(d, page)[step] == h[step];
    assert c.drawings[page := image][page := h[step]] == c.drawings;
  }

  /** What the viewer does to its canvas. */
  datatype CanvasAction = StrokeOn(page: nat, image: string) | UndoOn(page: nat) | RedoOn(page: nat) | ClearOn(page: nat)

  function Apply(c: Canvas, a: CanvasAction): Canvas
  {
    match a
    case StrokeOn(p, image) => Stroke(c, p, image)
    case UndoOn(p) => Undo(c, p)
    case RedoOn(p) => Redo(c, p)
    case ClearOn(p) => ClearPage(c, p)
  }

  function Run(c: Canvas, actions: seq<CanvasAction>): Canvas
    decreases |actions|
  {
    if actions == [] then c else Run(Apply(c, actions[0]), actions[1..])
  }

  /** Any sequence of strokes (each a non-empty image), undos, redos and clears
      keeps every page coherent: in particular `0 <= step <= |history|`, and the
      drawing saved for a page is its history entry at the shown index. */
  lemma {:induction false} RunKeepsCoherent(c: Canvas, actions: seq<CanvasAction>)
    requires Coherent(c)
    requires forall i :: 0 <= i < |actions| && actions[i].StrokeOn? ==> actions[i].image != ""
    ensures Coherent(Run(c, actions))
    decreases |actions|
  {
    if actions != [] {
      var d := Apply(c, actions[0]);
      match actions[0] {
        case StrokeOn(p, image) => StrokeKeepsCoherent(c, p, image);
        case UndoOn(p) => UndoKeepsCoherent(c, p);
        case RedoOn(p) => RedoKeepsCoherent(c, p);
        case ClearOn(p) => ClearKeepsCoherent(c, p);
      }
      assert forall i :: 0 <= i < |actions[1..]| ==> actions[1..][i] == actions[i + 1];
      RunKeepsCoherent(d, actions[1..]);
    }
  }

  // ---------------------------------------------------------------------------
  // Saving.

  /** `handleSave`: nothing without a name that is more than white space,
      otherwise a completed record of the template's category and identifier
      carrying every page's drawing. */
  function SaveRecord(form: FormTemplate, patient: Patient, filledBy: string, filledByRole: string,
                      notes: string, drawings: map<nat, string>): (r: Option<FormInfo>)
    ensures r.None? <==> Trim(filledBy) == []
    ensures r.Some? ==> (r.value.patientId == patient.id && r.value.formId == Some(form.id) &&
      r.value.formName == form.name && r.value.formData == Some(drawings) && r.value.status == "Completed")
    ensures r.Some? ==> (r.value.filledBy == Trim(filledBy) && r.value.filledBy != [] &&
      r.value.notes == Trim(notes) && r.value.filledByRole == filledByRole)
    ensures r.Some? ==> r.value.patientName.None? && r.value.completedAt.None?
  {
    var name := Trim(filledBy);
    if name == [] then None
    else Some(FormInfo(patient.id, None, CategoryName(form.category), form.name, Some(form.id), name,
      filledByRole, Trim(notes), Some(drawings), "Completed", None))
  }

  /** The record's type is the template's category, so an operating-theatre
      template's record, and only such a one, is stored with the
      operating-theatre forms. */
  lemma SaveRecordRoutesByCategory(form: FormTemplate, patient: Patient, filledBy: string,
                                   filledByRole: string, notes: string, drawings: map<nat, string>)
    requires Trim(filledBy) != []
    ensures var r := SaveRecord(form, patient, filledBy, filledByRole, notes, drawings);
      r.Some? && (r.value.formType == "OT" <==> form.category == OT)
  {
    CategoryNameOt(form.category);
  }

  /** The viewer of one template for one patient. */
  class DrawableFormViewer {
    const form: FormTemplate
    const patient: Patient
    const view: PageView
    var notes: string
    var filledBy: string
    var filledByRole: string
    var isDrawing: bool
    var canvas: Canvas

    ghost predicate Valid()
      reads this, view
    {
      view.Valid() && view.totalPages == |form.pages| && Coherent(canvas)
    }

    constructor (form: FormTemplate, patient: Patient)
      ensures Valid() && fresh(view) && this.form == form && this.patient == patient
      ensures view.currentPage == 0 && view.zoom == InitialZoom
      ensures notes == "" && filledBy == "" && filledByRole == "Nurse"
      ensures !isDrawing && canvas == EmptyCanvas
    {
      this.form := form;
      this.patient := patient;
      view := new PageView(|form.pages|);
      notes := "";
      filledBy := "";
      filledByRole := "Nurse";
      isDrawing := false;
      canvas := EmptyCanvas;
      new;
      EmptyCanvasCoherent();
    }

    /** `startDrawing`: a pen-down begins a stroke. */
    method StartDrawing()
      requires Valid()
      modifies this
      ensures Valid() && isDrawing && canvas == old(canvas)
      ensures notes == old(notes) && filledBy == old(filledBy) && filledByRole == old(filledByRole)
    {
      isDrawing := true;
    }

    /** `stopDrawing`: a pen-up or a pen leaving the canvas ends the stroke in
      progress, if any, and records the merged `image` on the current page. */
    method StopDrawing(image: string)
      requires Valid() && image != ""
      modifies this
      ensures Valid() && !isDrawing
      ensures canvas == if old(isDrawing) then Stroke(old(canvas), view.currentPage, image) else old(canvas)
      ensures notes == old(notes) && filledBy == old(filledBy) && filledByRole == old(filledByRole)
    {
      if isDrawing {
        isDrawing := false;
        StrokeKeepsCoherent(canvas, view.currentPage, image);
        canvas := Stroke(canvas, view.currentPage, image);
      }
    }

    method HandleUndo()
      requires Valid()
      modifies this
      ensures Valid() && canvas == Undo(old(canvas), view.currentPage)
      ensures isDrawing == old(isDrawing)
      ensures notes == old(notes) && filledBy == old(filledBy) && filledByRole == old(filledByRole)
    {
      UndoKeepsCoherent(canvas, view.currentPage);
      canvas := Undo(canvas, view.currentPage);
    }

    method HandleRedo()
      requires Valid()
      modifies this
      ensures Valid() && canvas == Redo(old(canvas), view.currentPage)
      ensures isDrawing == old(isDrawing)
      ensures notes == old(notes) && filledBy == old(filledBy) && filledByRole == old(filledByRole)
    {
      RedoKeepsCoherent(canvas, view.currentPage);
      canvas := Redo(canvas, view.currentPage);
    }

    /** `handleClearPage`: only once the user confirms. */
    method HandleClearPage(confirmed: bool)
      requires Valid()
      modifies this
      ensures Valid() && canvas == if confirmed then ClearPage(old(canvas), view.currentPage) else old(canvas)
      ensures isDrawing == old(isDrawing)
      ensures notes == old(notes) && filledBy == old(filledBy) && filledByRole == old(filledByRole)
    {
      if confirmed {
        ClearKeepsCoherent(canvas, view.currentPage);
        canvas := ClearPage(canvas, view.currentPage);
      }
    }

    /** The name, role and notes inputs. */
    method EnterDetails(filledBy: string, filledByRole: string, notes: string)
      requires Valid()
      modifies this
      ensures Valid() && canvas == old(canvas) && isDrawing == old(isDrawing)
      ensures this.filledBy == filledBy && this.filledByRole == filledByRole && this.notes == notes
    {
      this.filledBy := filledBy;
      this.filledByRole := filledByRole;
      this.notes := notes;
    }

    /** `handleSave`: the record handed to `onSave`, if any. */
    method HandleSave() returns (r: Option<FormInfo>)
      requires Valid()
      ensures r == SaveRecord(form, patient, filledBy, filledByRole, notes, canvas.drawings)
      ensures r.Some? ==> forall page :: page in canvas.drawings ==> page in r.value.formData.value
    {
      r := SaveRecord(form, patient, filledBy, filledByRole, notes, canvas.drawings);
    }
  }
}
