/** The wards page: the add / edit form, the ward record its submission derives,
    and each ward card's occupancy rate and colour band. */
module WardsPage {

  import opened Collections
  import opened Text
  import opened Records

  /** The rate a card shows: `(occupied / total * 100).toFixed(0)`, which is a
      whole percent, or `Infinity`, `NaN` or `-Infinity` when the ward has no
      beds. */
  datatype Rate = Percent(value: int) | PlusInfinity | NotANumber | MinusInfinity

  /** `occupancyRate` of a card; the quotient is taken as an exact fraction. */
  function WardRate(occupied: int, total: int): (r: Rate)
    ensures total > 0 ==> r.Percent? && -total <= 2 * (100 * occupied - r.value * total) <= total
    ensures total == 0 ==> (r == PlusInfinity <==> occupied > 0) && (r == NotANumber <==> occupied == 0)
  {
    if total > 0 then Percent(RoundQuotient(100 * occupied, total))
    else if total < 0 then Percent(RoundQuotient(-100 * occupied, -total))
    else if occupied > 0 then PlusInfinity
    else if occupied < 0 then MinusInfinity
    else NotANumber
  }

  /** The colour of the occupancy bar. */
  datatype Band = Red | Yellow | Green

  /** `occupancyRate >= 90 ? red : occupancyRate >= 70 ? yellow : green`; the text
      `Infinity` compares above both thresholds, `NaN` and `-Infinity` below. */
  function OccupancyBand(rate: Rate): Band
  {
    match rate
    case Percent(v) => if v >= 90 then Red else if v >= 70 then Yellow else Green
    case PlusInfinity => Red
    case NotANumber => Green
    case MinusInfinity => Green
  }

  /** For a ward with beds, the rounding puts the thresholds at 89.5 and 69.5 per
      cent of the exact occupancy. */
  lemma BandByOccupancy(occupied: int, total: int)
    requires total > 0 && occupied >= 0
    ensures OccupancyBand(WardRate(occupied, total)) == Red <==> 200 * occupied >= 179 * total
    ensures OccupancyBand(WardRate(occupied, total)) == Yellow <==>
      139 * total <= 200 * occupied < 179 * total
    ensures OccupancyBand(WardRate(occupied, total)) == Green <==> 200 * occupied < 139 * total
  {
    RoundAtLeast(100 * occupied, total, 90);
    RoundAtLeast(100 * occupied, total, 70);
  }

  /** A full ward is red at 100 per cent, an empty one green at 0. */
  lemma FullAndEmptyWards(total: int)
    requires total > 0
    ensures WardRate(total, total) == Percent(100) && OccupancyBand(WardRate(total, total)) == Red
    ensures WardRate(0, total) == Percent(0) && OccupancyBand(WardRate(0, total)) == Green
  {
    BandByOccupancy(total, total);
    BandByOccupancy(0, total);
    RoundAtLeast(100 * total, total, 100);
    RoundAtLeast(100 * total, total, 101);
    RoundAtLeast(0, total, 0);
    RoundAtLeast(0, total, 1);
  }

  /** A ward without beds is red when anyone occupies one and green otherwise. */
  lemma BedlessWardBand(occupied: int)
    ensures OccupancyBand(WardRate(occupied, 0)) == Red <==> occupied > 0
  {
  }

  /** The form's inputs, as text. */
  datatype WardForm = WardForm(
    name: string,
    floor: string,
    totalBeds: string,
    occupiedBeds: string,
    department: string,
    nurseInCharge: string)

  const NewWardForm := WardForm("", "", "", "", "", "")

  /** `handleOpenModal(ward)`: the ward's current fields, numbers as their text. */
  function PrefillWard(w: Ward): WardForm
  {
    WardForm(w.info.name, IntToString(w.info.floor), IntToString(w.info.totalBeds),
      IntToString(w.info.occupiedBeds), w.info.department, w.info.nurseInCharge)
  }

  /** `wardData`: the numbers parsed, `None` for `NaN`, and the free beds
      derived from them. */
  datatype WardData = WardData(
    name: string,
    floor: Option<int>,
    totalBeds: Option<int>,
    occupiedBeds: Option<int>,
    availableBeds: Option<int>,
    department: string,
    nurseInCharge: string)

  /** `handleSubmit`'s derivation: `availableBeds = totalBeds - occupiedBeds`,
      `NaN` when either is not a number. */
  function SubmittedWard(f: WardForm): (d: WardData)
    ensures d.name == f.name && d.department == f.department && d.nurseInCharge == f.nurseInCharge
    ensures d.floor == ParseInt(f.floor) && d.totalBeds == ParseInt(f.totalBeds)
    ensures d.occupiedBeds == ParseInt(f.occupiedBeds)
    ensures d.availableBeds.Some? <==> d.totalBeds.Some? && d.occupiedBeds.Some?
    ensures d.availableBeds.Some? ==> d.availableBeds.value == d.totalBeds.value - d.occupiedBeds.value
  {
    DataOfNumbers(f, ParseInt(f.floor), ParseInt(f.totalBeds), ParseInt(f.occupiedBeds))
  }

  /** The submitted data once the form's three numbers are read. */
  function DataOfNumbers(f: WardForm, floor: Option<int>, total: Option<int>, occupied: Option<int>): WardData
  {
    var available := if total.Some? && occupied.Some? then Some(total.value - occupied.value) else None;
    WardData(f.name, floor, total, occupied, available, f.department, f.nurseInCharge)
  }

  /** The ward record the data makes when every number was parsed. */
  function StoredInfo(d: WardData): Option<WardInfo>
  {
    if d.floor.Some? && d.totalBeds.Some? && d.occupiedBeds.Some? && d.availableBeds.Some? then
      Some(WardInfo(d.name, d.floor.value, d.totalBeds.value, d.occupiedBeds.value, d.availableBeds.value,
        d.department, d.nurseInCharge))
    else None
  }

  /** A submitted ward always has its free beds equal to the total less the
      occupied, so its tallies agree whenever the occupied count is not
      negative. */
  lemma SubmittedTalliesAgree(f: WardForm)
    ensures StoredInfo(SubmittedWard(f)).Some? <==>
      ParseInt(f.floor).Some? && ParseInt(f.totalBeds).Some? && ParseInt(f.occupiedBeds).Some?
    ensures StoredInfo(SubmittedWard(f)).Some? ==> (var w := StoredInfo(SubmittedWard(f)).value;
      w.availableBeds == w.totalBeds - w.occupiedBeds && (w.occupiedBeds >= 0 ==> BedsConsistent(w)))
  {
  }

  /** Opening a ward and submitting the form untouched sends the ward back with its
      free beds recomputed, which is the ward itself when its tallies agreed. */
  lemma PrefillRoundTrip(w: Ward)
    ensures StoredInfo(SubmittedWard(PrefillWard(w))) ==
      Some(w.info.(availableBeds := w.info.totalBeds - w.info.occupiedBeds))
    ensures BedsConsistent(w.info) ==> StoredInfo(SubmittedWard(PrefillWard(w))) == Some(w.info)
  {
    ParseIntOfIntToString(w.info.floor);
    ParseIntOfIntToString(w.info.totalBeds);
    ParseIntOfIntToString(w.info.occupiedBeds);
    SubmittedOfWardText(w, PrefillWard(w));
  }

  /** A form that shows a ward's text fields and whose numbers read back as the
      ward's is stored as that ward, free beds recomputed. */
  lemma SubmittedOfWardText(w: Ward, f: WardForm)
    requires f.name == w.info.name && f.department == w.info.department && f.nurseInCharge == w.info.nurseInCharge
    requires ParseInt(f.floor) == Some(w.info.floor) && ParseInt(f.totalBeds) == Some(w.info.totalBeds)
    requires ParseInt(f.occupiedBeds) == Some(w.info.occupiedBeds)
    ensures StoredInfo(SubmittedWard(f)) == Some(w.info.(availableBeds := w.info.totalBeds - w.info.occupiedBeds))
    ensures BedsConsistent(w.info) ==> StoredInfo(SubmittedWard(f)) == Some(w.info)
  {
    SubmittedParsed(f, w.info.floor, w.info.totalBeds, w.info.occupiedBeds);
    var recomputed := w.info.(availableBeds := w.info.totalBeds - w.info.occupiedBeds);
    if BedsConsistent(w.info) {
      assert recomputed == w.info;
    }
  }

  /** A form whose three numbers parse is stored with those numbers. */
  lemma SubmittedParsed(f: WardForm, floor: int, total: int, occupied: int)
    requires ParseInt(f.floor) == Some(floor) && ParseInt(f.totalBeds) == Some(total)
    requires ParseInt(f.occupiedBeds) == Some(occupied)
    ensures StoredInfo(SubmittedWard(f)) ==
      Some(WardInfo(f.name, floor, total, occupied, total - occupied, f.department, f.nurseInCharge))
  {
    assert SubmittedWard(f) == DataOfNumbers(f, Some(floor), Some(total), Some(occupied));
    StoredNumbers(f, floor, total, occupied);
  }

  lemma StoredNumbers(f: WardForm, floor: int, total: int, occupied: int)
    ensures StoredInfo(DataOfNumbers(f, Some(floor), Some(total), Some(occupied))) ==
      Some(WardInfo(f.name, floor, total, occupied, total - occupied, f.department, f.nurseInCharge))
  {
  }

  /** The form's inputs. */
  datatype WardField = Name | Floor | TotalBeds | OccupiedBeds | Department | NurseInCharge

  function FieldOf(f: WardForm, field: WardField): string
  {
    match field
    case Name => f.name
    case Floor => f.floor
    case TotalBeds => f.totalBeds
    case OccupiedBeds => f.occupiedBeds
    case Department => f.department
    case NurseInCharge => f.nurseInCharge
  }

  /** `handleChange`: `[e.target.name]: e.target.value`. */
  function ApplyChange(f: WardForm, field: WardField, value: string): (r: WardForm)
    ensures FieldOf(r, field) == value
    ensures forall other: WardField :: other != field ==> FieldOf(r, other) == FieldOf(f, other)
  {
    match field
    case Name => f.(name := value)
    case Floor => f.(floor := value)
    case TotalBeds => f.(totalBeds := value)
    case OccupiedBeds => f.(occupiedBeds := value)
    case Department => f.(department := value)
    case NurseInCharge => f.(nurseInCharge := value)
  }

  /** The calls the page makes into the store. */
  datatype WardCall = AddWardCall(data: WardData) | UpdateWardCall(id: string, data: WardData)

  /** The add / edit modal of the wards page. */
  class WardsPage {
    var formData: WardForm
    var editingWard: Option<Ward>
    var isModalOpen: bool

    constructor ()
      ensures formData == NewWardForm && editingWard.None? && !isModalOpen
    {
      formData := NewWardForm;
      editingWard := None;
      isModalOpen := false;
    }

    /** `handleOpenModal`: the ward's fields to edit, an empty form otherwise. */
    method OpenModal(ward: Option<Ward>)
      modifies this
      ensures isModalOpen && editingWard == ward
      ensures ward.Some? ==> formData == PrefillWard(ward.value)
      ensures ward.None? ==> formData == NewWardForm
    {
      editingWard := ward;
      if ward.Some? {
        formData := PrefillWard(ward.value);
      } else {
        formData := NewWardForm;
      }
      isModalOpen := true;
    }

    /** `handleCloseModal`. */
    method CloseModal()
      modifies this
      ensures !isModalOpen && editingWard.None? && formData == old(formData)
    {
      isModalOpen := false;
      editingWard := None;
    }

    /** `handleChange`. */
    method HandleChange(field: WardField, value: string)
      modifies this
      ensures formData == ApplyChange(old(formData), field, value)
      ensures editingWard == old(editingWard) && isModalOpen == old(isModalOpen)
    {
      formData := ApplyChange(formData, field, value);
    }

    /** `handleSubmit`: an edit goes to `updateWard` with the ward's id, a new ward
        to `addWard`; the modal closes when the store accepts. */
    method Submit(outcome: Remote) returns (call: WardCall)
      modifies this
      ensures old(editingWard).Some? ==> call == UpdateWardCall(old(editingWard).value.id, SubmittedWard(formData))
      ensures old(editingWard).None? ==> call == AddWardCall(SubmittedWard(formData))
      ensures outcome.Accept? ==> !isModalOpen && editingWard.None?
      ensures outcome.Reject? ==> isModalOpen == old(isModalOpen) && editingWard == old(editingWard)
      ensures formData == old(formData)
    {
      var data := SubmittedWard(formData);
      if editingWard.Some? {
        call := UpdateWardCall(editingWard.value.id, data);
      } else {
        call := AddWardCall(data);
      }
      if outcome.Accept? {
        isModalOpen := false;
        editingWard := None;
      }
    }
  }
}
