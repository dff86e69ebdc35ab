/** The staff page: the search and filters over the staff list, the role and
    department choices, the doctor and nurse groups, the avatar initials, and the
    add / edit modal with its submission. */
module StaffPage {

  import opened Collections
  import opened Text
  import opened Records

  /** The search box matches the name or the specialization. */
  predicate StaffMatchesSearch(m: StaffMember, term: string)
  {
    MatchesTerm(m.info.name, term) || MatchesTerm(m.info.specialization, term)
  }

  /** A role or department filter: `All` lets everyone through. */
  predicate FilterAdmits(filter: string, value: string)
  {
    filter == "All" || value == filter
  }

  function KeepStaff(term: string, role: string, department: string): StaffMember -> bool
  {
    (m: StaffMember) => StaffMatchesSearch(m, term) && FilterAdmits(role, m.info.role) &&
      FilterAdmits(department, m.info.department)
  }

  /** `filteredStaff`. */
  function FilteredStaff(staff: seq<StaffMember>, term: string, role: string, department: string): seq<StaffMember>
  {
    Filter(staff, KeepStaff(term, role, department))
  }

  /** The list keeps its order and holds exactly the members matching the search
      and both filters. */
  lemma FilteredStaffExact(staff: seq<StaffMember>, term: string, role: string, department: string)
    ensures IsSubsequence(FilteredStaff(staff, term, role, department), staff)
    ensures forall i :: 0 <= i < |staff| ==>
      (staff[i] in FilteredStaff(staff, term, role, department) <==>
        StaffMatchesSearch(staff[i], term) && FilterAdmits(role, staff[i].info.role) &&
        FilterAdmits(department, staff[i].info.department))
  {
    FilterExact(staff, KeepStaff(term, role, department));
  }

  /** With the search empty and both filters `All`, every member is listed. */
  lemma UnfilteredListsEveryone(staff: seq<StaffMember>)
    ensures FilteredStaff(staff, "", "All", "All") == staff
  {
    forall i | 0 <= i < |staff| ensures KeepStaff("", "All", "All")(staff[i]) {
      EmptyTermMatches(staff[i].info.name);
    }
    FilterAll(staff, KeepStaff("", "All", "All"));
  }

  /** `[...new Set(values)]`: each value once, where it first occurs. */
  function KeepFirst(values: seq<string>): (r: seq<string>)
  {
    if values == [] then []
    else
      var seen := KeepFirst(values[..|values| - 1]);
      if values[|values| - 1] in seen then seen else seen + [values[|values| - 1]]
  }

  /** `x` occurs in `values` before any `y` does. */
  predicate SeenBefore(values: seq<string>, x: string, y: string)
  {
    exists k :: 0 <= k < |values| && values[k] == x && y !in values[..k + 1]
  }

  /** The distinct list holds every value once and nothing else, in the order the
      values first occur. */
  lemma {:induction false} KeepFirstIsDistinct(values: seq<string>)
    ensures NoDuplicates(KeepFirst(values))
    ensures forall x :: x in KeepFirst(values) <==> x in values
    ensures forall i, j :: 0 <= i < j < |KeepFirst(values)| ==>
      SeenBefore(values, KeepFirst(values)[i], KeepFirst(values)[j])
  {
    if values != [] {
      var init, last := values[..|values| - 1], values[|values| - 1];
      assert values == init + [last];
      KeepFirstIsDistinct(init);
      var seen := KeepFirst(init);
      var r := KeepFirst(values);
      forall i, j | 0 <= i < j < |r| ensures SeenBefore(values, r[i], r[j]) {
        if j < |seen| {
          assert SeenBefore(init, seen[i], seen[j]);
          var k :| 0 <= k < |init| && init[k] == seen[i] && seen[j] !in init[..k + 1];
          assert values[..k + 1] == init[..k + 1];
        } else {
          assert r[j] == last && last !in init;
          assert r[i] in init;
          var k :| 0 <= k < |init| && init[k] == r[i];
          assert values[..k + 1] == init[..k + 1];
          assert forall x :: x in init[..k + 1] ==> x in init;
        }
      }
    }
  }

  function StaffRole(m: StaffMember): string { m.info.role }

  function StaffDepartment(m: StaffMember): string { m.info.department }

  /** `staff.map(f)`. */
  function Column(staff: seq<StaffMember>, f: StaffMember -> string): (r: seq<string>)
    ensures |r| == |staff| && forall i :: 0 <= i < |staff| ==> r[i] == f(staff[i])
  {
    seq(|staff|, i requires 0 <= i < |staff| => f(staff[i]))
  }

  /** `roles`: `All`, then each role once. */
  function Roles(staff: seq<StaffMember>): seq<string>
  {
    ["All"] + KeepFirst(Column(staff, StaffRole))
  }

  /** `departments`: `All`, then each department once. */
  function Departments(staff: seq<StaffMember>): seq<string>
  {
    ["All"] + KeepFirst(Column(staff, StaffDepartment))
  }

  /** After `All`, every member's role is offered once, and only members' roles;
      the same for departments. */
  lemma ChoicesAreDistinct(staff: seq<StaffMember>)
    ensures Roles(staff)[0] == "All" && NoDuplicates(Roles(staff)[1..])
    ensures forall r :: r in Roles(staff)[1..] <==> exists i :: 0 <= i < |staff| && staff[i].info.role == r
    ensures Departments(staff)[0] == "All" && NoDuplicates(Departments(staff)[1..])
    ensures forall d :: d in Departments(staff)[1..] <==>
      exists i :: 0 <= i < |staff| && staff[i].info.department == d
  {
    var roles, departments := Column(staff, StaffRole), Column(staff, StaffDepartment);
    KeepFirstIsDistinct(roles);
    KeepFirstIsDistinct(departments);
    assert Roles(staff)[1..] == KeepFirst(roles);
    assert Departments(staff)[1..] == KeepFirst(departments);
    forall r ensures r in roles <==> exists i :: 0 <= i < |staff| && staff[i].info.role == r {
      if exists i :: 0 <= i < |staff| && staff[i].info.role == r {
        var i :| 0 <= i < |staff| && staff[i].info.role == r;
        assert roles[i] == r;
      }
    }
    forall d ensures d in departments <==> exists i :: 0 <= i < |staff| && staff[i].info.department == d {
      if exists i :: 0 <= i < |staff| && staff[i].info.department == d {
        var i :| 0 <= i < |staff| && staff[i].info.department == d;
        assert departments[i] == d;
      }
    }
  }

  function RoleIs(role: string): StaffMember -> bool
  {
    (m: StaffMember) => m.info.role == role
  }

  /** `doctors`. */
  function Doctors(filtered: seq<StaffMember>): seq<StaffMember>
  {
    Filter(filtered, RoleIs("Doctor"))
  }

  /** `nurses`. */
  function Nurses(filtered: seq<StaffMember>): seq<StaffMember>
  {
    Filter(filtered, RoleIs("Nurse"))
  }

  /** The two groups keep the list's order, hold exactly its doctors and its
      nurses, and share nobody. */
  lemma GroupsAreDisjoint(filtered: seq<StaffMember>)
    ensures IsSubsequence(Doctors(filtered), filtered) && IsSubsequence(Nurses(filtered), filtered)
    ensures forall i :: 0 <= i < |filtered| ==>
      (filtered[i] in Doctors(filtered) <==> filtered[i].info.role == "Doctor")
    ensures forall i :: 0 <= i < |filtered| ==>
      (filtered[i] in Nurses(filtered) <==> filtered[i].info.role == "Nurse")
    ensures forall m :: m in Doctors(filtered) ==> m !in Nurses(filtered)
  {
    FilterExact(filtered, RoleIs("Doctor"));
    FilterExact(filtered, RoleIs("Nurse"));
    forall m | m in Doctors(filtered) ensures m !in Nurses(filtered) {
      var i :| 0 <= i < |Doctors(filtered)| && Doctors(filtered)[i] == m;
      assert m.info.role == "Doctor";
    }
  }

  /** `name.split(' ')`: the parts between single spaces, empty ones included. */
  function Split(s: string): (parts: seq<string>)
    ensures |parts| > 0
  {
    if s == [] then [[]]
    else if s[0] == ' ' then [[]] + Split(s[1..])
    else
      var rest := Split(s[1..]);
      [[s[0]] + rest[0]] + rest[1..]
  }

  /** `.map(n => n[0]).join('')`: an empty part gives `undefined`, which joins as
      nothing. */
  function InitialsOf(parts: seq<string>): string
  {
    if parts == [] then []
    else (if parts[0] == [] then [] else [parts[0][0]]) + InitialsOf(parts[1..])
  }

  /** The avatar text. */
  function Initials(name: string): string
  {
    InitialsOf(Split(name))
  }

  /** The characters that begin a word: not a space, and first or after a space. */
  function WordStarts(s: string, afterSpace: bool): string
  {
    if s == [] then []
    else (if s[0] != ' ' && afterSpace then [s[0]] else []) + WordStarts(s[1..], s[0] == ' ')
  }

  lemma {:induction false} InitialsAreWordStarts(s: string)
    ensures InitialsOf(Split(s)) == WordStarts(s, true)
    ensures InitialsOf(Split(s)[1..]) == WordStarts(s, false)
  {
    if s != [] {
      InitialsAreWordStarts(s[1..]);
      if s[0] == ' ' {
        assert Split(s)[1..] == Split(s[1..]);
      } else {
        var rest := Split(s[1..]);
        assert Split(s)[1..] == rest[1..];
        assert Split(s) == [[s[0]] + rest[0]] + rest[1..];
      }
    }
  }

  /** The avatar shows the first letter of every word of the name, in order. */
  lemma InitialsOfName(name: string)
    ensures Initials(name) == WordStarts(name, true)
  {
    InitialsAreWordStarts(name);
  }

  /** The fields of the modal's form, each an input or a select. */
  datatype StaffField = Name | Role | Department | Specialization | Phone | Email | Shift | Status

  function FieldOf(f: StaffInfo, field: StaffField): string
  {
    match field
    case Name => f.name
    case Role => f.role
    case Department => f.department
    case Specialization => f.specialization
    case Phone => f.phone
    case Email => f.email
    case Shift => f.shift
    case Status => f.status
  }

  /** `handleChange`: `[e.target.name]: e.target.value`. */
  function ApplyChange(f: StaffInfo, field: StaffField, value: string): (r: StaffInfo)
    ensures FieldOf(r, field) == value
    ensures forall other: StaffField :: other != field ==> FieldOf(r, other) == FieldOf(f, other)
  {
    match field
    case Name => f.(name := value)
    case Role => f.(role := value)
    case Department => f.(department := value)
    case Specialization => f.(specialization := value)
    case Phone => f.(phone := value)
    case Email => f.(email := value)
    case Shift => f.(shift := value)
    case Status => f.(status := value)
  }

  /** The form a new member starts from. */
  const NewStaffForm := StaffInfo("", "Nurse", "", "", "", "", "Morning", "Active")

  /** The calls the page makes into the store. */
  datatype StaffCall = AddStaffCall(info: StaffInfo) | UpdateStaffCall(id: string, info: StaffInfo)

  /** The add / edit modal of the staff page. */
  class StaffPage {
    var formData: StaffInfo
    var editingStaff: Option<StaffMember>
    var isModalOpen: bool

    constructor ()
      ensures formData == NewStaffForm && editingStaff.None? && !isModalOpen
    {
      formData := NewStaffForm;
      editingStaff := None;
      isModalOpen := false;
    }

    /** `handleOpenModal`: the member's own fields to edit, the defaults otherwise. */
    method OpenModal(member: Option<StaffMember>)
      modifies this
      ensures isModalOpen && editingStaff == member
      ensures member.Some? ==> formData == member.value.info
      ensures member.None? ==> formData == NewStaffForm
    {
      editingStaff := member;
      if member.Some? {
        formData := member.value.info;
      } else {
        formData := NewStaffForm;
      }
      isModalOpen := true;
    }

    /** `handleCloseModal`. */
    method CloseModal()
      modifies this
      ensures !isModalOpen && editingStaff.None? && formData == old(formData)
    {
      isModalOpen := false;
      editingStaff := None;
    }

    /** `handleChange`. */
    method HandleChange(field: StaffField, value: string)
      modifies this
      ensures formData == ApplyChange(old(formData), field, value)
      ensures editingStaff == old(editingStaff) && isModalOpen == old(isModalOpen)
    {
      formData := ApplyChange(formData, field, value);
    }

    /** `handleSubmit`: an edit goes to `updateStaff` with the member's id, a new
        member to `addStaff`; the modal closes when the store accepts. */
    method Submit(outcome: Remote) returns (call: StaffCall)
      modifies this
      ensures old(editingStaff).Some? ==> call == UpdateStaffCall(old(editingStaff).value.id, formData)
      ensures old(editingStaff).None? ==> call == AddStaffCall(formData)
      ensures outcome.Accept? ==> !isModalOpen && editingStaff.None?
      ensures outcome.Reject? ==> isModalOpen == old(isModalOpen) && editingStaff == old(editingStaff)
      ensures formData == old(formData)
    {
      if editingStaff.Some? {
        call := UpdateStaffCall(editingStaff.value.id, formData);
      } else {
        call := AddStaffCall(formData);
      }
      if outcome.Accept? {
        isModalOpen := false;
        editingStaff := None;
      }
    }
  }

  /** Opening a member and submitting the form untouched sends the member's own
      record back under its own id. */
  method EditUnchanged(member: StaffMember, outcome: Remote) returns (call: StaffCall)
    ensures call == UpdateStaffCall(member.id, member.info)
  {
    var page := new StaffPage();
    page.OpenModal(Some(member));
    call := page.Submit(outcome);
  }
}
