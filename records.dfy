/** The entities the store keeps, in the application's camelCase shape: every
    stored record is an identifier plus the fields its edit form submits. An unset
    reference (a `null` or empty `wardId`) is the empty string. */
module Records {

  import opened Collections

  datatype PatientStatus = Admitted | Critical | Stable | Recovering | Discharged

  /** Every status but `Discharged` holds a bed. */
  predicate IsActive(s: PatientStatus)
  {
    s != Discharged
  }

  datatype WardInfo = WardInfo(
    name: string,
    floor: int,
    totalBeds: int,
    occupiedBeds: int,
    availableBeds: int,
    department: string,
    nurseInCharge: string)

  datatype Ward = Ward(id: string, info: WardInfo)

  /** The bed tallies agree: none negative, and the free beds are the rest. */
  predicate BedsConsistent(w: WardInfo)
  {
    0 <= w.occupiedBeds && w.availableBeds == w.totalBeds - w.occupiedBeds
  }

  datatype PatientInfo = PatientInfo(
    name: string,
    age: Option<int>,
    gender: string,
    wardId: string,
    bedNumber: string,
    diagnosis: string,
    status: PatientStatus,
    doctor: string,
    emergencyContact: string,
    bloodGroup: string)

  /** Timestamps are opaque instants, ordered as numbers. */
  datatype Patient = Patient(id: string, info: PatientInfo, admissionDate: int, dischargeDate: Option<int>)

  datatype StaffInfo = StaffInfo(
    name: string,
    role: string,
    department: string,
    specialization: string,
    phone: string,
    email: string,
    shift: string,
    status: string)

  datatype StaffMember = StaffMember(id: string, info: StaffInfo)

  /** A filled-in form as the viewers hand it over; a field one of the viewers does
      not set is `None`. `formData` maps a page index to that page's image. */
  datatype FormInfo = FormInfo(
    patientId: string,
    patientName: Option<string>,
    formType: string,
    formName: string,
    formId: Option<string>,
    filledBy: string,
    filledByRole: string,
    notes: string,
    formData: Option<map<nat, string>>,
    status: string,
    completedAt: Option<int>)

  datatype SavedForm = SavedForm(id: string, info: FormInfo)
}
