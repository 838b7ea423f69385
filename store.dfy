// The relational store the database-mode handlers read and write, as a
// value: one sequence of rows per table, in storage order. A `QueryRow`
// reads the first row that matches; an UPDATE or DELETE with
// `WHERE key = ?` affects every row that matches.
module Store {
  import opened Common
  import opened Seqs

  /** A row of [USER]. */
  datatype UserRow = UserRow(userId: string, hoTen: Cell, soDienThoai: Cell, email: Cell,
                             username: string, password: string, status: string, role: string)

  /**
   * Reading a [USER] row into the Go `User` record succeeds: HoTen goes into
   * a plain string, and scanning a NULL into one fails.
   */
  predicate NameScans(u: UserRow)
  {
    u.hoTen.Text?
  }

  /** A row of CUSTOMER: the customer-only profile fields. */
  datatype CustomerRow = CustomerRow(userId: string, ngaySinh: Cell, gioiTinh: Cell, diaChi: Cell, maBaoHiem: Cell)

  /** Membership of a user in one of the staff tables BACSI, LETAN, KETOAN and BANDIEUHANH, named by its role. */
  datatype StaffRow = StaffRow(userId: string, role: string)

  /** A row of QUANLYPHONGKHAM: a clinic manager and the clinic they run. */
  datatype ManagerRow = ManagerRow(userId: string, clinicId: string)

  /** A row of PHONGKHAM. */
  datatype ClinicRow = ClinicRow(clinicId: string, name: string)

  /** A row of LICHLAMVIEC, a doctor's work shift; the clinic column is nullable. */
  datatype ScheduleRow = ScheduleRow(id: string, doctor: string, clinic: Cell, date: string,
                                     start: string, end: string, status: string)

  /** A row of LICHKHAM, an appointment. */
  datatype AppointmentRow = AppointmentRow(id: string, customer: string, doctor: string, clinic: string,
                                           dateTime: Cell, status: Cell, note: Cell)

  /** A row of HOSO, a medical record, reduced to what the lab-test rules read. */
  datatype RecordRow = RecordRow(id: string, customer: string, doctor: string)

  /** A row of XETNGHIEM, a lab test; the date is seconds since the Unix epoch, or NULL. */
  datatype LabTestRow = LabTestRow(id: string, record: string, testType: Cell, date: Option<int>,
                                   result: Cell, note: Cell)

  /** A row of PASSWORD_RESET; the expiry is seconds since the Unix epoch. */
  datatype ResetRow = ResetRow(id: string, userId: string, email: string, code: string, used: bool, expiresAt: int)

  // The two values of a shift's status column.
  const AVAILABLE := "AVAILABLE"
  const UNAVAILABLE := "UNAVAILABLE"

  /**
   * An appointment status that `trangThai NOT IN ('CANCELLED', 'COMPLETED')`
   * accepts: present (NULL fails the test) and neither of the two.
   */
  predicate IsOpen(status: Cell)
  {
    status.Text? && status.text != "CANCELLED" && status.text != "COMPLETED"
  }

  datatype Db = Db(users: seq<UserRow>, customers: seq<CustomerRow>, staff: seq<StaffRow>,
                   managers: seq<ManagerRow>, clinics: seq<ClinicRow>, schedules: seq<ScheduleRow>,
                   appointments: seq<AppointmentRow>, records: seq<RecordRow>, labTests: seq<LabTestRow>,
                   resets: seq<ResetRow>)

  // Keys the queries select on.
  function UserRowId(r: UserRow): string { r.userId }
  function CustomerRowUser(r: CustomerRow): string { r.userId }
  function ManagerRowUser(r: ManagerRow): string { r.userId }
  function ScheduleRowId(r: ScheduleRow): string { r.id }
  function AppointmentRowId(r: AppointmentRow): string { r.id }
  function RecordRowId(r: RecordRow): string { r.id }
  function LabTestRowId(r: LabTestRow): string { r.id }

  /** `SELECT maPhongKham FROM QUANLYPHONGKHAM WHERE maUser = ?`: the managed clinic, None when there is no row. */
  function ManagerClinic(db: Db, userId: string): (c: Option<string>)
    ensures c.Some? <==> exists m :: m in db.managers && m.userId == userId
    ensures c.Some? ==> ManagerRow(userId, c.value) in db.managers
  {
    match FirstOf(db.managers, ManagerRowUser, userId)
    case None => None
    case Some(m) => Some(m.clinicId)
  }

  /** `SELECT 1 FROM <table of role> WHERE MaUser = ?` finds a row. */
  predicate InRoleTable(db: Db, role: string, userId: string)
  {
    if role == CUSTOMER then exists c :: c in db.customers && c.userId == userId
    else if role == CLINIC_MANAGER then exists m :: m in db.managers && m.userId == userId
    else StaffRow(userId, role) in db.staff
  }
}
