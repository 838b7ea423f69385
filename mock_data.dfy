// The in-memory data service behind the mock API: slices of records that
// its methods scan, append to, patch and splice in place, and the overlap
// test used to refuse a doctor two shifts at once.
module MockData {
  import opened Common
  import opened Text
  import opened Clock
  import opened Seqs

  datatype User = User(maUser: string, hoTen: string, tenDangNhap: string, matKhau: string,
                       role: string, trangThai: string)
  datatype Customer = Customer(maUser: string, ngayDangKy: string)
  datatype Doctor = Doctor(maUser: string, chuyenKhoa: Option<string>)
  datatype Clinic = Clinic(maPhongKham: string, tenPhongKham: string)
  datatype Medicine = Medicine(maThuoc: string, tenThuoc: string)
  datatype Appointment = Appointment(maLichKham: string, maCustomer: string, maBacSi: string,
                                     maPhongKham: string, ngayGioKham: string, trangThai: string)
  datatype MedicalRecord = MedicalRecord(maHoSo: string, maCustomer: string, maBacSi: string,
                                         maPhongKham: string, ngayKham: string)

  /** One shift of a doctor at a clinic on a date, from a start time to an end time. */
  datatype WorkSchedule = WorkSchedule(maLichLamViec: string, maBacSi: string, maPhongKham: string,
                                       ngayLamViec: string, gioBatDau: string, gioKetThuc: string,
                                       trangThai: string)

  const ACTIVE := "ACTIVE"

  // Keys the scans compare.
  function UserIdOf(u: User): string { u.maUser }
  function UsernameOf(u: User): string { u.tenDangNhap }
  function CustomerUserOf(c: Customer): string { c.maUser }
  function DoctorUserOf(d: Doctor): string { d.maUser }
  function ClinicIdOf(c: Clinic): string { c.maPhongKham }
  function MedicineIdOf(m: Medicine): string { m.maThuoc }
  function AppointmentIdOf(a: Appointment): string { a.maLichKham }
  function AppointmentCustomerOf(a: Appointment): string { a.maCustomer }
  function AppointmentDoctorOf(a: Appointment): string { a.maBacSi }
  function RecordIdOf(r: MedicalRecord): string { r.maHoSo }
  function RecordCustomerOf(r: MedicalRecord): string { r.maCustomer }
  function ScheduleIdOf(w: WorkSchedule): string { w.maLichLamViec }
  function ScheduleDoctorOf(w: WorkSchedule): string { w.maBacSi }
  function ScheduleClinicOf(w: WorkSchedule): string { w.maPhongKham }
  /** The time slot of a shift: clinic, date, start and end. */
  function SlotOf(w: WorkSchedule): (string, string, string, string)
  {
    (w.maPhongKham, w.ngayLamViec, w.gioBatDau, w.gioKetThuc)
  }

  // -----------------------------------------------------------------------
  // Overlap of two shifts
  // -----------------------------------------------------------------------

  /**
   * timeOverlaps: two shifts overlap unless the second starts at or after
   * the end of the first, or the first starts at or after the end of the
   * second, comparing the times as strings.
   */
  predicate TimeOverlaps(start1: string, end1: string, start2: string, end2: string)
  {
    if !StrLess(start2, end1) || !StrLess(start1, end2) then false else true
  }

  /** A shift ending when the next one starts does not overlap it. */
  lemma BackToBackShiftsDoNotOverlap(start1: string, end1: string, end2: string)
    ensures !TimeOverlaps(start1, end1, end1, end2)
    ensures !TimeOverlaps(end1, end2, start1, end1)
  {
    StrLessIrreflexive(end1);
  }

  /** Minute `m` of the day lies in the half-open interval [start, end). */
  predicate CoversMinute(start: string, end: string, m: int)
    requires IsValidTimeFormat(start) && IsValidTimeFormat(end)
  {
    ClockMinutes(start) <= m < ClockMinutes(end)
  }

  /**
   * On zero-padded "HH:MM" times of shifts that end after they start, the
   * string test is the clock test: the two shifts overlap exactly when some
   * minute of the day lies in both half-open intervals.
   */
  lemma TimeOverlapsIsSharedMinute(start1: string, end1: string, start2: string, end2: string)
    requires IsHHMM(start1) && IsHHMM(end1) && IsHHMM(start2) && IsHHMM(end2)
    requires ClockMinutes(start1) < ClockMinutes(end1) && ClockMinutes(start2) < ClockMinutes(end2)
    ensures TimeOverlaps(start1, end1, start2, end2) <==>
      exists m :: CoversMinute(start1, end1, m) && CoversMinute(start2, end2, m)
  {
    HHMMOrderAgrees(start2, end1);
    HHMMOrderAgrees(start1, end2);
    var s1, s2 := ClockMinutes(start1), ClockMinutes(start2);
    if TimeOverlaps(start1, end1, start2, end2) {
      var m := if s1 < s2 then s2 else s1;
      assert CoversMinute(start1, end1, m) && CoversMinute(start2, end2, m);
    }
  }

  /** The shift a conflict check with these arguments would refuse: same doctor, same date, ACTIVE, overlapping. */
  predicate ConflictsWith(w: WorkSchedule, doctorID: string, date: string, startTime: string, endTime: string)
  {
    w.maBacSi == doctorID && w.ngayLamViec == date && w.trangThai == ACTIVE
    && TimeOverlaps(w.gioBatDau, w.gioKetThuc, startTime, endTime)
  }

  predicate AnyConflict(ws: seq<WorkSchedule>, doctorID: string, date: string, startTime: string, endTime: string)
  {
    exists i :: 0 <= i < |ws| && ConflictsWith(ws[i], doctorID, date, startTime, endTime)
  }

  /** Shifts that are not ACTIVE never take part in a conflict. */
  lemma InactiveShiftsIgnored(ws: seq<WorkSchedule>, w: WorkSchedule, doctorID: string, date: string,
                              startTime: string, endTime: string)
    requires w.trangThai != ACTIVE
    ensures AnyConflict(ws + [w], doctorID, date, startTime, endTime) == AnyConflict(ws, doctorID, date, startTime, endTime)
  {
    if AnyConflict(ws + [w], doctorID, date, startTime, endTime) {
      var i :| 0 <= i < |ws + [w]| && ConflictsWith((ws + [w])[i], doctorID, date, startTime, endTime);
      assert i < |ws| && ConflictsWith(ws[i], doctorID, date, startTime, endTime);
    }
    if AnyConflict(ws, doctorID, date, startTime, endTime) {
      var i :| 0 <= i < |ws| && ConflictsWith(ws[i], doctorID, date, startTime, endTime);
      assert (ws + [w])[i] == ws[i];
    }
  }

  // -----------------------------------------------------------------------
  // Identifiers, filters and patches of shifts
  // -----------------------------------------------------------------------

  /** fmt.Sprintf("SCH%03d", n). */
  function ScheduleId(n: nat): string
  {
    "SCH" + FormatInt(n, 3)
  }

  /** Different counts give different identifiers. */
  lemma ScheduleIdInjective(a: nat, b: nat)
    requires ScheduleId(a) == ScheduleId(b)
    ensures a == b
  {
    assert ScheduleId(a)[3..] == FormatInt(a, 3);
    assert ScheduleId(b)[3..] == FormatInt(b, 3);
    FormatIntInjective(a, b, 3);
  }

  /**
   * Illustrates ScheduleId and ScheduleIdInjective on three numbers:
   * three digits at least, wider once the count needs it. Since the number
   * is the count of records plus one, deleting SCH001 from [SCH001, SCH002]
   * makes the next shift SCH002 again.
   */
  lemma ScheduleIdExamples()
    ensures ScheduleId(1) == "SCH001" && ScheduleId(2) == "SCH002" && ScheduleId(1000) == "SCH1000"
  {
    assert NatToString(1) == "1" && NatToString(2) == "2";
    assert NatToString(1000) == "1000" by {
      assert NatToString(1) == "1";
      assert NatToString(10) == "10";
      assert NatToString(100) == "100";
    }
    assert Zeros(2) == "00";
  }

  /** The filters of GetFilteredSchedules: an empty filter value matches everything. */
  predicate MatchesFilter(w: WorkSchedule, doctorID: string, clinicID: string, date: string)
  {
    (doctorID == "" || w.maBacSi == doctorID)
    && (clinicID == "" || w.maPhongKham == clinicID)
    && (date == "" || w.ngayLamViec == date)
  }

  function FilteredSchedules(ws: seq<WorkSchedule>, doctorID: string, clinicID: string, date: string): (r: seq<WorkSchedule>)
    ensures forall w :: w in r <==> w in ws && MatchesFilter(w, doctorID, clinicID, date)
  {
    if ws == [] then []
    else
      var w := ws[|ws| - 1];
      FilteredSchedules(ws[..|ws| - 1], doctorID, clinicID, date)
        + (if MatchesFilter(w, doctorID, clinicID, date) then [w] else [])
  }

  /** With no filter at all every shift is returned, in store order. */
  lemma {:induction false} NoFilterKeepsAll(ws: seq<WorkSchedule>)
    ensures FilteredSchedules(ws, "", "", "") == ws
  {
    if ws != [] {
      NoFilterKeepsAll(ws[..|ws| - 1]);
    }
  }

  function OrElse(o: Option<string>, current: string): string
  {
    if o.Some? then o.value else current
  }

  /** The record after UpdateSchedule overwrote the fields it was given. */
  function Patched(w: WorkSchedule, doctorID: Option<string>, clinicID: Option<string>, date: Option<string>,
                   startTime: Option<string>, endTime: Option<string>, status: Option<string>): (r: WorkSchedule)
    ensures r.maLichLamViec == w.maLichLamViec
    ensures doctorID == clinicID == date == startTime == endTime == status == None ==> r == w
  {
    w.(maBacSi := OrElse(doctorID, w.maBacSi), maPhongKham := OrElse(clinicID, w.maPhongKham),
       ngayLamViec := OrElse(date, w.ngayLamViec), gioBatDau := OrElse(startTime, w.gioBatDau),
       gioKetThuc := OrElse(endTime, w.gioKetThuc), trangThai := OrElse(status, w.trangThai))
  }

  /** The doctors GetDoctorsByClinic lists: for each shift at the clinic, the first doctor record of its doctor. */
  function DoctorsByClinic(ws: seq<WorkSchedule>, ds: seq<Doctor>, clinicID: string): (r: seq<Doctor>)
    ensures forall d :: d in r ==> d in ds
    ensures |r| <= |ws|
  {
    if ws == [] then []
    else
      var w := ws[|ws| - 1];
      DoctorsByClinic(ws[..|ws| - 1], ds, clinicID)
        + (if w.maPhongKham == clinicID then
             match FirstOf(ds, DoctorUserOf, w.maBacSi)
             case Some(d) => [d]
             case None => []
           else [])
  }

  /** The shift is at the clinic and `d` is the first doctor record of its doctor. */
  predicate ListsAt(w: WorkSchedule, ds: seq<Doctor>, clinicID: string, d: Doctor)
  {
    w.maPhongKham == clinicID && FirstOf(ds, DoctorUserOf, w.maBacSi) == Some(d)
  }

  /** A doctor is listed exactly when one of the clinic's shifts names them and theirs is the first record with that user id. */
  lemma {:induction false} DoctorsByClinicMembers(ws: seq<WorkSchedule>, ds: seq<Doctor>, clinicID: string, d: Doctor)
    ensures d in DoctorsByClinic(ws, ds, clinicID) <==> exists i :: 0 <= i < |ws| && ListsAt(ws[i], ds, clinicID, d)
  {
    if ws != [] {
      var ws', w := ws[..|ws| - 1], ws[|ws| - 1];
      DoctorsByClinicMembers(ws', ds, clinicID, d);
      var tail := if w.maPhongKham == clinicID then
                    (match FirstOf(ds, DoctorUserOf, w.maBacSi) case Some(x) => [x] case None => [])
                  else [];
      assert DoctorsByClinic(ws, ds, clinicID) == DoctorsByClinic(ws', ds, clinicID) + tail;
      assert d in tail <==> ListsAt(w, ds, clinicID, d);
      if exists i :: 0 <= i < |ws'| && ListsAt(ws'[i], ds, clinicID, d) {
        var i :| 0 <= i < |ws'| && ListsAt(ws'[i], ds, clinicID, d);
        assert ws[i] == ws'[i];
      }
      if exists i :: 0 <= i < |ws| && ListsAt(ws[i], ds, clinicID, d) {
        var i :| 0 <= i < |ws| && ListsAt(ws[i], ds, clinicID, d);
        if i < |ws'| {
          assert ws'[i] == ws[i];
        }
      }
    }
  }

  /** Illustrates DoctorsByClinic listing one entry per shift: a doctor with two shifts at the clinic is listed twice. */
  lemma DoctorsByClinicRepeats(d: Doctor, w1: WorkSchedule, w2: WorkSchedule)
    requires w1.maBacSi == d.maUser && w2.maBacSi == d.maUser
    requires w1.maPhongKham == w2.maPhongKham
    ensures DoctorsByClinic([w1, w2], [d], w1.maPhongKham) == [d, d]
  {
    assert [w1, w2][..1] == [w1];
    assert [w1][..0] == [];
    assert FirstOf([d], DoctorUserOf, d.maUser) == Some(d);
  }

  // -----------------------------------------------------------------------
  // The service
  // -----------------------------------------------------------------------

  class MockDataService {
    var users: seq<User>
    var customers: seq<Customer>
    var doctors: seq<Doctor>
    var clinics: seq<Clinic>
    var medicines: seq<Medicine>
    var appointments: seq<Appointment>
    var workSchedules: seq<WorkSchedule>
    var medicalRecords: seq<MedicalRecord>

    /** The service over the records the fixture files held. */
    constructor(users: seq<User>, customers: seq<Customer>, doctors: seq<Doctor>, clinics: seq<Clinic>,
                medicines: seq<Medicine>, appointments: seq<Appointment>, workSchedules: seq<WorkSchedule>,
                medicalRecords: seq<MedicalRecord>)
      ensures this.users == users && this.customers == customers && this.doctors == doctors
      ensures this.clinics == clinics && this.medicines == medicines && this.appointments == appointments
      ensures this.workSchedules == workSchedules && this.medicalRecords == medicalRecords
    {
      this.users := users;
      this.customers := customers;
      this.doctors := doctors;
      this.clinics := clinics;
      this.medicines := medicines;
      this.appointments := appointments;
      this.workSchedules := workSchedules;
      this.medicalRecords := medicalRecords;
    }

    // ---- lookups: the first record with the key, or "not found" ----

    method GetUserByUsername(username: string) returns (r: Option<User>)
      ensures r == FirstOf(users, UsernameOf, username)
    {
      var i := FindFirst(users, UsernameOf, username);
      r := if i.Some? then Some(users[i.value]) else None;
    }

    method GetUserByID(userID: string) returns (r: Option<User>)
      ensures r == FirstOf(users, UserIdOf, userID)
    {
      var i := FindFirst(users, UserIdOf, userID);
      r := if i.Some? then Some(users[i.value]) else None;
    }

    method GetCustomerByUserID(userID: string) returns (r: Option<Customer>)
      ensures r == FirstOf(customers, CustomerUserOf, userID)
    {
      var i := FindFirst(customers, CustomerUserOf, userID);
      r := if i.Some? then Some(customers[i.value]) else None;
    }

    method GetDoctorByUserID(userID: string) returns (r: Option<Doctor>)
      ensures r == FirstOf(doctors, DoctorUserOf, userID)
    {
      var i := FindFirst(doctors, DoctorUserOf, userID);
      r := if i.Some? then Some(doctors[i.value]) else None;
    }

    method GetClinicByID(clinicID: string) returns (r: Option<Clinic>)
      ensures r == FirstOf(clinics, ClinicIdOf, clinicID)
    {
      var i := FindFirst(clinics, ClinicIdOf, clinicID);
      r := if i.Some? then Some(clinics[i.value]) else None;
    }

    method GetAppointmentByID(appointmentID: string) returns (r: Option<Appointment>)
      ensures r == FirstOf(appointments, AppointmentIdOf, appointmentID)
    {
      var i := FindFirst(appointments, AppointmentIdOf, appointmentID);
      r := if i.Some? then Some(appointments[i.value]) else None;
    }

    method GetMedicalRecordByID(recordID: string) returns (r: Option<MedicalRecord>)
      ensures r == FirstOf(medicalRecords, RecordIdOf, recordID)
    {
      var i := FindFirst(medicalRecords, RecordIdOf, recordID);
      r := if i.Some? then Some(medicalRecords[i.value]) else None;
    }

    method GetMedicineByID(medicineID: string) returns (r: Option<Medicine>)
      ensures r == FirstOf(medicines, MedicineIdOf, medicineID)
    {
      var i := FindFirst(medicines, MedicineIdOf, medicineID);
      r := if i.Some? then Some(medicines[i.value]) else None;
    }

    method GetScheduleByID(scheduleID: string) returns (r: Option<WorkSchedule>)
      ensures r == FirstOf(workSchedules, ScheduleIdOf, scheduleID)
    {
      var i := FindFirst(workSchedules, ScheduleIdOf, scheduleID);
      r := if i.Some? then Some(workSchedules[i.value]) else None;
    }

    // ---- filters: every record with the key, in store order ----

    method GetAppointmentsByCustomer(customerID: string) returns (r: seq<Appointment>)
      ensures r == WithKey(appointments, AppointmentCustomerOf, customerID)
    {
      r := CollectWithKey(appointments, AppointmentCustomerOf, customerID);
    }

    method GetAppointmentsByDoctor(doctorID: string) returns (r: seq<Appointment>)
      ensures r == WithKey(appointments, AppointmentDoctorOf, doctorID)
    {
      r := CollectWithKey(appointments, AppointmentDoctorOf, doctorID);
    }

    method GetSchedulesByDoctor(doctorID: string) returns (r: seq<WorkSchedule>)
      ensures r == WithKey(workSchedules, ScheduleDoctorOf, doctorID)
    {
      r := CollectWithKey(workSchedules, ScheduleDoctorOf, doctorID);
    }

    method GetSchedulesByClinic(clinicID: string) returns (r: seq<WorkSchedule>)
      ensures r == WithKey(workSchedules, ScheduleClinicOf, clinicID)
    {
      r := CollectWithKey(workSchedules, ScheduleClinicOf, clinicID);
    }

    method GetMedicalRecordsByCustomer(customerID: string) returns (r: seq<MedicalRecord>)
      ensures r == WithKey(medicalRecords, RecordCustomerOf, customerID)
    {
      r := CollectWithKey(medicalRecords, RecordCustomerOf, customerID);
    }

    method GetDoctorsByClinic(clinicID: string) returns (r: seq<Doctor>)
      ensures r == DoctorsByClinic(workSchedules, doctors, clinicID)
    {
      r := [];
      for i := 0 to |workSchedules|
        invariant r == DoctorsByClinic(workSchedules[..i], doctors, clinicID)
      {
        assert workSchedules[..i + 1][..i] == workSchedules[..i];
        var schedule := workSchedules[i];
        if schedule.maPhongKham == clinicID {
          var j := FindFirst(doctors, DoctorUserOf, schedule.maBacSi);
          if j.Some? {
            r := r + [doctors[j.value]];
          }
        }
      }
      assert workSchedules[..|workSchedules|] == workSchedules;
    }

    method GetFilteredSchedules(doctorID: string, clinicID: string, date: string) returns (r: seq<WorkSchedule>)
      ensures r == FilteredSchedules(workSchedules, doctorID, clinicID, date)
    {
      r := [];
      for i := 0 to |workSchedules|
        invariant r == FilteredSchedules(workSchedules[..i], doctorID, clinicID, date)
      {
        assert workSchedules[..i + 1][..i] == workSchedules[..i];
        var schedule := workSchedules[i];
        var match_ := true;
        if doctorID != "" && schedule.maBacSi != doctorID {
          match_ := false;
        }
        if clinicID != "" && schedule.maPhongKham != clinicID {
          match_ := false;
        }
        if date != "" && schedule.ngayLamViec != date {
          match_ := false;
        }
        if match_ {
          r := r + [schedule];
        }
      }
      assert workSchedules[..|workSchedules|] == workSchedules;
    }

    /** True exactly when an ACTIVE shift of the doctor on the date overlaps the given times. */
    method HasScheduleConflict(doctorID: string, date: string, startTime: string, endTime: string) returns (has: bool)
      ensures has == AnyConflict(workSchedules, doctorID, date, startTime, endTime)
    {
      for i := 0 to |workSchedules|
        invariant forall j :: 0 <= j < i ==> !ConflictsWith(workSchedules[j], doctorID, date, startTime, endTime)
      {
        var schedule := workSchedules[i];
        if schedule.maBacSi == doctorID && schedule.ngayLamViec == date && schedule.trangThai == ACTIVE {
          if TimeOverlaps(schedule.gioBatDau, schedule.gioKetThuc, startTime, endTime) {
            return true;
          }
        }
      }
      return false;
    }

    // ---- changes ----

    /** Appends an ACTIVE shift numbered after the current count of shifts. */
    method CreateSchedule(doctorID: string, clinicID: string, date: string, startTime: string, endTime: string)
      returns (created: WorkSchedule)
      modifies this`workSchedules
      ensures created == WorkSchedule(ScheduleId(|old(workSchedules)| + 1), doctorID, clinicID, date,
                                      startTime, endTime, ACTIVE)
      ensures workSchedules == old(workSchedules) + [created]
    {
      var newID := ScheduleId(|workSchedules| + 1);
      created := WorkSchedule(newID, doctorID, clinicID, date, startTime, endTime, ACTIVE);
      workSchedules := workSchedules + [created];
    }

    /** Overwrites the given fields of the first shift with the identifier; nothing else changes. */
    method UpdateSchedule(scheduleID: string, doctorID: Option<string>, clinicID: Option<string>, date: Option<string>,
                          startTime: Option<string>, endTime: Option<string>, status: Option<string>)
      returns (r: Option<WorkSchedule>)
      modifies this`workSchedules
      ensures var i := FirstIndexOf(old(workSchedules), ScheduleIdOf, scheduleID);
        if i.None? then r.None? && workSchedules == old(workSchedules)
        else r == Some(Patched(old(workSchedules)[i.value], doctorID, clinicID, date, startTime, endTime, status))
             && workSchedules == old(workSchedules)[i.value := r.value]
    {
      var i := FindFirst(workSchedules, ScheduleIdOf, scheduleID);
      if i.None? {
        return None;
      }
      var k := i.value;
      var w := workSchedules[k];
      if doctorID.Some? {
        w := w.(maBacSi := doctorID.value);
      }
      if clinicID.Some? {
        w := w.(maPhongKham := clinicID.value);
      }
      if date.Some? {
        w := w.(ngayLamViec := date.value);
      }
      if startTime.Some? {
        w := w.(gioBatDau := startTime.value);
      }
      if endTime.Some? {
        w := w.(gioKetThuc := endTime.value);
      }
      if status.Some? {
        w := w.(trangThai := status.value);
      }
      workSchedules := workSchedules[k := w];
      return Some(w);
    }

    /** Splices out the first shift with the identifier. */
    method DeleteSchedule(scheduleID: string) returns (found: bool)
      modifies this`workSchedules
      ensures var i := FirstIndexOf(old(workSchedules), ScheduleIdOf, scheduleID);
        if i.None? then !found && workSchedules == old(workSchedules)
        else found && workSchedules == old(workSchedules)[..i.value] + old(workSchedules)[i.value + 1..]
    {
      var i := FindFirst(workSchedules, ScheduleIdOf, scheduleID);
      if i.None? {
        return false;
      }
      workSchedules := workSchedules[..i.value] + workSchedules[i.value + 1..];
      return true;
    }

    /**
     * Gives the first shift with the same clinic, date, start and end to the
     * doctor and makes it ACTIVE; without one, creates the shift.
     */
    method AssignDoctorToSchedule(doctorID: string, clinicID: string, date: string, startTime: string, endTime: string)
      returns (r: WorkSchedule)
      modifies this`workSchedules
      ensures var i := FirstIndexOf(old(workSchedules), SlotOf, (clinicID, date, startTime, endTime));
        if i.Some? then
          r == old(workSchedules)[i.value].(maBacSi := doctorID, trangThai := ACTIVE)
          && workSchedules == old(workSchedules)[i.value := r]
        else
          r == WorkSchedule(ScheduleId(|old(workSchedules)| + 1), doctorID, clinicID, date, startTime, endTime, ACTIVE)
          && workSchedules == old(workSchedules) + [r]
    {
      var i := FindFirst(workSchedules, SlotOf, (clinicID, date, startTime, endTime));
      if i.Some? {
        r := workSchedules[i.value].(maBacSi := doctorID, trangThai := ACTIVE);
        workSchedules := workSchedules[i.value := r];
        return;
      }
      r := CreateSchedule(doctorID, clinicID, date, startTime, endTime);
    }

    /** Gives the first shift with the identifier to another doctor. */
    method ReassignDoctor(scheduleID: string, newDoctorID: string) returns (r: Option<WorkSchedule>)
      modifies this`workSchedules
      ensures var i := FirstIndexOf(old(workSchedules), ScheduleIdOf, scheduleID);
        if i.None? then r.None? && workSchedules == old(workSchedules)
        else r == Some(old(workSchedules)[i.value].(maBacSi := newDoctorID))
             && workSchedules == old(workSchedules)[i.value := r.value]
    {
      var i := FindFirst(workSchedules, ScheduleIdOf, scheduleID);
      if i.None? {
        return None;
      }
      var w := workSchedules[i.value].(maBacSi := newDoctorID);
      workSchedules := workSchedules[i.value := w];
      return Some(w);
    }
  }
}
