// The schedule endpoints of the in-memory API: each is a fixed sequence of
// checks with early returns, then one call that changes the shared store.
module MockScheduleHandlers {
  import opened Common
  import opened Text
  import opened Clock
  import opened Seqs
  import opened MockData

  /** The body of a create or assign request; every field is required (binding rejects an empty one). */
  datatype ShiftRequest = ShiftRequest(maBacSi: string, maPhongKham: string, ngayLamViec: string,
                                       gioBatDau: string, gioKetThuc: string)

  predicate Complete(req: ShiftRequest)
  {
    req.maBacSi != "" && req.maPhongKham != "" && req.ngayLamViec != "" && req.gioBatDau != ""
    && req.gioKetThuc != ""
  }

  /** The body of an update request: absent fields are left alone. */
  datatype ShiftPatch = ShiftPatch(maBacSi: Option<string>, maPhongKham: Option<string>, ngayLamViec: Option<string>,
                                   gioBatDau: Option<string>, gioKetThuc: Option<string>, trangThai: Option<string>)

  /**
   * The time check of these handlers: both times parse with Go's "15:04"
   * layout, which also takes a one-digit hour such as "9:00".
   */
  predicate TimesValid(start: string, end: string)
  {
    IsValidTimeFormat(start) && IsValidTimeFormat(end)
  }

  /** No two ACTIVE shifts of one doctor on one date overlap. */
  predicate NoActiveOverlap(ws: seq<WorkSchedule>)
  {
    forall i, j :: 0 <= i < |ws| && 0 <= j < |ws| && i != j
      && ws[i].trangThai == ACTIVE && ws[j].trangThai == ACTIVE
      && ws[i].maBacSi == ws[j].maBacSi && ws[i].ngayLamViec == ws[j].ngayLamViec
      ==> !TimeOverlaps(ws[i].gioBatDau, ws[i].gioKetThuc, ws[j].gioBatDau, ws[j].gioKetThuc)
  }

  /** Appending a shift that conflicts with no stored one keeps shifts apart. */
  lemma AppendWithoutConflictKeepsApart(ws: seq<WorkSchedule>, w: WorkSchedule)
    requires NoActiveOverlap(ws)
    requires !AnyConflict(ws, w.maBacSi, w.ngayLamViec, w.gioBatDau, w.gioKetThuc)
    ensures NoActiveOverlap(ws + [w])
  {
    var ws' := ws + [w];
    forall i, j | 0 <= i < |ws'| && 0 <= j < |ws'| && i != j
      && ws'[i].trangThai == ACTIVE && ws'[j].trangThai == ACTIVE
      && ws'[i].maBacSi == ws'[j].maBacSi && ws'[i].ngayLamViec == ws'[j].ngayLamViec
      ensures !TimeOverlaps(ws'[i].gioBatDau, ws'[i].gioKetThuc, ws'[j].gioBatDau, ws'[j].gioKetThuc)
    {
      if i == |ws| {
        assert !ConflictsWith(ws[j], w.maBacSi, w.ngayLamViec, w.gioBatDau, w.gioKetThuc);
      } else if j == |ws| {
        assert !ConflictsWith(ws[i], w.maBacSi, w.ngayLamViec, w.gioBatDau, w.gioKetThuc);
      } else {
        assert ws'[i] == ws[i] && ws'[j] == ws[j];
      }
    }
  }

  /**
   * A one-digit hour passes the time check and then escapes the conflict
   * check, whose string comparison puts "9:00" after "11:00": a doctor with
   * an ACTIVE 09:00-11:00 shift can be given 9:00-10:00 on the same date,
   * although both shifts cover minute 540 (09:00).
   */
  lemma OneDigitHourEscapesConflict(d: string, clinic: string, date: string)
    ensures var stored := WorkSchedule("SCH001", d, clinic, date, "09:00", "11:00", ACTIVE);
      TimesValid("9:00", "10:00")
      && !AnyConflict([stored], d, date, "9:00", "10:00")
      && CoversMinute("09:00", "11:00", 540) && CoversMinute("9:00", "10:00", 540)
  {
    var stored := WorkSchedule("SCH001", d, clinic, date, "09:00", "11:00", ACTIVE);
    assert "11:00"[0] == '1' && "9:00"[0] == '9';
    assert !StrLess("9:00", "11:00");
    assert !ConflictsWith([stored][0], d, date, "9:00", "10:00");
  }

  /**
   * Assigning skips the conflict check, so it can give a doctor two
   * overlapping ACTIVE shifts: 08:00-12:00 at one clinic, then 09:00-10:00
   * at another on the same date.
   */
  lemma AssignCanDoubleBook(d: string, date: string)
    ensures var first := WorkSchedule("SCH001", d, "CLN_A", date, "08:00", "12:00", ACTIVE);
      var second := WorkSchedule(ScheduleId(2), d, "CLN_B", date, "09:00", "10:00", ACTIVE);
      NoActiveOverlap([first])
      && FirstIndexOf([first], SlotOf, ("CLN_B", date, "09:00", "10:00")).None?
      && !NoActiveOverlap([first] + [second])
  {
    var first := WorkSchedule("SCH001", d, "CLN_A", date, "08:00", "12:00", ACTIVE);
    var second := WorkSchedule(ScheduleId(2), d, "CLN_B", date, "09:00", "10:00", ACTIVE);
    assert "09:00"[0] == '0' && "12:00"[0] == '1';
    assert "08:00"[..1] == "10:00"[..1][..0] + "0";
    assert StrLess("09:00", "12:00") && StrLess("08:00", "10:00");
    var ws := [first] + [second];
    assert ws[0] == first && ws[1] == second;
    assert TimeOverlaps(ws[0].gioBatDau, ws[0].gioKetThuc, ws[1].gioBatDau, ws[1].gioKetThuc);
  }

  /** GET /schedules: the filtered list; this call cannot fail. */
  method GetSchedules(svc: MockDataService, doctorID: string, clinicID: string, date: string)
    returns (status: Status, schedules: seq<WorkSchedule>)
    ensures status == OK
    ensures schedules == FilteredSchedules(svc.workSchedules, doctorID, clinicID, date)
  {
    schedules := svc.GetFilteredSchedules(doctorID, clinicID, date);
    status := OK;
  }

  /**
   * POST /schedules: complete body, then both times, then the doctor's user
   * record, then the clinic, then conflicts; only when all pass is one
   * ACTIVE shift appended.
   */
  method CreateSchedule(svc: MockDataService, req: ShiftRequest) returns (status: Status, created: Option<WorkSchedule>)
    modifies svc`workSchedules
    ensures !Complete(req) ==> status == BadRequest
    ensures Complete(req) && !TimesValid(req.gioBatDau, req.gioKetThuc) ==> status == BadRequest
    ensures (Complete(req) && TimesValid(req.gioBatDau, req.gioKetThuc)
             && FirstOf(svc.users, UserIdOf, req.maBacSi).None?) ==> status == NotFound
    ensures (Complete(req) && TimesValid(req.gioBatDau, req.gioKetThuc)
             && FirstOf(svc.users, UserIdOf, req.maBacSi).Some?
             && FirstOf(svc.clinics, ClinicIdOf, req.maPhongKham).None?) ==> status == NotFound
    ensures status == Conflict <==>
      Complete(req) && TimesValid(req.gioBatDau, req.gioKetThuc)
      && FirstOf(svc.users, UserIdOf, req.maBacSi).Some? && FirstOf(svc.clinics, ClinicIdOf, req.maPhongKham).Some?
      && AnyConflict(old(svc.workSchedules), req.maBacSi, req.ngayLamViec, req.gioBatDau, req.gioKetThuc)
    ensures status == OK <==>
      Complete(req) && TimesValid(req.gioBatDau, req.gioKetThuc)
      && FirstOf(svc.users, UserIdOf, req.maBacSi).Some? && FirstOf(svc.clinics, ClinicIdOf, req.maPhongKham).Some?
      && !AnyConflict(old(svc.workSchedules), req.maBacSi, req.ngayLamViec, req.gioBatDau, req.gioKetThuc)
    ensures status == OK ==>
      created == Some(WorkSchedule(ScheduleId(|old(svc.workSchedules)| + 1), req.maBacSi, req.maPhongKham,
                                   req.ngayLamViec, req.gioBatDau, req.gioKetThuc, ACTIVE))
      && svc.workSchedules == old(svc.workSchedules) + [created.value]
    ensures status != OK ==> created.None? && svc.workSchedules == old(svc.workSchedules)
    ensures status == OK && NoActiveOverlap(old(svc.workSchedules)) ==> NoActiveOverlap(svc.workSchedules)
  {
    if !Complete(req) {
      return BadRequest, None;
    }
    if !IsValidTimeFormat(req.gioBatDau) || !IsValidTimeFormat(req.gioKetThuc) {
      return BadRequest, None;
    }
    var doctor := svc.GetUserByID(req.maBacSi);
    if doctor.None? {
      return NotFound, None;
    }
    var clinic := svc.GetClinicByID(req.maPhongKham);
    if clinic.None? {
      return NotFound, None;
    }
    var conflict := svc.HasScheduleConflict(req.maBacSi, req.ngayLamViec, req.gioBatDau, req.gioKetThuc);
    if conflict {
      return Conflict, None;
    }
    ghost var before := svc.workSchedules;
    var schedule := svc.CreateSchedule(req.maBacSi, req.maPhongKham, req.ngayLamViec, req.gioBatDau, req.gioKetThuc);
    if NoActiveOverlap(before) {
      AppendWithoutConflictKeepsApart(before, schedule);
    }
    return OK, Some(schedule);
  }

  /** GET /schedules/:id: the first shift with the identifier, or 404. */
  method GetSchedule(svc: MockDataService, scheduleID: string) returns (status: Status, schedule: Option<WorkSchedule>)
    ensures schedule == FirstOf(svc.workSchedules, ScheduleIdOf, scheduleID)
    ensures status == (if schedule.None? then NotFound else OK)
  {
    schedule := svc.GetScheduleByID(scheduleID);
    status := if schedule.None? then NotFound else OK;
  }

  /**
   * PUT /schedules/:id: a given start or end time must parse (400
   * otherwise, nothing changed); then the store patches the shift, and an
   * unknown identifier is reported as 500. No conflict check is made.
   */
  method UpdateSchedule(svc: MockDataService, scheduleID: string, req: ShiftPatch)
    returns (status: Status, updated: Option<WorkSchedule>)
    modifies svc`workSchedules
    ensures req.gioBatDau.Some? && !IsValidTimeFormat(req.gioBatDau.value) ==> status == BadRequest
    ensures req.gioKetThuc.Some? && !IsValidTimeFormat(req.gioKetThuc.value) ==> status == BadRequest
    ensures status == BadRequest ==> svc.workSchedules == old(svc.workSchedules) && updated.None?
    ensures (req.gioBatDau.Some? ==> IsValidTimeFormat(req.gioBatDau.value)) && (req.gioKetThuc.Some? ==> IsValidTimeFormat(req.gioKetThuc.value)) ==>
      var i := FirstIndexOf(old(svc.workSchedules), ScheduleIdOf, scheduleID);
      if i.None? then
        status == InternalError && updated.None? && svc.workSchedules == old(svc.workSchedules)
      else
        status == OK
        && updated == Some(Patched(old(svc.workSchedules)[i.value], req.maBacSi, req.maPhongKham, req.ngayLamViec,
                                   req.gioBatDau, req.gioKetThuc, req.trangThai))
        && svc.workSchedules == old(svc.workSchedules)[i.value := updated.value]
  {
    if req.gioBatDau.Some? && !IsValidTimeFormat(req.gioBatDau.value) {
      return BadRequest, None;
    }
    if req.gioKetThuc.Some? && !IsValidTimeFormat(req.gioKetThuc.value) {
      return BadRequest, None;
    }
    updated := svc.UpdateSchedule(scheduleID, req.maBacSi, req.maPhongKham, req.ngayLamViec, req.gioBatDau,
                                  req.gioKetThuc, req.trangThai);
    status := if updated.None? then InternalError else OK;
  }

  /** DELETE /schedules/:id: removes the first shift with the identifier; an unknown one is a 500 and changes nothing. */
  method DeleteSchedule(svc: MockDataService, scheduleID: string) returns (status: Status)
    modifies svc`workSchedules
    ensures var i := FirstIndexOf(old(svc.workSchedules), ScheduleIdOf, scheduleID);
      if i.None? then status == InternalError && svc.workSchedules == old(svc.workSchedules)
      else status == OK && svc.workSchedules == old(svc.workSchedules)[..i.value] + old(svc.workSchedules)[i.value + 1..]
  {
    var found := svc.DeleteSchedule(scheduleID);
    status := if found then OK else InternalError;
  }

  /**
   * POST /schedules/assign: complete body, both times, the doctor's user
   * record and the clinic, then overwrite-or-create with no conflict check.
   */
  method AssignDoctor(svc: MockDataService, req: ShiftRequest) returns (status: Status, shift: Option<WorkSchedule>)
    modifies svc`workSchedules
    ensures status != OK ==> svc.workSchedules == old(svc.workSchedules) && shift.None?
    ensures !Complete(req) ==> status == BadRequest
    ensures Complete(req) && !TimesValid(req.gioBatDau, req.gioKetThuc) ==> status == BadRequest
    ensures Complete(req) && TimesValid(req.gioBatDau, req.gioKetThuc) ==>
      (status == NotFound <==> FirstOf(svc.users, UserIdOf, req.maBacSi).None?
                               || FirstOf(svc.clinics, ClinicIdOf, req.maPhongKham).None?)
    ensures status == OK <==>
      Complete(req) && TimesValid(req.gioBatDau, req.gioKetThuc)
      && FirstOf(svc.users, UserIdOf, req.maBacSi).Some? && FirstOf(svc.clinics, ClinicIdOf, req.maPhongKham).Some?
    ensures status == OK ==>
      var i := FirstIndexOf(old(svc.workSchedules), SlotOf, (req.maPhongKham, req.ngayLamViec, req.gioBatDau, req.gioKetThuc));
      if i.Some? then
        shift == Some(old(svc.workSchedules)[i.value].(maBacSi := req.maBacSi, trangThai := ACTIVE))
        && svc.workSchedules == old(svc.workSchedules)[i.value := shift.value]
      else
        shift == Some(WorkSchedule(ScheduleId(|old(svc.workSchedules)| + 1), req.maBacSi, req.maPhongKham,
                                      req.ngayLamViec, req.gioBatDau, req.gioKetThuc, ACTIVE))
        && svc.workSchedules == old(svc.workSchedules) + [shift.value]
  {
    if !Complete(req) {
      return BadRequest, None;
    }
    if !IsValidTimeFormat(req.gioBatDau) || !IsValidTimeFormat(req.gioKetThuc) {
      return BadRequest, None;
    }
    var doctor := svc.GetUserByID(req.maBacSi);
    if doctor.None? {
      return NotFound, None;
    }
    var clinic := svc.GetClinicByID(req.maPhongKham);
    if clinic.None? {
      return NotFound, None;
    }
    var schedule := svc.AssignDoctorToSchedule(req.maBacSi, req.maPhongKham, req.ngayLamViec, req.gioBatDau,
                                               req.gioKetThuc);
    return OK, Some(schedule);
  }

  /** GET /doctors/:id/schedules: 404 for an unknown user, else every shift of the doctor in store order. */
  method GetDoctorSchedules(svc: MockDataService, doctorID: string) returns (status: Status, schedules: seq<WorkSchedule>)
    ensures FirstOf(svc.users, UserIdOf, doctorID).None? ==> status == NotFound && schedules == []
    ensures FirstOf(svc.users, UserIdOf, doctorID).Some? ==>
      status == OK && schedules == WithKey(svc.workSchedules, ScheduleDoctorOf, doctorID)
  {
    var doctor := svc.GetUserByID(doctorID);
    if doctor.None? {
      return NotFound, [];
    }
    schedules := svc.GetSchedulesByDoctor(doctorID);
    status := OK;
  }

  /**
   * PUT /schedules/:id/assign: the new doctor is required and must be a
   * known user (404, nothing changed) before the shift is touched; an
   * unknown shift is a 500.
   */
  method ReassignDoctor(svc: MockDataService, scheduleID: string, maBacSi: string)
    returns (status: Status, updated: Option<WorkSchedule>)
    modifies svc`workSchedules
    ensures maBacSi == "" ==> status == BadRequest
    ensures maBacSi != "" && FirstOf(svc.users, UserIdOf, maBacSi).None? ==> status == NotFound
    ensures status == BadRequest || status == NotFound ==> svc.workSchedules == old(svc.workSchedules)
    ensures maBacSi != "" && FirstOf(svc.users, UserIdOf, maBacSi).Some? ==>
      var i := FirstIndexOf(old(svc.workSchedules), ScheduleIdOf, scheduleID);
      if i.None? then
        status == InternalError && svc.workSchedules == old(svc.workSchedules)
      else
        status == OK && updated == Some(old(svc.workSchedules)[i.value].(maBacSi := maBacSi))
        && svc.workSchedules == old(svc.workSchedules)[i.value := updated.value]
  {
    if maBacSi == "" {
      return BadRequest, None;
    }
    var doctor := svc.GetUserByID(maBacSi);
    if doctor.None? {
      return NotFound, None;
    }
    updated := svc.ReassignDoctor(scheduleID, maBacSi);
    status := if updated.None? then InternalError else OK;
  }

  /** GET /schedules/conflicts: all four parameters required, then exactly the store's conflict answer. */
  method CheckConflicts(svc: MockDataService, doctorID: string, date: string, startTime: string, endTime: string)
    returns (status: Status, hasConflict: bool)
    ensures status == BadRequest <==> doctorID == "" || date == "" || startTime == "" || endTime == ""
    ensures status != BadRequest ==>
      status == OK && hasConflict == AnyConflict(svc.workSchedules, doctorID, date, startTime, endTime)
  {
    if doctorID == "" || date == "" || startTime == "" || endTime == "" {
      return BadRequest, false;
    }
    hasConflict := svc.HasScheduleConflict(doctorID, date, startTime, endTime);
    status := OK;
  }
}
