// The database-mode work-shift endpoints: who may create, change or remove
// a shift, the conflict test run before an insert, the field checks of a
// partial update, the guard in front of a delete, and how the list query's
// WHERE clause is assembled from the caller and the query parameters.
module ScheduleHandlers {
  import opened Common
  import opened Text
  import opened Clock
  import opened Seqs
  import opened MockData
  import opened Store

  // -----------------------------------------------------------------------
  // Role policy
  // -----------------------------------------------------------------------

  /** Create: a doctor only for themselves; clinic and operation managers for anyone. */
  predicate MayCreate(caller: Caller, doctorId: string)
  {
    if caller.userType == DOCTOR then doctorId == caller.userId
    else caller.userType == CLINIC_MANAGER || caller.userType == OPERATION_MANAGER
  }

  /** The create policy role by role. */
  lemma CreatePolicyByRole(userId: string, doctorId: string, role: string)
    ensures MayCreate(Caller(userId, DOCTOR), doctorId) <==> doctorId == userId
    ensures MayCreate(Caller(userId, CLINIC_MANAGER), doctorId) && MayCreate(Caller(userId, OPERATION_MANAGER), doctorId)
    ensures role != DOCTOR && role != CLINIC_MANAGER && role != OPERATION_MANAGER ==>
      !MayCreate(Caller(userId, role), doctorId)
  {
  }

  /**
   * Update and delete, as the if / else-if chain is written: a doctor who
   * owns the shift passes the first test and falls through to the last one,
   * which refuses everyone but an operation manager.
   */
  predicate MayModifyAsWritten(caller: Caller, shiftDoctor: string, shiftClinic: string, managerClinic: Option<string>)
  {
    if caller.userType == DOCTOR && shiftDoctor != caller.userId then false
    else if caller.userType == CLINIC_MANAGER then managerClinic == Some(shiftClinic)
    else caller.userType == OPERATION_MANAGER
  }

  /** As written, no doctor may update or delete any shift, not even their own. */
  lemma DoctorNeverMayModifyAsWritten(userId: string, shiftDoctor: string, shiftClinic: string, managerClinic: Option<string>)
    ensures !MayModifyAsWritten(Caller(userId, DOCTOR), shiftDoctor, shiftClinic, managerClinic)
    ensures !MayModifyAsWritten(Caller(userId, DOCTOR), userId, shiftClinic, managerClinic)
  {
  }

  /**
   * Update and delete as intended: a doctor on their own shift, a clinic
   * manager on a shift of the clinic they manage (no manager row refuses),
   * an operation manager on any shift.
   */
  predicate MayModify(caller: Caller, shiftDoctor: string, shiftClinic: string, managerClinic: Option<string>)
  {
    if caller.userType == DOCTOR then shiftDoctor == caller.userId
    else if caller.userType == CLINIC_MANAGER then managerClinic == Some(shiftClinic)
    else caller.userType == OPERATION_MANAGER
  }

  /** The two rules differ for exactly one caller: the doctor who owns the shift. */
  lemma MayModifyCorrectsOnlyOwner(caller: Caller, shiftDoctor: string, shiftClinic: string, managerClinic: Option<string>)
    ensures MayModify(caller, shiftDoctor, shiftClinic, managerClinic) != MayModifyAsWritten(caller, shiftDoctor, shiftClinic, managerClinic)
      <==> caller.userType == DOCTOR && shiftDoctor == caller.userId
  {
  }

  // -----------------------------------------------------------------------
  // Conflict test before an insert
  // -----------------------------------------------------------------------

  /** SQL `a <= b` on time text. */
  predicate AtMost(a: string, b: string)
  {
    !StrLess(b, a)
  }

  /**
   * The WHERE clause of the conflict count as written: same doctor and date,
   * and the stored shift contains the new start or the new end.
   */
  predicate SqlConflictAsWritten(r: ScheduleRow, doctor: string, date: string, start: string, end: string)
  {
    r.doctor == doctor && r.date == date
    && ((AtMost(r.start, start) && StrLess(start, r.end)) || (StrLess(r.start, end) && AtMost(end, r.end)))
  }

  /** The intended clause: same doctor and date, and the half-open intervals overlap. */
  predicate SqlConflict(r: ScheduleRow, doctor: string, date: string, start: string, end: string)
  {
    r.doctor == doctor && r.date == date && TimeOverlaps(r.start, r.end, start, end)
  }

  predicate AnySqlConflictAsWritten(rows: seq<ScheduleRow>, doctor: string, date: string, start: string, end: string)
  {
    exists i :: 0 <= i < |rows| && SqlConflictAsWritten(rows[i], doctor, date, start, end)
  }

  predicate AnySqlConflict(rows: seq<ScheduleRow>, doctor: string, date: string, start: string, end: string)
  {
    exists i :: 0 <= i < |rows| && SqlConflict(rows[i], doctor, date, start, end)
  }

  /** A well-formed shift: both times "HH:MM" and the end after the start. */
  predicate ProperTimes(start: string, end: string)
  {
    IsHHMM(start) && IsHHMM(end) && ClockMinutes(start) < ClockMinutes(end)
  }

  /**
   * On well-formed shifts, what the written clause catches is a real
   * overlap, and the overlaps it misses are exactly those where the new
   * shift strictly contains the stored one.
   */
  lemma SqlConflictMissesContainment(r: ScheduleRow, doctor: string, date: string, start: string, end: string)
    requires ProperTimes(r.start, r.end) && ProperTimes(start, end)
    ensures SqlConflictAsWritten(r, doctor, date, start, end) ==> SqlConflict(r, doctor, date, start, end)
    ensures SqlConflict(r, doctor, date, start, end) && !SqlConflictAsWritten(r, doctor, date, start, end) <==>
      r.doctor == doctor && r.date == date
      && ClockMinutes(start) < ClockMinutes(r.start) && ClockMinutes(r.end) < ClockMinutes(end)
  {
    HHMMOrderAgrees(r.start, start);
    HHMMOrderAgrees(start, r.end);
    HHMMOrderAgrees(r.start, end);
    HHMMOrderAgrees(end, r.end);
    HHMMOrderAgrees(start, r.start);
    HHMMOrderAgrees(r.end, end);
  }

  /** The shift 09:00-12:00 passes the written check next to a stored 10:00-11:00 shift of the same doctor and day. */
  lemma ContainingShiftSlipsThrough(id: string, doctor: string, clinic: Cell, date: string, status: string)
    ensures var stored := ScheduleRow(id, doctor, clinic, date, "10:00", "11:00", status);
      !AnySqlConflictAsWritten([stored], doctor, date, "09:00", "12:00")
      && AnySqlConflict([stored], doctor, date, "09:00", "12:00")
  {
    var stored := ScheduleRow(id, doctor, clinic, date, "10:00", "11:00", status);
    assert "10:00"[0] == '1' && "09:00"[0] == '0';
    assert "11:00"[..1] == "12:00"[..1];
    assert "11:00"[1] == '1' && "12:00"[1] == '2';
    assert StrLess("09:00", "11:00") && StrLess("10:00", "12:00");
    assert StrLess("09:00", "10:00") && StrLess("11:00", "12:00");
    assert SqlConflict([stored][0], doctor, date, "09:00", "12:00");
  }

  /** No two shifts of one doctor on one date overlap, whatever their status. */
  predicate NoOverlaps(rows: seq<ScheduleRow>)
  {
    forall i, j :: 0 <= i < |rows| && 0 <= j < |rows| && i != j
      && rows[i].doctor == rows[j].doctor && rows[i].date == rows[j].date
      ==> !TimeOverlaps(rows[i].start, rows[i].end, rows[j].start, rows[j].end)
  }

  /** An insert that the intended conflict test lets through keeps shifts apart. */
  lemma InsertWithoutConflictKeepsApart(rows: seq<ScheduleRow>, r: ScheduleRow)
    requires NoOverlaps(rows)
    requires !AnySqlConflict(rows, r.doctor, r.date, r.start, r.end)
    ensures NoOverlaps(rows + [r])
  {
    var rows' := rows + [r];
    forall i, j | 0 <= i < |rows'| && 0 <= j < |rows'| && i != j
      && rows'[i].doctor == rows'[j].doctor && rows'[i].date == rows'[j].date
      ensures !TimeOverlaps(rows'[i].start, rows'[i].end, rows'[j].start, rows'[j].end)
    {
      if i == |rows| {
        assert !SqlConflict(rows[j], r.doctor, r.date, r.start, r.end);
      } else if j == |rows| {
        assert !SqlConflict(rows[i], r.doctor, r.date, r.start, r.end);
      } else {
        assert rows'[i] == rows[i] && rows'[j] == rows[j];
      }
    }
  }

  /** With the written test, the containing shift of ContainingShiftSlipsThrough is inserted and two shifts overlap. */
  lemma WrittenTestBreaksNoOverlaps(id: string, newId: string, doctor: string, clinic: Cell, date: string)
    ensures var stored := ScheduleRow(id, doctor, clinic, date, "10:00", "11:00", AVAILABLE);
      var added := ScheduleRow(newId, doctor, clinic, date, "09:00", "12:00", AVAILABLE);
      NoOverlaps([stored]) && !AnySqlConflictAsWritten([stored], doctor, date, "09:00", "12:00")
      && !NoOverlaps([stored] + [added])
  {
    var stored := ScheduleRow(id, doctor, clinic, date, "10:00", "11:00", AVAILABLE);
    var added := ScheduleRow(newId, doctor, clinic, date, "09:00", "12:00", AVAILABLE);
    ContainingShiftSlipsThrough(id, doctor, clinic, date, AVAILABLE);
    var rows := [stored] + [added];
    assert rows[0] == stored && rows[1] == added;
    assert SqlConflict([stored][0], doctor, date, "09:00", "12:00");
  }

  // -----------------------------------------------------------------------
  // POST /schedules
  // -----------------------------------------------------------------------

  /** The body of a create request; all but the status are required (binding rejects an empty one). */
  datatype ScheduleRequest = ScheduleRequest(maBacSi: string, maPhongKham: string, ngayLamViec: string,
                                             gioBatDau: string, gioKetThuc: string, status: string)

  predicate Complete(req: ScheduleRequest)
  {
    req.maBacSi != "" && req.maPhongKham != "" && req.ngayLamViec != "" && req.gioBatDau != "" && req.gioKetThuc != ""
  }

  /** An empty status becomes AVAILABLE; any other value is stored as given. */
  function StatusOrDefault(status: string): (s: string)
    ensures status == "" ==> s == AVAILABLE
    ensures status != "" ==> s == status
  {
    if status == "" then AVAILABLE else status
  }

  /**
   * Create: body, then permission, then the date, then both times (Go's
   * "15:04" layout, so a one-digit hour passes), then the conflict count
   * with the clause as written; only when every check passes is one row
   * inserted, with the fresh identifier `newId`.
   */
  method CreateSchedule(db: Db, caller: Caller, req: ScheduleRequest, newId: string) returns (status: Status, db': Db)
    ensures !Complete(req) ==> status == BadRequest
    ensures Complete(req) && !MayCreate(caller, req.maBacSi) ==> status == Forbidden
    ensures Complete(req) && MayCreate(caller, req.maBacSi) && !IsValidDate(req.ngayLamViec) ==> status == BadRequest
    ensures (Complete(req) && MayCreate(caller, req.maBacSi) && IsValidDate(req.ngayLamViec)
             && !(IsValidTimeFormat(req.gioBatDau) && IsValidTimeFormat(req.gioKetThuc))) ==> status == BadRequest
    ensures status == Conflict <==>
      Complete(req) && MayCreate(caller, req.maBacSi) && IsValidDate(req.ngayLamViec)
      && IsValidTimeFormat(req.gioBatDau) && IsValidTimeFormat(req.gioKetThuc)
      && AnySqlConflictAsWritten(db.schedules, req.maBacSi, req.ngayLamViec, req.gioBatDau, req.gioKetThuc)
    ensures status == Created <==>
      Complete(req) && MayCreate(caller, req.maBacSi) && IsValidDate(req.ngayLamViec)
      && IsValidTimeFormat(req.gioBatDau) && IsValidTimeFormat(req.gioKetThuc)
      && !AnySqlConflictAsWritten(db.schedules, req.maBacSi, req.ngayLamViec, req.gioBatDau, req.gioKetThuc)
    ensures status == Created ==>
      db' == db.(schedules := db.schedules + [ScheduleRow(newId, req.maBacSi, Text(req.maPhongKham), req.ngayLamViec,
                                                          req.gioBatDau, req.gioKetThuc, StatusOrDefault(req.status))])
    ensures status != Created ==> db' == db
  {
    db' := db;
    if !Complete(req) {
      return BadRequest, db';
    }
    if caller.userType == DOCTOR {
      if req.maBacSi != caller.userId {
        return Forbidden, db';
      }
    } else if caller.userType != CLINIC_MANAGER && caller.userType != OPERATION_MANAGER {
      return Forbidden, db';
    }
    if !IsValidDate(req.ngayLamViec) {
      return BadRequest, db';
    }
    if !IsValidTimeFormat(req.gioBatDau) || !IsValidTimeFormat(req.gioKetThuc) {
      return BadRequest, db';
    }
    var conflicts := CountConflicts(db.schedules, req.maBacSi, req.ngayLamViec, req.gioBatDau, req.gioKetThuc);
    if conflicts > 0 {
      return Conflict, db';
    }
    var status' := if req.status == "" then AVAILABLE else req.status;
    var row := ScheduleRow(newId, req.maBacSi, Text(req.maPhongKham), req.ngayLamViec, req.gioBatDau, req.gioKetThuc,
                           status');
    db' := db.(schedules := db.schedules + [row]);
    status := Created;
  }

  /** `SELECT COUNT(*) ... WHERE <conflict clause as written>`: positive exactly when some row matches the clause. */
  method CountConflicts(rows: seq<ScheduleRow>, doctor: string, date: string, start: string, end: string)
    returns (count: nat)
    ensures count > 0 <==> AnySqlConflictAsWritten(rows, doctor, date, start, end)
    ensures count <= |rows|
  {
    count := 0;
    for i := 0 to |rows|
      invariant count <= i
      invariant count > 0 <==> exists k :: 0 <= k < i && SqlConflictAsWritten(rows[k], doctor, date, start, end)
    {
      if SqlConflictAsWritten(rows[i], doctor, date, start, end) {
        count := count + 1;
      }
    }
  }

  // -----------------------------------------------------------------------
  // PUT /schedules/:id
  // -----------------------------------------------------------------------

  /** The first row with the identifier, as the permission lookup reads it. */
  function FindShift(db: Db, id: string): (r: Option<ScheduleRow>)
    ensures r.Some? ==> r.value in db.schedules && r.value.id == id
    ensures r.None? <==> forall x :: x in db.schedules ==> x.id != id
  {
    FirstOf(db.schedules, ScheduleRowId, id)
  }

  /** The keys a partial update may carry are acceptable: a string date parses, times parse with "15:04", a string status is one of the two. */
  predicate PatchAcceptable(body: map<string, JsonValue>)
  {
    ("ngay_lam_viec" in body && body["ngay_lam_viec"].JStr? ==> IsValidDate(body["ngay_lam_viec"].str))
    && ("gio_bat_dau" in body ==> body["gio_bat_dau"].JStr? && IsValidTimeFormat(body["gio_bat_dau"].str))
    && ("gio_ket_thuc" in body ==> body["gio_ket_thuc"].JStr? && IsValidTimeFormat(body["gio_ket_thuc"].str))
    && ("status" in body && body["status"].JStr? ==> body["status"].str in {AVAILABLE, UNAVAILABLE})
  }

  /**
   * The row an acceptable partial update leaves: string date, times and
   * status replace the stored ones, a clinic is stored as given (null too),
   * everything else, the doctor among it, is kept.
   */
  function PatchedShift(r: ScheduleRow, body: map<string, JsonValue>): (r': ScheduleRow)
    ensures r'.id == r.id && r'.doctor == r.doctor
  {
    r.(date := if "ngay_lam_viec" in body && body["ngay_lam_viec"].JStr? then body["ngay_lam_viec"].str else r.date,
       start := if "gio_bat_dau" in body && body["gio_bat_dau"].JStr? then body["gio_bat_dau"].str else r.start,
       end := if "gio_ket_thuc" in body && body["gio_ket_thuc"].JStr? then body["gio_ket_thuc"].str else r.end,
       status := if "status" in body && body["status"].JStr? then body["status"].str else r.status,
       clinic := if "ma_phong_kham" in body then ToCell(body["ma_phong_kham"]) else r.clinic)
  }

  /** An acceptable patch keeps a shift with a calendar date and parseable times so. */
  lemma PatchKeepsWellFormed(r: ScheduleRow, body: map<string, JsonValue>)
    requires IsValidDate(r.date) && IsValidTimeFormat(r.start) && IsValidTimeFormat(r.end)
    requires PatchAcceptable(body)
    ensures IsValidDate(PatchedShift(r, body).date) && IsValidTimeFormat(PatchedShift(r, body).start)
      && IsValidTimeFormat(PatchedShift(r, body).end)
  {
  }

  /** One single-column `UPDATE LICHLAMVIEC SET ... WHERE maLichLamViec = id`. */
  datatype ShiftColumn = DateCol(d: string) | StartCol(t: string) | EndCol(t: string) | StatusCol(s: string)
                       | ClinicCol(c: Cell)

  function SetColumn(r: ScheduleRow, c: ShiftColumn): ScheduleRow
  {
    match c
    case DateCol(d) => r.(date := d)
    case StartCol(t) => r.(start := t)
    case EndCol(t) => r.(end := t)
    case StatusCol(s) => r.(status := s)
    case ClinicCol(v) => r.(clinic := v)
  }

  /** Runs one single-column UPDATE inside the transaction: every row with the identifier gets the column. */
  method UpdateColumn(rows: seq<ScheduleRow>, id: string, c: ShiftColumn) returns (rows': seq<ScheduleRow>)
    ensures |rows'| == |rows|
    ensures forall i :: 0 <= i < |rows| ==> rows'[i] == if rows[i].id == id then SetColumn(rows[i], c) else rows[i]
  {
    rows' := rows;
    for i := 0 to |rows|
      invariant |rows'| == |rows|
      invariant forall k :: 0 <= k < i ==> rows'[k] == if rows[k].id == id then SetColumn(rows[k], c) else rows[k]
      invariant forall k :: i <= k < |rows| ==> rows'[k] == rows[k]
    {
      if rows[i].id == id {
        rows' := rows'[i := SetColumn(rows[i], c)];
      }
    }
  }

  // The update handler looks at its keys in a fixed order; key k (1 to 5) is
  // ngay_lam_viec, gio_bat_dau, gio_ket_thuc, status, ma_phong_kham.

  /** The single-column UPDATE key k leads to, if any. */
  function KeyColumn(body: map<string, JsonValue>, k: nat): Option<ShiftColumn>
  {
    if k == 1 then
      (if "ngay_lam_viec" in body && body["ngay_lam_viec"].JStr? then Some(DateCol(body["ngay_lam_viec"].str)) else None)
    else if k == 2 then
      (if "gio_bat_dau" in body && body["gio_bat_dau"].JStr? then Some(StartCol(body["gio_bat_dau"].str)) else None)
    else if k == 3 then
      (if "gio_ket_thuc" in body && body["gio_ket_thuc"].JStr? then Some(EndCol(body["gio_ket_thuc"].str)) else None)
    else if k == 4 then
      (if "status" in body && body["status"].JStr? then Some(StatusCol(body["status"].str)) else None)
    else if k == 5 then
      (if "ma_phong_kham" in body then Some(ClinicCol(ToCell(body["ma_phong_kham"]))) else None)
    else None
  }

  /** The check key k must pass before it is written. */
  predicate KeyAcceptable(body: map<string, JsonValue>, k: nat)
  {
    if k == 1 then ("ngay_lam_viec" in body && body["ngay_lam_viec"].JStr? ==> IsValidDate(body["ngay_lam_viec"].str))
    else if k == 2 then ("gio_bat_dau" in body ==> body["gio_bat_dau"].JStr? && IsValidTimeFormat(body["gio_bat_dau"].str))
    else if k == 3 then ("gio_ket_thuc" in body ==> body["gio_ket_thuc"].JStr? && IsValidTimeFormat(body["gio_ket_thuc"].str))
    else if k == 4 then ("status" in body && body["status"].JStr? ==> body["status"].str in {AVAILABLE, UNAVAILABLE})
    else true
  }

  /** A row after the first k keys were written. */
  function PatchedUpTo(r: ScheduleRow, body: map<string, JsonValue>, k: nat): (r': ScheduleRow)
    ensures r'.id == r.id
  {
    if k == 0 then r
    else
      var p := PatchedUpTo(r, body, k - 1);
      match KeyColumn(body, k)
      case None => p
      case Some(c) => SetColumn(p, c)
  }

  /** Writing the five keys one after the other gives the patched row. */
  lemma PatchedUpToAll(r: ScheduleRow, body: map<string, JsonValue>)
    ensures PatchedUpTo(r, body, 5) == PatchedShift(r, body)
  {
    var p := PatchedShift(r, body);
    var p1 := PatchedUpTo(r, body, 1);
    var p2 := PatchedUpTo(r, body, 2);
    var p3 := PatchedUpTo(r, body, 3);
    var p4 := PatchedUpTo(r, body, 4);
    assert PatchedUpTo(r, body, 0) == r;
    assert p1 == r.(date := p.date) by {
      if "ngay_lam_viec" in body && body["ngay_lam_viec"].JStr? {
        assert KeyColumn(body, 1) == Some(DateCol(p.date));
      } else {
        assert KeyColumn(body, 1) == None;
      }
    }
    assert p2 == p1.(start := p.start);
    assert p3 == p2.(end := p.end);
    assert p4 == p3.(status := p.status);
  }

  /** The transaction so far: every row with the identifier carries the first k keys, the others are untouched. */
  ghost predicate WrittenUpTo(tx: seq<ScheduleRow>, rows: seq<ScheduleRow>, id: string, body: map<string, JsonValue>, k: nat)
  {
    |tx| == |rows|
    && forall i :: 0 <= i < |rows| ==> tx[i] == if rows[i].id == id then PatchedUpTo(rows[i], body, k) else rows[i]
  }

  /**
   * The field updates of one request inside its transaction: each key in
   * turn is checked (an unacceptable one stops with ok false, and the caller
   * rolls back) and written.
   */
  method ApplyPatch(rows: seq<ScheduleRow>, id: string, body: map<string, JsonValue>) returns (ok: bool, tx: seq<ScheduleRow>)
    ensures ok <==> PatchAcceptable(body)
    ensures ok ==> |tx| == |rows|
    ensures ok ==> forall i :: 0 <= i < |rows| ==> tx[i] == if rows[i].id == id then PatchedShift(rows[i], body) else rows[i]
  {
    tx := rows;
    for k := 1 to 6
      invariant WrittenUpTo(tx, rows, id, body, k - 1)
      invariant forall k' :: 1 <= k' < k ==> KeyAcceptable(body, k')
    {
      if !KeyAcceptable(body, k) {
        return false, tx;
      }
      var column := KeyColumn(body, k);
      if column.Some? {
        var before := tx;
        tx := UpdateColumn(tx, id, column.value);
        forall i | 0 <= i < |rows| && rows[i].id == id
          ensures tx[i] == PatchedUpTo(rows[i], body, k)
        {
          assert before[i] == PatchedUpTo(rows[i], body, k - 1);
        }
      }
    }
    assert KeyAcceptable(body, 1) && KeyAcceptable(body, 2) && KeyAcceptable(body, 3) && KeyAcceptable(body, 4);
    forall i | 0 <= i < |rows| && rows[i].id == id
      ensures tx[i] == PatchedShift(rows[i], body)
    {
      PatchedUpToAll(rows[i], body);
    }
    ok := true;
  }

  /**
   * The permission part shared by update and delete: the shift must exist
   * (404) and have a clinic (the lookup scans it into a string and fails on
   * NULL: 500), and the caller must pass the rule as written (403), which
   * refuses every doctor.
   */
  method CheckModify(db: Db, caller: Caller, id: string) returns (status: Status)
    ensures caller.userType == DOCTOR ==> status != OK
    ensures FindShift(db, id).None? ==> status == NotFound
    ensures FindShift(db, id).Some? && FindShift(db, id).value.clinic.Null? ==> status == InternalError
    ensures status == OK <==>
      FindShift(db, id).Some? && FindShift(db, id).value.clinic.Text?
      && MayModifyAsWritten(caller, FindShift(db, id).value.doctor, FindShift(db, id).value.clinic.text, ManagerClinic(db, caller.userId))
    ensures (status != OK && FindShift(db, id).Some? && FindShift(db, id).value.clinic.Text?) ==> status == Forbidden
  {
    var found := FindFirst(db.schedules, ScheduleRowId, id);
    if found.None? {
      return NotFound;
    }
    var current := db.schedules[found.value];
    if current.clinic.Null? {
      return InternalError;
    }
    var managerClinic := ManagerClinic(db, caller.userId);
    if caller.userType == DOCTOR && current.doctor != caller.userId {
      return Forbidden;
    } else if caller.userType == CLINIC_MANAGER {
      if managerClinic != Some(current.clinic.text) {
        return Forbidden;
      }
    } else if caller.userType != OPERATION_MANAGER {
      return Forbidden;
    }
    status := OK;
  }

  /**
   * Update: the permission part, then the field updates in one transaction;
   * the first unacceptable key answers 400 and discards every earlier write.
   */
  method UpdateSchedule(db: Db, caller: Caller, id: string, body: map<string, JsonValue>) returns (status: Status, db': Db)
    ensures caller.userType == DOCTOR ==> status != OK
    ensures FindShift(db, id).None? ==> status == NotFound
    ensures FindShift(db, id).Some? && FindShift(db, id).value.clinic.Null? ==> status == InternalError
    ensures (FindShift(db, id).Some? && FindShift(db, id).value.clinic.Text?
             && !MayModifyAsWritten(caller, FindShift(db, id).value.doctor, FindShift(db, id).value.clinic.text,
                                     ManagerClinic(db, caller.userId))) ==> status == Forbidden
    ensures status == OK <==>
      FindShift(db, id).Some? && FindShift(db, id).value.clinic.Text?
      && MayModifyAsWritten(caller, FindShift(db, id).value.doctor, FindShift(db, id).value.clinic.text, ManagerClinic(db, caller.userId))
      && PatchAcceptable(body)
    ensures (FindShift(db, id).Some? && FindShift(db, id).value.clinic.Text?
             && MayModifyAsWritten(caller, FindShift(db, id).value.doctor, FindShift(db, id).value.clinic.text, ManagerClinic(db, caller.userId))
             && !PatchAcceptable(body)) ==> status == BadRequest
    ensures status != OK ==> db' == db
    ensures status == OK ==> db' == db.(schedules := db'.schedules) && |db'.schedules| == |db.schedules|
    ensures status == OK ==> forall i :: 0 <= i < |db.schedules| ==>
      db'.schedules[i] == if db.schedules[i].id == id then PatchedShift(db.schedules[i], body) else db.schedules[i]
  {
    db' := db;
    status := CheckModify(db, caller, id);
    if status != OK {
      return;
    }
    var ok, tx := ApplyPatch(db.schedules, id, body);
    if !ok {
      return BadRequest, db';
    }
    db' := db.(schedules := tx);
  }

  // -----------------------------------------------------------------------
  // DELETE /schedules/:id
  // -----------------------------------------------------------------------

  /** Shift i has the identifier and appointment j of its doctor holds it. */
  predicate HoldingPair(db: Db, id: string, i: int, j: int)
    requires 0 <= i < |db.schedules| && 0 <= j < |db.appointments|
  {
    db.schedules[i].id == id && db.appointments[j].doctor == db.schedules[i].doctor
    && IsOpen(db.appointments[j].status)
  }

  /**
   * The delete guard's join: some stored shift with the identifier belongs
   * to a doctor who has a holding appointment, on any date.
   */
  predicate DeleteBlocked(db: Db, id: string)
  {
    exists i, j :: 0 <= i < |db.schedules| && 0 <= j < |db.appointments| && HoldingPair(db, id, i, j)
  }

  /** The guard does not look at dates: an appointment on another day still blocks the delete. */
  lemma DeleteGuardIgnoresDate(s: ScheduleRow, a: AppointmentRow, db: Db)
    requires db.schedules == [s] && db.appointments == [a]
    requires a.doctor == s.doctor && a.status == Text("SCHEDULED")
    ensures DeleteBlocked(db, s.id)
  {
    assert HoldingPair(db, s.id, 0, 0);
  }

  /**
   * Delete: the shift must exist (404) with a clinic (500), the caller must
   * pass the rule as written (403), and no holding appointment of the doctor
   * may exist (409); then every row with the identifier is removed.
   */
  method DeleteSchedule(db: Db, caller: Caller, id: string) returns (status: Status, db': Db)
    ensures caller.userType == DOCTOR ==> status != OK
    ensures FindShift(db, id).None? ==> status == NotFound
    ensures FindShift(db, id).Some? && FindShift(db, id).value.clinic.Null? ==> status == InternalError
    ensures (FindShift(db, id).Some? && FindShift(db, id).value.clinic.Text?
             && !MayModifyAsWritten(caller, FindShift(db, id).value.doctor, FindShift(db, id).value.clinic.text,
                                     ManagerClinic(db, caller.userId))) ==> status == Forbidden
    ensures status == Conflict <==>
      FindShift(db, id).Some? && FindShift(db, id).value.clinic.Text?
      && MayModifyAsWritten(caller, FindShift(db, id).value.doctor, FindShift(db, id).value.clinic.text, ManagerClinic(db, caller.userId))
      && DeleteBlocked(db, id)
    ensures status == OK <==>
      FindShift(db, id).Some? && FindShift(db, id).value.clinic.Text?
      && MayModifyAsWritten(caller, FindShift(db, id).value.doctor, FindShift(db, id).value.clinic.text, ManagerClinic(db, caller.userId))
      && !DeleteBlocked(db, id)
    ensures status == OK ==> db' == db.(schedules := WithoutKey(db.schedules, ScheduleRowId, id)) && FindShift(db', id).None?
    ensures status != OK ==> db' == db
  {
    db' := db;
    status := CheckModify(db, caller, id);
    if status != OK {
      return;
    }
    var blocked := CountHolding(db, id);
    if blocked > 0 {
      return Conflict, db';
    }
    var rows := DeleteWhere(db.schedules, ScheduleRowId, id);
    db' := db.(schedules := rows);
    status := OK;
  }

  /** The count of the delete guard's join: positive exactly when the delete is blocked. */
  method CountHolding(db: Db, id: string) returns (count: nat)
    ensures count > 0 <==> DeleteBlocked(db, id)
  {
    count := 0;
    for i := 0 to |db.schedules|
      invariant count > 0 <==>
        exists i', j :: 0 <= i' < i && 0 <= j < |db.appointments| && HoldingPair(db, id, i', j)
    {
      for j := 0 to |db.appointments|
        invariant count > 0 <==>
          (exists i', j' :: 0 <= i' < i && 0 <= j' < |db.appointments| && HoldingPair(db, id, i', j'))
          || (exists j' :: 0 <= j' < j && HoldingPair(db, id, i, j'))
      {
        if HoldingPair(db, id, i, j) {
          count := count + 1;
        }
      }
    }
  }

  // -----------------------------------------------------------------------
  // GET /schedules: the WHERE clause
  // -----------------------------------------------------------------------

  datatype Column = DoctorColumn | ClinicColumn | DateColumn
  datatype Comparison = Equal | AtLeast | AtMostOp

  /** One `AND ll.<column> <op> @p<placeholder>` of the query. */
  datatype Condition = Condition(column: Column, op: Comparison, placeholder: nat)

  datatype ScheduleQuery = ScheduleQuery(doctorId: string, clinicId: string, dateFrom: string, dateTo: string)

  function ColumnValue(r: ScheduleRow, c: Column): Cell
  {
    match c
    case DoctorColumn => Text(r.doctor)
    case ClinicColumn => r.clinic
    case DateColumn => Text(r.date)
  }

  /** The SQL test of one condition against its argument; NULL satisfies nothing. */
  predicate Holds(r: ScheduleRow, c: Condition, arg: string)
  {
    var v := ColumnValue(r, c.column);
    v.Text? && match c.op
      case Equal => v.text == arg
      case AtLeast => AtMost(arg, v.text)
      case AtMostOp => AtMost(v.text, arg)
  }

  /** A row satisfies the assembled WHERE clause: every condition against the argument its placeholder names. */
  predicate Satisfies(r: ScheduleRow, conds: seq<Condition>, args: seq<string>)
  {
    forall k :: 0 <= k < |conds| ==> 1 <= conds[k].placeholder <= |args| && Holds(r, conds[k], args[conds[k].placeholder - 1])
  }

  /**
   * The rows the caller should see for the query: a doctor only their own
   * shifts, a clinic manager only their clinic's, anyone else every shift;
   * then each non-empty parameter narrows the list.
   */
  predicate Visible(r: ScheduleRow, caller: Caller, managerClinic: string, q: ScheduleQuery)
  {
    (caller.userType == DOCTOR ==> r.doctor == caller.userId)
    && (caller.userType == CLINIC_MANAGER ==> r.clinic == Text(managerClinic))
    && (q.doctorId != "" ==> r.doctor == q.doctorId)
    && (q.clinicId != "" ==> r.clinic == Text(q.clinicId))
    && (q.dateFrom != "" ==> AtMost(q.dateFrom, r.date))
    && (q.dateTo != "" ==> AtMost(r.date, q.dateTo))
  }

  /** The role part of Visible. */
  predicate RoleVisible(r: ScheduleRow, caller: Caller, managerClinic: string)
  {
    (caller.userType == DOCTOR ==> r.doctor == caller.userId)
    && (caller.userType == CLINIC_MANAGER ==> r.clinic == Text(managerClinic))
  }

  /** Placeholders @p1, @p2, ... in order, one per argument. */
  ghost predicate Numbered(conds: seq<Condition>, args: seq<string>)
  {
    |conds| == |args| && forall k :: 0 <= k < |conds| ==> conds[k].placeholder == k + 1
  }

  /** Appending a condition numbered after the last argument conjoins its test to the clause. */
  lemma AppendCondition(r: ScheduleRow, conds: seq<Condition>, args: seq<string>, c: Condition, arg: string)
    requires Numbered(conds, args) && c.placeholder == |args| + 1
    ensures Satisfies(r, conds + [c], args + [arg]) <==> Satisfies(r, conds, args) && Holds(r, c, arg)
  {
    var conds', args' := conds + [c], args + [arg];
    if Satisfies(r, conds', args') {
      assert conds'[|conds|] == c && args'[|args|] == arg;
      forall k | 0 <= k < |conds|
        ensures 1 <= conds[k].placeholder <= |args| && Holds(r, conds[k], args[conds[k].placeholder - 1])
      {
        assert conds'[k] == conds[k] && args'[k] == args[k];
      }
    }
    if Satisfies(r, conds, args) && Holds(r, c, arg) {
      forall k | 0 <= k < |conds'|
        ensures 1 <= conds'[k].placeholder <= |args'| && Holds(r, conds'[k], args'[conds'[k].placeholder - 1])
      {
        if k < |conds| {
          assert conds'[k] == conds[k] && args'[k] == args[k];
        }
      }
    }
  }

  /**
   * `if active { query += " AND ll.<column> <op> @p<len(args)+1>"; args = append(args, arg) }`:
   * when active, the clause gains exactly this test.
   */
  method Narrow(conds: seq<Condition>, args: seq<string>, active: bool, column: Column, op: Comparison, arg: string)
    returns (conds': seq<Condition>, args': seq<string>)
    requires Numbered(conds, args)
    ensures Numbered(conds', args')
    ensures forall r :: Satisfies(r, conds', args') <==>
      Satisfies(r, conds, args) && (active ==> Holds(r, Condition(column, op, 1), arg))
  {
    if !active {
      return conds, args;
    }
    var c := Condition(column, op, |args| + 1);
    forall r
      ensures Satisfies(r, conds + [c], args + [arg]) <==> Satisfies(r, conds, args) && Holds(r, Condition(column, op, 1), arg)
    {
      AppendCondition(r, conds, args, c, arg);
    }
    conds' := conds + [c];
    args' := args + [arg];
  }

  /**
   * The clause assembly: the role condition first, as @p1, then one
   * condition per non-empty parameter, each numbered by the argument count
   * so far. A clinic manager without a manager row is a 500.
   */
  method BuildScheduleFilter(db: Db, caller: Caller, q: ScheduleQuery)
    returns (status: Status, conds: seq<Condition>, args: seq<string>)
    ensures caller.userType == CLINIC_MANAGER && ManagerClinic(db, caller.userId).None? ==> status == InternalError
    ensures !(caller.userType == CLINIC_MANAGER && ManagerClinic(db, caller.userId).None?) ==> status == OK
    ensures status == OK ==> |conds| == |args| && forall k :: 0 <= k < |conds| ==> conds[k].placeholder == k + 1
    ensures status == OK ==> forall r: ScheduleRow ::
      Satisfies(r, conds, args) <==>
        Visible(r, caller, if caller.userType == CLINIC_MANAGER then ManagerClinic(db, caller.userId).value else "", q)
  {
    var managerClinic := "";
    if caller.userType == CLINIC_MANAGER {
      var m := ManagerClinic(db, caller.userId);
      if m.None? {
        return InternalError, [], [];
      }
      managerClinic := m.value;
    }
    conds, args := Narrow([], [], caller.userType == DOCTOR, DoctorColumn, Equal, caller.userId);
    conds, args := Narrow(conds, args, caller.userType == CLINIC_MANAGER, ClinicColumn, Equal, managerClinic);
    ghost var role := conds;
    ghost var roleArgs := args;
    assert forall r :: Satisfies(r, role, roleArgs) <==> RoleVisible(r, caller, managerClinic);
    conds, args := Narrow(conds, args, q.doctorId != "", DoctorColumn, Equal, q.doctorId);
    conds, args := Narrow(conds, args, q.clinicId != "", ClinicColumn, Equal, q.clinicId);
    conds, args := Narrow(conds, args, q.dateFrom != "", DateColumn, AtLeast, q.dateFrom);
    conds, args := Narrow(conds, args, q.dateTo != "", DateColumn, AtMostOp, q.dateTo);
    status := OK;
  }
}
