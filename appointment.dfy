// The database-mode appointment endpoints: booking with its double-booking
// guard, the partial update and the cancellation, each with the ownership
// rule it applies.
module AppointmentHandlers {
  import opened Common
  import opened Seqs
  import opened Store

  const SCHEDULED := "SCHEDULED"
  const CANCELLED := "CANCELLED"

  /** Two open appointments of one doctor never share a date-time. */
  predicate NoDoubleBooking(apps: seq<AppointmentRow>)
  {
    forall i, j :: 0 <= i < j < |apps| && apps[i].doctor == apps[j].doctor && apps[i].dateTime == apps[j].dateTime
                   ==> !(IsOpen(apps[i].status) && IsOpen(apps[j].status))
  }

  /** The booking guard's count: an open appointment of the doctor at exactly that date-time. */
  predicate SlotTaken(apps: seq<AppointmentRow>, doctor: string, dateTime: string)
  {
    exists i :: 0 <= i < |apps| && apps[i].doctor == doctor && apps[i].dateTime == Text(dateTime) && IsOpen(apps[i].status)
  }

  /** `SELECT COUNT(*) ... WHERE maBacSi = ? AND ngayGioKham = ? AND trangThai NOT IN (...)`. */
  method CountTaken(apps: seq<AppointmentRow>, doctor: string, dateTime: string) returns (count: nat)
    ensures count <= |apps|
    ensures count > 0 <==> SlotTaken(apps, doctor, dateTime)
  {
    count := 0;
    for i := 0 to |apps|
      invariant count <= i
      invariant count > 0 <==>
        exists k :: 0 <= k < i && apps[k].doctor == doctor && apps[k].dateTime == Text(dateTime) && IsOpen(apps[k].status)
    {
      if apps[i].doctor == doctor && apps[i].dateTime == Text(dateTime) && IsOpen(apps[i].status) {
        count := count + 1;
      }
    }
  }

  /** The row a booking stores: the caller as customer, status SCHEDULED, the note as given ("" when absent). */
  function NewAppointment(id: string, customer: string, body: map<string, JsonValue>): (a: AppointmentRow)
    ensures a.id == id && a.customer == customer && a.status == Text(SCHEDULED) && IsOpen(a.status)
  {
    AppointmentRow(id, customer, StringField(body, "ma_bac_si"), StringField(body, "ma_phong_kham"),
                   Text(StringField(body, "ngay_gio_kham")), Text(SCHEDULED), Text(StringField(body, "ghi_chu")))
  }

  /** Adding an open appointment to a free slot keeps the store free of double bookings. */
  lemma {:induction false} BookingKeepsNoDoubleBooking(apps: seq<AppointmentRow>, a: AppointmentRow)
    requires NoDoubleBooking(apps)
    requires a.dateTime.Text? && !SlotTaken(apps, a.doctor, a.dateTime.text)
    ensures NoDoubleBooking(apps + [a])
  {
    var apps' := apps + [a];
    forall i, j | 0 <= i < j < |apps'| && apps'[i].doctor == apps'[j].doctor && apps'[i].dateTime == apps'[j].dateTime
      ensures !(IsOpen(apps'[i].status) && IsOpen(apps'[j].status))
    {
      if j == |apps| {
        assert apps'[i] == apps[i];
      }
    }
  }

  /**
   * CreateAppointment: doctor, clinic and date-time must be non-empty
   * strings (400), only a customer books (403), an open appointment of the
   * doctor at that exact date-time refuses the booking (409); otherwise the
   * new row is appended.
   */
  method CreateAppointment(db: Db, caller: Caller, body: map<string, JsonValue>, newId: string)
    returns (status: Status, db': Db)
    ensures status == BadRequest <==>
      StringField(body, "ma_bac_si") == "" || StringField(body, "ma_phong_kham") == "" || StringField(body, "ngay_gio_kham") == ""
    ensures status != BadRequest && caller.userType != CUSTOMER ==> status == Forbidden
    ensures status == Conflict <==>
      status != BadRequest && caller.userType == CUSTOMER
      && SlotTaken(db.appointments, StringField(body, "ma_bac_si"), StringField(body, "ngay_gio_kham"))
    ensures status == Created <==>
      status != BadRequest && caller.userType == CUSTOMER
      && !SlotTaken(db.appointments, StringField(body, "ma_bac_si"), StringField(body, "ngay_gio_kham"))
    ensures status == Created ==> db' == db.(appointments := db.appointments + [NewAppointment(newId, caller.userId, body)])
    ensures status != Created ==> db' == db
    ensures NoDoubleBooking(db.appointments) ==> NoDoubleBooking(db'.appointments)
  {
    db' := db;
    var maBacSi := StringField(body, "ma_bac_si");
    var maPhongKham := StringField(body, "ma_phong_kham");
    var ngayGioKham := StringField(body, "ngay_gio_kham");
    if maBacSi == "" || maPhongKham == "" || ngayGioKham == "" {
      return BadRequest, db';
    }
    if caller.userType != CUSTOMER {
      return Forbidden, db';
    }
    var count := CountTaken(db.appointments, maBacSi, ngayGioKham);
    if count > 0 {
      return Conflict, db';
    }
    var row := NewAppointment(newId, caller.userId, body);
    if NoDoubleBooking(db.appointments) {
      BookingKeepsNoDoubleBooking(db.appointments, row);
    }
    db' := db.(appointments := db.appointments + [row]);
    status := Created;
  }

  /** The first row with the identifier, as the ownership lookup reads it. */
  function FindAppointment(db: Db, id: string): (r: Option<AppointmentRow>)
    ensures r.Some? ==> r.value in db.appointments && r.value.id == id
    ensures r.None? <==> forall a :: a in db.appointments ==> a.id != id
  {
    FirstOf(db.appointments, AppointmentRowId, id)
  }

  /** The update's ownership rule: a customer must own the appointment, a doctor must be assigned to it; other roles pass. */
  predicate MayUpdate(caller: Caller, a: AppointmentRow)
  {
    !(caller.userType == CUSTOMER && a.customer != caller.userId)
    && !(caller.userType == DOCTOR && a.doctor != caller.userId)
  }

  /** The row after the update: date-time, status and note are set to the values present, NULL included. */
  function PatchedAppointment(a: AppointmentRow, body: map<string, JsonValue>): (a': AppointmentRow)
    ensures a'.id == a.id && a'.customer == a.customer && a'.doctor == a.doctor && a'.clinic == a.clinic
    ensures "trang_thai" !in body && "ngay_gio_kham" !in body && "ghi_chu" !in body ==> a' == a
  {
    a.(dateTime := if "ngay_gio_kham" in body then ToCell(body["ngay_gio_kham"]) else a.dateTime,
       status := if "trang_thai" in body then ToCell(body["trang_thai"]) else a.status,
       note := if "ghi_chu" in body then ToCell(body["ghi_chu"]) else a.note)
  }

  /**
   * UpdateAppointment: an unknown identifier is 404, the ownership rule
   * 403; then the present keys are written to every row with the
   * identifier, with no check of their values.
   */
  method UpdateAppointment(db: Db, caller: Caller, id: string, body: map<string, JsonValue>) returns (status: Status, db': Db)
    ensures FindAppointment(db, id).None? ==> status == NotFound
    ensures status == Forbidden <==> FindAppointment(db, id).Some? && !MayUpdate(caller, FindAppointment(db, id).value)
    ensures status == OK <==> FindAppointment(db, id).Some? && MayUpdate(caller, FindAppointment(db, id).value)
    ensures status != OK ==> db' == db
    ensures status == OK ==> db' == db.(appointments := db'.appointments) && |db'.appointments| == |db.appointments|
    ensures status == OK ==> forall i :: 0 <= i < |db.appointments| ==>
      db'.appointments[i] == if db.appointments[i].id == id then PatchedAppointment(db.appointments[i], body) else db.appointments[i]
  {
    db' := db;
    var found := FindFirst(db.appointments, AppointmentRowId, id);
    if found.None? {
      return NotFound, db';
    }
    var current := db.appointments[found.value];
    if caller.userType == CUSTOMER && current.customer != caller.userId {
      return Forbidden, db';
    }
    if caller.userType == DOCTOR && current.doctor != caller.userId {
      return Forbidden, db';
    }
    var rows := UpdateWhere(db.appointments, AppointmentRowId, id, (a: AppointmentRow) => PatchedAppointment(a, body));
    db' := db.(appointments := rows);
    status := OK;
  }

  /** The update writes status values unchecked: a cancelled appointment can be set back to SCHEDULED. */
  lemma UpdateReopensCancelled(a: AppointmentRow)
    requires a.status == Text(CANCELLED)
    ensures !IsOpen(a.status)
    ensures IsOpen(PatchedAppointment(a, map["trang_thai" := JStr(SCHEDULED)]).status)
  {
  }

  /** Moving an appointment onto a taken date-time is not refused: the update can create a double booking. */
  lemma UpdateCanDoubleBook(a: AppointmentRow, b: AppointmentRow, t: string)
    requires a.doctor == b.doctor && a.dateTime == Text(t) && IsOpen(a.status) && IsOpen(b.status)
    ensures NoDoubleBooking([a, b]) <==> b.dateTime != Text(t)
    ensures !NoDoubleBooking([a, PatchedAppointment(b, map["ngay_gio_kham" := JStr(t)])])
  {
    var b' := PatchedAppointment(b, map["ngay_gio_kham" := JStr(t)]);
    assert [a, b'][0] == a && [a, b'][1] == b';
  }

  /**
   * CancelAppointment: an unknown identifier is 404; only a customer is
   * checked for ownership (403); every row with the identifier is set to
   * CANCELLED.
   */
  method CancelAppointment(db: Db, caller: Caller, id: string) returns (status: Status, db': Db)
    ensures FindAppointment(db, id).None? ==> status == NotFound
    ensures status == Forbidden <==>
      FindAppointment(db, id).Some? && caller.userType == CUSTOMER && FindAppointment(db, id).value.customer != caller.userId
    ensures status == OK <==>
      FindAppointment(db, id).Some? && !(caller.userType == CUSTOMER && FindAppointment(db, id).value.customer != caller.userId)
    ensures status != OK ==> db' == db
    ensures status == OK ==> db' == db.(appointments := db'.appointments) && |db'.appointments| == |db.appointments|
    ensures status == OK ==> forall i :: 0 <= i < |db.appointments| ==>
      db'.appointments[i] == if db.appointments[i].id == id then db.appointments[i].(status := Text(CANCELLED)) else db.appointments[i]
    ensures status == OK ==> forall a :: a in db'.appointments && a.id == id ==> !IsOpen(a.status)
    ensures NoDoubleBooking(db.appointments) ==> NoDoubleBooking(db'.appointments)
  {
    db' := db;
    var found := FindFirst(db.appointments, AppointmentRowId, id);
    if found.None? {
      return NotFound, db';
    }
    if caller.userType == CUSTOMER && db.appointments[found.value].customer != caller.userId {
      return Forbidden, db';
    }
    var rows := UpdateWhere(db.appointments, AppointmentRowId, id, (a: AppointmentRow) => a.(status := Text(CANCELLED)));
    CancelKeepsNoDoubleBooking(db.appointments, rows, id);
    db' := db.(appointments := rows);
    status := OK;
  }

  /** Closing appointments never creates a double booking. */
  lemma CancelKeepsNoDoubleBooking(apps: seq<AppointmentRow>, apps': seq<AppointmentRow>, id: string)
    requires |apps'| == |apps|
    requires forall i :: 0 <= i < |apps| ==> apps'[i] == if apps[i].id == id then apps[i].(status := Text(CANCELLED)) else apps[i]
    ensures NoDoubleBooking(apps) ==> NoDoubleBooking(apps')
  {
    if NoDoubleBooking(apps) {
      forall i, j | 0 <= i < j < |apps'| && apps'[i].doctor == apps'[j].doctor && apps'[i].dateTime == apps'[j].dateTime
        ensures !(IsOpen(apps'[i].status) && IsOpen(apps'[j].status))
      {
        assert apps[i].doctor == apps[j].doctor && apps[i].dateTime == apps[j].dateTime;
      }
    }
  }
}
