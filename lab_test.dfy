// The lab-test endpoints: the status shown for a test, derived from its
// result and date, who may order, change or remove a test, and the list of
// test types with its fallback.
module LabTestHandlers {
  import opened Common
  import opened Clock
  import opened Seqs
  import opened Store

  // -----------------------------------------------------------------------
  // The derived status
  // -----------------------------------------------------------------------

  const ORDERED := "ordered"
  const PROCESSING := "processing"
  const COMPLETED := "completed"

  /** A result that is present and not empty (a NULL result reads as ""). */
  predicate HasResult(result: Cell)
  {
    result.Text? && result.text != ""
  }

  /**
   * The status shown for a test at instant `now` (seconds): completed once
   * it has a result, processing once its date has passed, ordered before.
   */
  function DerivedStatus(result: Cell, date: Option<int>, now: int): (s: string)
    ensures s == COMPLETED <==> HasResult(result)
    ensures s == PROCESSING <==> !HasResult(result) && date.Some? && date.value < now
    ensures s == ORDERED <==> !HasResult(result) && !(date.Some? && date.value < now)
  {
    if HasResult(result) then COMPLETED
    else if date.Some? && date.value < now then PROCESSING
    else ORDERED
  }

  function StatusRank(s: string): nat
  {
    if s == COMPLETED then 2 else if s == PROCESSING then 1 else 0
  }

  /** As time passes a test's status only moves forward: ordered, processing, completed. */
  lemma StatusNeverRegresses(result: Cell, date: Option<int>, t1: int, t2: int)
    requires t1 <= t2
    ensures StatusRank(DerivedStatus(result, date, t1)) <= StatusRank(DerivedStatus(result, date, t2))
  {
  }

  // -----------------------------------------------------------------------
  // POST /lab-tests
  // -----------------------------------------------------------------------

  datatype LabTestRequest = LabTestRequest(maHoSo: string, loaiXetNghiem: string, ghiChu: string, ngayXetNghiem: string)

  /** A key a string field binds from: absent, a string or null. */
  predicate BindsAsString(body: map<string, JsonValue>, key: string)
  {
    key !in body || body[key].JStr? || body[key].JNull?
  }

  /**
   * Binding the request: every field must be a string or null, and the
   * two required ones (record and test type) must be non-empty.
   */
  function BindLabTest(body: map<string, JsonValue>): (r: Option<LabTestRequest>)
    ensures r.Some? <==>
      BindsAsString(body, "ma_ho_so") && BindsAsString(body, "loai_xet_nghiem") && BindsAsString(body, "ghi_chu")
      && BindsAsString(body, "ngay_xet_nghiem")
      && StringField(body, "ma_ho_so") != "" && StringField(body, "loai_xet_nghiem") != ""
    ensures r.Some? ==> r.value.maHoSo == StringField(body, "ma_ho_so") && r.value.ngayXetNghiem == StringField(body, "ngay_xet_nghiem")
  {
    if BindsAsString(body, "ma_ho_so") && BindsAsString(body, "loai_xet_nghiem") && BindsAsString(body, "ghi_chu")
       && BindsAsString(body, "ngay_xet_nghiem")
       && StringField(body, "ma_ho_so") != "" && StringField(body, "loai_xet_nghiem") != ""
    then Some(LabTestRequest(StringField(body, "ma_ho_so"), StringField(body, "loai_xet_nghiem"),
                             StringField(body, "ghi_chu"), StringField(body, "ngay_xet_nghiem")))
    else None
  }

  /** The test date of an order: now when none is given, else midnight UTC of a valid date; None is the 400. */
  function OrderDate(ngayXetNghiem: string, now: int): (d: Option<int>)
    ensures d.None? <==> ngayXetNghiem != "" && !IsValidDate(ngayXetNghiem)
    ensures ngayXetNghiem == "" ==> d == Some(now)
  {
    if ngayXetNghiem == "" then Some(now)
    else if IsValidDate(ngayXetNghiem) then Some(MidnightUtc(ngayXetNghiem))
    else None
  }

  /** The row an order stores: no result yet. */
  function NewLabTest(id: string, req: LabTestRequest, date: int): (r: LabTestRow)
    ensures r.id == id && r.record == req.maHoSo && r.result == Null && r.date == Some(date)
  {
    LabTestRow(id, req.maHoSo, Text(req.loaiXetNghiem), Some(date), Null, Text(req.ghiChu))
  }

  /** A new order is never shown as completed, and one dated now is ordered at that instant and processing after it. */
  lemma NewOrderStatus(id: string, req: LabTestRequest, now: int, later: int)
    requires now < later
    ensures var r := NewLabTest(id, req, now);
      DerivedStatus(r.result, r.date, now) == ORDERED && DerivedStatus(r.result, r.date, later) == PROCESSING
  {
  }

  /**
   * CreateLabOrder: only a doctor (403), a request that binds (400), a
   * record that exists (404) and belongs to the doctor (403), a valid date
   * or none (400); then the order is appended.
   */
  method CreateLabOrder(db: Db, caller: Caller, body: map<string, JsonValue>, newId: string, now: int)
    returns (status: Status, db': Db)
    ensures caller.userType != DOCTOR ==> status == Forbidden
    ensures caller.userType == DOCTOR && BindLabTest(body).None? ==> status == BadRequest
    ensures (caller.userType == DOCTOR && BindLabTest(body).Some?
             && FirstOf(db.records, RecordRowId, BindLabTest(body).value.maHoSo).None?) ==> status == NotFound
    ensures (caller.userType == DOCTOR && BindLabTest(body).Some?
             && FirstOf(db.records, RecordRowId, BindLabTest(body).value.maHoSo).Some?
             && FirstOf(db.records, RecordRowId, BindLabTest(body).value.maHoSo).value.doctor != caller.userId) ==> status == Forbidden
    ensures (caller.userType == DOCTOR && BindLabTest(body).Some?
             && FirstOf(db.records, RecordRowId, BindLabTest(body).value.maHoSo).Some?
             && FirstOf(db.records, RecordRowId, BindLabTest(body).value.maHoSo).value.doctor == caller.userId
             && OrderDate(BindLabTest(body).value.ngayXetNghiem, now).None?) ==> status == BadRequest
    ensures status == Created <==>
      caller.userType == DOCTOR && BindLabTest(body).Some?
      && FirstOf(db.records, RecordRowId, BindLabTest(body).value.maHoSo).Some?
      && FirstOf(db.records, RecordRowId, BindLabTest(body).value.maHoSo).value.doctor == caller.userId
      && OrderDate(BindLabTest(body).value.ngayXetNghiem, now).Some?
    ensures status == Created ==>
      var req := BindLabTest(body).value;
      db' == db.(labTests := db.labTests + [NewLabTest(newId, req, OrderDate(req.ngayXetNghiem, now).value)])
    ensures status != Created ==> db' == db
  {
    db' := db;
    if caller.userType != DOCTOR {
      return Forbidden, db';
    }
    var bound := BindLabTest(body);
    if bound.None? {
      return BadRequest, db';
    }
    var req := bound.value;
    var found := FindFirst(db.records, RecordRowId, req.maHoSo);
    if found.None? {
      return NotFound, db';
    }
    if db.records[found.value].doctor != caller.userId {
      return Forbidden, db';
    }
    var testDate: int;
    if req.ngayXetNghiem != "" {
      if !IsValidDate(req.ngayXetNghiem) {
        return BadRequest, db';
      }
      testDate := MidnightUtc(req.ngayXetNghiem);
    } else {
      testDate := now;
    }
    db' := db.(labTests := db.labTests + [NewLabTest(newId, req, testDate)]);
    status := Created;
  }

  // -----------------------------------------------------------------------
  // The ownership lookup: XETNGHIEM joined with HOSO
  // -----------------------------------------------------------------------

  /** The record the join's first row comes from: the first test row with the identifier whose record exists. */
  function OwnerRecord(labs: seq<LabTestRow>, records: seq<RecordRow>, id: string): (r: Option<RecordRow>)
    ensures r.Some? ==> r.value in records && exists l :: l in labs && l.id == id && l.record == r.value.id
    ensures r.None? <==> forall l, rec :: l in labs && l.id == id && rec in records ==> rec.id != l.record
  {
    if labs == [] then None
    else if labs[0].id == id && FirstOf(records, RecordRowId, labs[0].record).Some? then
      FirstOf(records, RecordRowId, labs[0].record)
    else
      assert forall l :: l in labs ==> l == labs[0] || l in labs[1..];
      OwnerRecord(labs[1..], records, id)
  }

  // -----------------------------------------------------------------------
  // PUT /lab-tests/:id
  // -----------------------------------------------------------------------

  /** A string test date must be a valid date; a date of another JSON type is ignored. */
  predicate LabPatchAcceptable(body: map<string, JsonValue>)
  {
    "ngay_xet_nghiem" in body && body["ngay_xet_nghiem"].JStr? ==> IsValidDate(body["ngay_xet_nghiem"].str)
  }

  /** The result, note and type columns after the update: the values present are stored, NULL included. */
  function PatchedFields(r: LabTestRow, body: map<string, JsonValue>): (r': LabTestRow)
    ensures r'.id == r.id && r'.record == r.record && r'.date == r.date
  {
    r.(result := if "ket_qua" in body then ToCell(body["ket_qua"]) else r.result,
       note := if "ghi_chu" in body then ToCell(body["ghi_chu"]) else r.note,
       testType := if "loai_xet_nghiem" in body then ToCell(body["loai_xet_nghiem"]) else r.testType)
  }

  /** The whole row after an acceptable update: the fields, then a string date as midnight UTC. */
  function PatchedLabTest(r: LabTestRow, body: map<string, JsonValue>): (r': LabTestRow)
    requires LabPatchAcceptable(body)
    ensures r'.id == r.id && r'.record == r.record
    ensures "ket_qua" in body ==> r'.result == ToCell(body["ket_qua"])
    ensures !("ket_qua" in body || "ghi_chu" in body || "loai_xet_nghiem" in body || "ngay_xet_nghiem" in body) ==> r' == r
  {
    var p := PatchedFields(r, body);
    if "ngay_xet_nghiem" in body && body["ngay_xet_nghiem"].JStr? then p.(date := Some(MidnightUtc(body["ngay_xet_nghiem"].str)))
    else p
  }

  /** A doctor is held to their own records; every other role passes. */
  predicate MayUpdateLabTest(caller: Caller, owner: RecordRow)
  {
    !(caller.userType == DOCTOR && owner.doctor != caller.userId)
  }

  /**
   * UpdateLabTest: 404 without a joined record, 403 for a doctor who does
   * not own it; the present fields are written in one transaction, and a
   * string date that does not parse answers 400 and rolls them back.
   */
  method UpdateLabTest(db: Db, caller: Caller, id: string, body: map<string, JsonValue>) returns (status: Status, db': Db)
    ensures OwnerRecord(db.labTests, db.records, id).None? ==> status == NotFound
    ensures status == Forbidden <==>
      OwnerRecord(db.labTests, db.records, id).Some? && !MayUpdateLabTest(caller, OwnerRecord(db.labTests, db.records, id).value)
    ensures status == OK <==>
      OwnerRecord(db.labTests, db.records, id).Some? && MayUpdateLabTest(caller, OwnerRecord(db.labTests, db.records, id).value)
      && LabPatchAcceptable(body)
    ensures (OwnerRecord(db.labTests, db.records, id).Some? && MayUpdateLabTest(caller, OwnerRecord(db.labTests, db.records, id).value)
             && !LabPatchAcceptable(body)) ==> status == BadRequest
    ensures status != OK ==> db' == db
    ensures status == OK ==> db' == db.(labTests := db'.labTests) && |db'.labTests| == |db.labTests|
    ensures status == OK ==> forall i :: 0 <= i < |db.labTests| ==>
      db'.labTests[i] == if db.labTests[i].id == id then PatchedLabTest(db.labTests[i], body) else db.labTests[i]
  {
    db' := db;
    var owner := OwnerRecord(db.labTests, db.records, id);
    if owner.None? {
      return NotFound, db';
    }
    if caller.userType == DOCTOR && owner.value.doctor != caller.userId {
      return Forbidden, db';
    }
    var tx := UpdateWhere(db.labTests, LabTestRowId, id, (r: LabTestRow) => PatchedFields(r, body));
    if "ngay_xet_nghiem" in body && body["ngay_xet_nghiem"].JStr? {
      var dateStr := body["ngay_xet_nghiem"].str;
      if !IsValidDate(dateStr) {
        return BadRequest, db';
      }
      var fields := tx;
      tx := UpdateWhere(fields, LabTestRowId, id, (r: LabTestRow) => r.(date := Some(MidnightUtc(dateStr))));
      forall i | 0 <= i < |db.labTests|
        ensures tx[i] == if db.labTests[i].id == id then PatchedLabTest(db.labTests[i], body) else db.labTests[i]
      {
        assert fields[i].id == db.labTests[i].id;
      }
    }
    db' := db.(labTests := tx);
    status := OK;
  }

  // -----------------------------------------------------------------------
  // DELETE /lab-tests/:id
  // -----------------------------------------------------------------------

  /**
   * DeleteLabTest: only a doctor (403, before any lookup), 404 without a
   * joined record, 403 unless the doctor owns the record; then every test
   * row with the identifier is removed.
   */
  method DeleteLabTest(db: Db, caller: Caller, id: string) returns (status: Status, db': Db)
    ensures caller.userType != DOCTOR ==> status == Forbidden
    ensures caller.userType == DOCTOR && OwnerRecord(db.labTests, db.records, id).None? ==> status == NotFound
    ensures (caller.userType == DOCTOR && OwnerRecord(db.labTests, db.records, id).Some?
             && OwnerRecord(db.labTests, db.records, id).value.doctor != caller.userId) ==> status == Forbidden
    ensures status == OK <==>
      caller.userType == DOCTOR && OwnerRecord(db.labTests, db.records, id).Some?
      && OwnerRecord(db.labTests, db.records, id).value.doctor == caller.userId
    ensures status == OK ==> db' == db.(labTests := WithoutKey(db.labTests, LabTestRowId, id))
    ensures status == OK ==> forall r :: r in db'.labTests ==> r.id != id
    ensures status != OK ==> db' == db
  {
    db' := db;
    if caller.userType != DOCTOR {
      return Forbidden, db';
    }
    var owner := OwnerRecord(db.labTests, db.records, id);
    if owner.None? {
      return NotFound, db';
    }
    if owner.value.doctor != caller.userId {
      return Forbidden, db';
    }
    var rows := DeleteWhere(db.labTests, LabTestRowId, id);
    db' := db.(labTests := rows);
    status := OK;
  }

  // -----------------------------------------------------------------------
  // GET /lab-tests/types
  // -----------------------------------------------------------------------

  /** The ten types offered when the store has none. */
  const DefaultLabTestTypes: seq<string> := [
    "Complete Blood Count (CBC)",
    "Basic Metabolic Panel (BMP)",
    "Hemoglobin A1c",
    "Lipid Panel",
    "Liver Function Tests",
    "Thyroid Function Tests",
    "Troponin I",
    "C-Reactive Protein",
    "Blood Culture",
    "Urine Culture"
  ]

  /** The non-NULL values of the type query, in order. */
  function TextValues(rows: seq<Cell>): (r: seq<string>)
    ensures |r| <= |rows|
    ensures forall t :: t in r <==> Text(t) in rows
  {
    if rows == [] then []
    else
      var last := rows[|rows| - 1];
      assert rows == rows[..|rows| - 1] + [last];
      TextValues(rows[..|rows| - 1]) + (if last.Text? then [last.text] else [])
  }

  /** GetLabTestTypes: the stored types, or the ten defaults when there are none. */
  method GetLabTestTypes(rows: seq<Cell>) returns (testTypes: seq<string>)
    ensures TextValues(rows) != [] ==> testTypes == TextValues(rows)
    ensures TextValues(rows) == [] ==> testTypes == DefaultLabTestTypes
    ensures |testTypes| > 0
  {
    testTypes := [];
    for i := 0 to |rows|
      invariant testTypes == TextValues(rows[..i])
    {
      assert rows[..i + 1][..i] == rows[..i];
      if rows[i].Text? {
        testTypes := testTypes + [rows[i].text];
      }
    }
    assert rows[..|rows|] == rows;
    if |testTypes| == 0 {
      testTypes := DefaultLabTestTypes;
    }
  }
}
