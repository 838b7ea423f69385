// The database-mode profile endpoints: reading the caller's profile by
// role, the partial profile update with its e-mail checks and its
// empty-to-NULL rule, and the password change with its validation chain.
// bcrypt is a parameter: a check function and the outcome of hashing.
module UserHandlers {
  import opened Common
  import opened Text
  import opened Seqs
  import opened Store
  import opened Utils

  const ACTIVE := "ACTIVE"

  /** The six user types the profile switch knows. */
  predicate KnownUserType(t: string)
  {
    t == CUSTOMER || t == DOCTOR || t == RECEPTIONIST || t == ACCOUNTANT || t == CLINIC_MANAGER || t == OPERATION_MANAGER
  }

  /** The first [USER] row of a user, as `QueryRow ... WHERE MaUser = ?` reads it. */
  function FindUser(db: Db, userId: string): (r: Option<UserRow>)
    ensures r.Some? ==> r.value in db.users && r.value.userId == userId
    ensures r.None? <==> forall u :: u in db.users ==> u.userId != userId
  {
    FirstOf(db.users, UserRowId, userId)
  }

  /**
   * GetProfile: an unknown user type is 400; otherwise the user's row
   * joined with the table of their type, 404 when the join is empty or the
   * row cannot be scanned (a NULL name). The profile never carries the
   * password hash.
   */
  method GetProfile(db: Db, caller: Caller) returns (status: Status, profile: Option<UserRow>)
    ensures status == BadRequest <==> !KnownUserType(caller.userType)
    ensures status == NotFound <==>
      KnownUserType(caller.userType)
      && (FindUser(db, caller.userId).None? || !InRoleTable(db, caller.userType, caller.userId)
          || !NameScans(FindUser(db, caller.userId).value))
    ensures status == OK <==>
      KnownUserType(caller.userType) && FindUser(db, caller.userId).Some? && InRoleTable(db, caller.userType, caller.userId)
      && NameScans(FindUser(db, caller.userId).value)
    ensures status == OK ==> profile == Some(FindUser(db, caller.userId).value.(password := ""))
    ensures status != OK ==> profile.None?
  {
    profile := None;
    if !KnownUserType(caller.userType) {
      return BadRequest, profile;
    }
    var u := FindUser(db, caller.userId);
    if u.None? || !InRoleTable(db, caller.userType, caller.userId) || !NameScans(u.value) {
      return NotFound, profile;
    }
    profile := Some(u.value.(password := ""));
    status := OK;
  }

  // ---------------------------------------------------------------------
  // UpdateProfile
  // ---------------------------------------------------------------------

  /** No two users hold the same e-mail address; NULL addresses are not compared. */
  predicate UniqueEmails(users: seq<UserRow>)
  {
    forall i, j :: 0 <= i < |users| && 0 <= j < |users| && users[i].email.Text? && users[i].email == users[j].email
                   ==> users[i].userId == users[j].userId
  }

  /** `SELECT MaUser FROM [USER] WHERE Email = ? AND MaUser != ?` finds a row. */
  predicate EmailTakenByOther(users: seq<UserRow>, email: string, userId: string)
  {
    exists u :: u in users && u.email == Text(email) && u.userId != userId
  }

  /**
   * The e-mail test of the update, None when it passes: a present value
   * other than the string "" must be a string the e-mail check accepts
   * (400) and no other user's address (409).
   */
  function EmailCheck(users: seq<UserRow>, userId: string, body: map<string, JsonValue>): (s: Option<Status>)
    ensures s.Some? ==> s.value == BadRequest || s.value == Conflict
    ensures s.None? <==>
      "email" !in body || body["email"] == JStr("")
      || (body["email"].JStr? && ValidateEmail(body["email"].str) && !EmailTakenByOther(users, body["email"].str, userId))
  {
    if "email" in body && body["email"] != JStr("") then
      match body["email"]
      case JStr(e) =>
        if !ValidateEmail(e) then Some(BadRequest)
        else if EmailTakenByOther(users, e, userId) then Some(Conflict)
        else None
      case _ => Some(BadRequest)
    else None
  }

  // The three statements on [USER], each applied to every row of the caller.
  function SetName(u: UserRow, body: map<string, JsonValue>): UserRow
  {
    if "ho_ten" in body && body["ho_ten"] != JStr("") then u.(hoTen := ToCell(body["ho_ten"])) else u
  }

  function SetPhone(u: UserRow, body: map<string, JsonValue>): UserRow
  {
    if "so_dien_thoai" in body then u.(soDienThoai := EmptyAsNull(body["so_dien_thoai"])) else u
  }

  function SetEmail(u: UserRow, body: map<string, JsonValue>): UserRow
  {
    if "email" in body then u.(email := EmptyAsNull(body["email"])) else u
  }

  /**
   * A user row after the update: the name only when given and not "",
   * phone and e-mail whenever given, with "" stored as NULL.
   */
  function PatchedUser(u: UserRow, body: map<string, JsonValue>): (u': UserRow)
    ensures u'.userId == u.userId && u'.username == u.username && u'.password == u.password
    ensures u'.status == u.status && u'.role == u.role
    ensures u'.hoTen == (if "ho_ten" in body && body["ho_ten"] != JStr("") then ToCell(body["ho_ten"]) else u.hoTen)
    ensures u'.soDienThoai == (if "so_dien_thoai" in body then EmptyAsNull(body["so_dien_thoai"]) else u.soDienThoai)
    ensures u'.email == (if "email" in body then EmptyAsNull(body["email"]) else u.email)
  {
    SetEmail(SetPhone(SetName(u, body), body), body)
  }

  /** A customer row after the update: each of the four fields given is written, "" as NULL. */
  function PatchedCustomer(c: CustomerRow, body: map<string, JsonValue>): (c': CustomerRow)
    ensures c'.userId == c.userId
    ensures c'.ngaySinh == (if "ngay_sinh" in body then EmptyAsNull(body["ngay_sinh"]) else c.ngaySinh)
    ensures c'.gioiTinh == (if "gioi_tinh" in body then EmptyAsNull(body["gioi_tinh"]) else c.gioiTinh)
    ensures c'.diaChi == (if "dia_chi" in body then EmptyAsNull(body["dia_chi"]) else c.diaChi)
    ensures c'.maBaoHiem == (if "ma_bao_hiem" in body then EmptyAsNull(body["ma_bao_hiem"]) else c.maBaoHiem)
  {
    c.(ngaySinh := if "ngay_sinh" in body then EmptyAsNull(body["ngay_sinh"]) else c.ngaySinh,
       gioiTinh := if "gioi_tinh" in body then EmptyAsNull(body["gioi_tinh"]) else c.gioiTinh,
       diaChi := if "dia_chi" in body then EmptyAsNull(body["dia_chi"]) else c.diaChi,
       maBaoHiem := if "ma_bao_hiem" in body then EmptyAsNull(body["ma_bao_hiem"]) else c.maBaoHiem)
  }

  /** The statements on one table composed: each row of the key gets f then g, the others neither. */
  lemma UpdateWhereTwice<T, K>(s: seq<T>, r1: seq<T>, r2: seq<T>, key: T -> K, k: K, f: T -> T, g: T -> T)
    requires |r1| == |s| && forall i :: 0 <= i < |s| ==> r1[i] == if key(s[i]) == k then f(s[i]) else s[i]
    requires |r2| == |r1| && forall i :: 0 <= i < |r1| ==> r2[i] == if key(r1[i]) == k then g(r1[i]) else r1[i]
    requires forall t :: key(f(t)) == key(t)
    ensures |r2| == |s| && forall i :: 0 <= i < |s| ==> r2[i] == if key(s[i]) == k then g(f(s[i])) else s[i]
  {
    forall i | 0 <= i < |s|
      ensures r2[i] == if key(s[i]) == k then g(f(s[i])) else s[i]
    {
      assert key(r1[i]) == key(s[i]);
    }
  }

  /**
   * Writing an address that no other user holds, or NULL, to every row of
   * one user keeps addresses unique.
   */
  lemma EmailWriteKeepsUnique(users: seq<UserRow>, users': seq<UserRow>, userId: string, v: Cell)
    requires UniqueEmails(users)
    requires |users'| == |users|
    requires forall i :: 0 <= i < |users| ==> users'[i].userId == users[i].userId
    requires forall i :: 0 <= i < |users| ==> users'[i].email == if users[i].userId == userId then v else users[i].email
    requires v.Text? ==> !EmailTakenByOther(users, v.text, userId)
    ensures UniqueEmails(users')
  {
    forall i, j | 0 <= i < |users'| && 0 <= j < |users'| && users'[i].email.Text? && users'[i].email == users'[j].email
      ensures users'[i].userId == users'[j].userId
    {
      assert users[i] in users && users[j] in users;
    }
  }

  /**
   * UpdateProfile: an empty body is 400, a failing e-mail test 400 or
   * 409; then the name, phone and e-mail statements run on the caller's
   * [USER] rows and, for a customer only, the four customer fields on
   * their CUSTOMER rows. Addresses stay unique.
   */
  method UpdateProfile(db: Db, caller: Caller, body: map<string, JsonValue>) returns (status: Status, db': Db)
    ensures |body| == 0 ==> status == BadRequest
    ensures |body| > 0 && EmailCheck(db.users, caller.userId, body).Some? ==> status == EmailCheck(db.users, caller.userId, body).value
    ensures status == OK <==> |body| > 0 && EmailCheck(db.users, caller.userId, body).None?
    ensures status != OK ==> db' == db
    ensures status == OK ==> db' == db.(users := db'.users, customers := db'.customers)
    ensures status == OK ==> |db'.users| == |db.users| && forall i :: 0 <= i < |db.users| ==>
      db'.users[i] == if db.users[i].userId == caller.userId then PatchedUser(db.users[i], body) else db.users[i]
    ensures status == OK && caller.userType == CUSTOMER ==> |db'.customers| == |db.customers| && forall i :: 0 <= i < |db.customers| ==>
      db'.customers[i] == if db.customers[i].userId == caller.userId then PatchedCustomer(db.customers[i], body) else db.customers[i]
    ensures status == OK && caller.userType != CUSTOMER ==> db'.customers == db.customers
    ensures UniqueEmails(db.users) ==> UniqueEmails(db'.users)
  {
    db' := db;
    if |body| == 0 {
      return BadRequest, db';
    }
    var check := EmailCheck(db.users, caller.userId, body);
    if check.Some? {
      return check.value, db';
    }
    var tx := db;
    var u3 := PatchUserRows(db.users, caller.userId, body);
    tx := tx.(users := u3);
    if caller.userType == CUSTOMER {
      var cs := UpdateWhere(tx.customers, CustomerRowUser, caller.userId, (c: CustomerRow) => PatchedCustomer(c, body));
      tx := tx.(customers := cs);
    }
    db' := tx;
    status := OK;
  }

  /** The three [USER] statements of UpdateProfile, run one after the other on the caller's rows. */
  method PatchUserRows(users: seq<UserRow>, userId: string, body: map<string, JsonValue>) returns (users': seq<UserRow>)
    requires EmailCheck(users, userId, body).None?
    ensures |users'| == |users|
    ensures forall i :: 0 <= i < |users| ==>
      users'[i] == if users[i].userId == userId then PatchedUser(users[i], body) else users[i]
    ensures UniqueEmails(users) ==> UniqueEmails(users')
  {
    var u1 := UpdateWhere(users, UserRowId, userId, (u: UserRow) => SetName(u, body));
    var u2 := UpdateWhere(u1, UserRowId, userId, (u: UserRow) => SetPhone(u, body));
    users' := UpdateWhere(u2, UserRowId, userId, (u: UserRow) => SetEmail(u, body));
    UpdateWhereTwice(users, u1, u2, UserRowId, userId,
                     (u: UserRow) => SetName(u, body), (u: UserRow) => SetPhone(u, body));
    UpdateWhereTwice(users, u2, users', UserRowId, userId,
                     (u: UserRow) => SetPhone(SetName(u, body), body), (u: UserRow) => SetEmail(u, body));
    if UniqueEmails(users) {
      if "email" in body {
        EmailWriteKeepsUnique(users, users', userId, EmptyAsNull(body["email"]));
      } else {
        forall i | 0 <= i < |users| ensures users'[i].email == users[i].email { }
      }
    }
  }

  // ---------------------------------------------------------------------
  // ChangePassword
  // ---------------------------------------------------------------------

  /** The checks made before any store read, None when they pass. */
  function PasswordRequestCheck(body: map<string, JsonValue>): (s: Option<Status>)
    ensures s.Some? ==> s.value == BadRequest
    ensures s.None? <==>
      RequiredString(body, "old_password").Some? && RequiredString(body, "new_password").Some?
      && Utf8Length(RequiredString(body, "new_password").value) >= 6
      && RequiredString(body, "new_password").value != RequiredString(body, "old_password").value
  {
    var old_ := RequiredString(body, "old_password");
    var new_ := RequiredString(body, "new_password");
    if old_.None? || new_.None? then Some(BadRequest)
    else if Utf8Length(new_.value) < 6 then Some(BadRequest)
    else if old_.value == new_.value then Some(BadRequest)
    else None
  }

  /** The password column of every row of the user set to the new hash. */
  function WithPassword(users: seq<UserRow>, userId: string, hash: string): (r: seq<UserRow>)
    ensures |r| == |users|
    ensures forall i :: 0 <= i < |users| ==> r[i] == if users[i].userId == userId then users[i].(password := hash) else users[i]
  {
    if users == [] then []
    else [if users[0].userId == userId then users[0].(password := hash) else users[0]] + WithPassword(users[1..], userId, hash)
  }

  /**
   * ChangePassword: the request checks (400), then an unknown user (404),
   * an inactive account (403), a wrong current password (400) and a
   * failed hash (500); only then is the password replaced.
   */
  method ChangePassword(db: Db, caller: Caller, body: map<string, JsonValue>,
                        checkPassword: (string, string) -> bool, newHash: Option<string>)
    returns (status: Status, db': Db)
    ensures PasswordRequestCheck(body).Some? ==> status == BadRequest
    ensures PasswordRequestCheck(body).None? && FindUser(db, caller.userId).None? ==> status == NotFound
    ensures status == Forbidden <==>
      PasswordRequestCheck(body).None? && FindUser(db, caller.userId).Some? && FindUser(db, caller.userId).value.status != ACTIVE
    ensures status == OK <==>
      PasswordRequestCheck(body).None? && FindUser(db, caller.userId).Some?
      && FindUser(db, caller.userId).value.status == ACTIVE
      && checkPassword(RequiredString(body, "old_password").value, FindUser(db, caller.userId).value.password)
      && newHash.Some?
    ensures (PasswordRequestCheck(body).None? && FindUser(db, caller.userId).Some?
             && FindUser(db, caller.userId).value.status == ACTIVE
             && !checkPassword(RequiredString(body, "old_password").value, FindUser(db, caller.userId).value.password))
            ==> status == BadRequest
    ensures (PasswordRequestCheck(body).None? && FindUser(db, caller.userId).Some?
             && FindUser(db, caller.userId).value.status == ACTIVE
             && checkPassword(RequiredString(body, "old_password").value, FindUser(db, caller.userId).value.password)
             && newHash.None?) ==> status == InternalError
    ensures status != OK ==> db' == db
    ensures status == OK ==> db' == db.(users := WithPassword(db.users, caller.userId, newHash.value))
  {
    db' := db;
    var check := PasswordRequestCheck(body);
    if check.Some? {
      return check.value, db';
    }
    var oldPassword := RequiredString(body, "old_password").value;
    var u := FindUser(db, caller.userId);
    if u.None? {
      return NotFound, db';
    }
    if u.value.status != ACTIVE {
      return Forbidden, db';
    }
    if !checkPassword(oldPassword, u.value.password) {
      return BadRequest, db';
    }
    if newHash.None? {
      return InternalError, db';
    }
    db' := db.(users := WithPassword(db.users, caller.userId, newHash.value));
    status := OK;
  }

  /** A password change never touches another user's row, and the caller's rows keep everything but the hash. */
  lemma ChangePasswordTouchesOnlyCaller(users: seq<UserRow>, userId: string, hash: string, i: int)
    requires 0 <= i < |users|
    ensures users[i].userId != userId ==> WithPassword(users, userId, hash)[i] == users[i]
    ensures WithPassword(users, userId, hash)[i].(password := users[i].password) == users[i]
    ensures UniqueEmails(users) ==> UniqueEmails(WithPassword(users, userId, hash))
  {
    var r := WithPassword(users, userId, hash);
    if UniqueEmails(users) {
      forall a, b | 0 <= a < |r| && 0 <= b < |r| && r[a].email.Text? && r[a].email == r[b].email
        ensures r[a].userId == r[b].userId
      {
        assert users[a].email == r[a].email && users[b].email == r[b].email;
      }
    }
  }
}
