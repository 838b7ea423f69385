// The database-mode authentication endpoints: login, registration, the
// forgotten-password code and the password reset, and the user-type probe.
// bcrypt, the clock, token signing and the random sources are parameters.
module AuthHandlers {
  import opened Common
  import opened Text
  import opened Seqs
  import opened Store
  import opened Utils
  import opened Middleware
  import opened UserHandlers

  // ---------------------------------------------------------------------
  // Login
  // ---------------------------------------------------------------------

  /** What a successful login answers: the user without the hash, the claims both tokens carry, and their validity. */
  datatype Session = Session(user: UserRow, claims: Claims, access: Validity, refresh: Validity)

  function UsernameStatus(u: UserRow): (string, string) { (u.username, u.status) }

  /** `... FROM [USER] WHERE username = ? AND status = 'ACTIVE'`: the first active row with the name. */
  function ActiveUserNamed(db: Db, username: string): (r: Option<UserRow>)
    ensures r.Some? ==> r.value in db.users && r.value.username == username && r.value.status == ACTIVE
    ensures r.None? <==> forall u :: u in db.users ==> !(u.username == username && u.status == ACTIVE)
  {
    FirstOf(db.users, UsernameStatus, (username, ACTIVE))
  }

  /**
   * Login: a missing or empty name or password is 400; an unknown name, an
   * inactive account, a row that cannot be scanned (a NULL name) and a
   * wrong password are all the same 401; otherwise the session, whose user
   * has the hash blanked.
   */
  method Login(db: Db, body: map<string, JsonValue>, checkPassword: (string, string) -> bool, now: int)
    returns (status: Status, session: Option<Session>)
    ensures status == BadRequest <==>
      RequiredString(body, "ten_dang_nhap").None? || RequiredString(body, "mat_khau").None?
    ensures status == Unauthorized <==>
      RequiredString(body, "ten_dang_nhap").Some? && RequiredString(body, "mat_khau").Some?
      && (ActiveUserNamed(db, RequiredString(body, "ten_dang_nhap").value).None?
          || !NameScans(ActiveUserNamed(db, RequiredString(body, "ten_dang_nhap").value).value)
          || !checkPassword(RequiredString(body, "mat_khau").value, ActiveUserNamed(db, RequiredString(body, "ten_dang_nhap").value).value.password))
    ensures status == OK || status == BadRequest || status == Unauthorized
    ensures status != OK <==> session.None?
    ensures session.Some? ==>
      var u := ActiveUserNamed(db, RequiredString(body, "ten_dang_nhap").value).value;
      session.value == Session(u.(password := ""), Claims(u.userId, u.username, u.role),
                               AccessTokenValidity(now), RefreshTokenValidity(now))
  {
    session := None;
    var username := RequiredString(body, "ten_dang_nhap");
    var password := RequiredString(body, "mat_khau");
    if username.None? || password.None? {
      return BadRequest, session;
    }
    var user := ActiveUserNamed(db, username.value);
    if user.None? || !NameScans(user.value) {
      return Unauthorized, session;
    }
    if !checkPassword(password.value, user.value.password) {
      return Unauthorized, session;
    }
    var u := user.value;
    session := Some(Session(u.(password := ""), Claims(u.userId, u.username, u.role),
                            AccessTokenValidity(now), RefreshTokenValidity(now)));
    status := OK;
  }

  /** The answer does not tell an unknown name from a wrong password: both databases give 401. */
  lemma LoginDoesNotRevealAccounts(db: Db, u: UserRow, password: string, checkPassword: (string, string) -> bool)
    requires u.status == ACTIVE && u.username != "" && password != ""
    requires !checkPassword(password, u.password)
    requires forall v :: v in db.users ==> v.username != u.username
    ensures ActiveUserNamed(db, u.username).None?
    ensures ActiveUserNamed(db.(users := [u] + db.users), u.username) == Some(u)
    ensures !checkPassword(password, ActiveUserNamed(db.(users := [u] + db.users), u.username).value.password)
  {
    var db' := db.(users := [u] + db.users);
    assert FirstIndexOf(db'.users, UsernameStatus, (u.username, ACTIVE)) == Some(0);
  }

  // ---------------------------------------------------------------------
  // Register
  // ---------------------------------------------------------------------

  /** No two [USER] rows share a user name. */
  predicate UniqueUsernames(users: seq<UserRow>)
  {
    forall i, j :: 0 <= i < |users| && 0 <= j < |users| && users[i].username == users[j].username ==> i == j
  }

  /** The fields of a registration request, None when binding fails. */
  datatype Registration = Registration(hoTen: string, username: string, password: string, email: string, phone: string)

  function BindRegistration(body: map<string, JsonValue>): (r: Option<Registration>)
    ensures r.Some? <==>
      RequiredString(body, "ho_ten").Some? && RequiredString(body, "ten_dang_nhap").Some? && RequiredString(body, "mat_khau").Some?
      && OptionalString(body, "email").Some? && OptionalString(body, "so_dien_thoai").Some?
    ensures r.Some? ==> r.value.hoTen != "" && r.value.username != "" && r.value.password != ""
  {
    var hoTen := RequiredString(body, "ho_ten");
    var username := RequiredString(body, "ten_dang_nhap");
    var password := RequiredString(body, "mat_khau");
    var email := OptionalString(body, "email");
    var phone := OptionalString(body, "so_dien_thoai");
    if hoTen.None? || username.None? || password.None? || email.None? || phone.None? then None
    else Some(Registration(hoTen.value, username.value, password.value, email.value, phone.value))
  }

  /** A string bound as a nullable column: "" as NULL. */
  function NullIfEmpty(s: string): (c: Cell)
    ensures c.Null? <==> s == ""
    ensures c.Text? ==> c.text == s
  {
    if s == "" then Null else Text(s)
  }

  /** The account a registration creates: an active customer. */
  function NewCustomerUser(id: string, r: Registration, hash: string): (u: UserRow)
    ensures u.userId == id && u.username == r.username && u.password == hash
    ensures u.status == ACTIVE && u.role == CUSTOMER
    ensures u.email == NullIfEmpty(r.email) && u.soDienThoai == NullIfEmpty(r.phone) && u.hoTen == Text(r.hoTen)
  {
    UserRow(id, Text(r.hoTen), NullIfEmpty(r.phone), NullIfEmpty(r.email), r.username, hash, ACTIVE, CUSTOMER)
  }

  predicate UsernameTaken(users: seq<UserRow>, username: string)
  {
    exists u :: u in users && u.username == username
  }

  predicate EmailTaken(users: seq<UserRow>, email: string)
  {
    exists u :: u in users && u.email == Text(email)
  }

  /** Appending a row whose name and address nobody holds keeps both unique. */
  lemma {:induction false} AppendKeepsUnique(users: seq<UserRow>, u: UserRow)
    requires UniqueUsernames(users) && UniqueEmails(users)
    requires !UsernameTaken(users, u.username)
    requires u.email.Text? ==> !EmailTaken(users, u.email.text)
    ensures UniqueUsernames(users + [u]) && UniqueEmails(users + [u])
  {
    var users' := users + [u];
    forall i, j | 0 <= i < |users'| && 0 <= j < |users'| && users'[i].username == users'[j].username
      ensures i == j
    {
      if i < |users| { assert users'[i] == users[i] && users[i] in users; }
      if j < |users| { assert users'[j] == users[j] && users[j] in users; }
    }
    forall i, j | 0 <= i < |users'| && 0 <= j < |users'| && users'[i].email.Text? && users'[i].email == users'[j].email
      ensures users'[i].userId == users'[j].userId
    {
      if i < |users| { assert users'[i] == users[i] && users[i] in users; }
      if j < |users| { assert users'[j] == users[j] && users[j] in users; }
    }
  }

  /**
   * Register: binding (400), the e-mail check on a non-empty address
   * (400), a taken name (409), a taken non-empty address (409), a failed
   * hash (500); otherwise an active CUSTOMER user and an empty CUSTOMER
   * row are added together. Names and addresses stay unique.
   */
  method Register(db: Db, body: map<string, JsonValue>, hash: Option<string>, newId: string) returns (status: Status, db': Db)
    ensures BindRegistration(body).None? ==> status == BadRequest
    ensures BindRegistration(body).Some? && BindRegistration(body).value.email != "" && !ValidateEmail(BindRegistration(body).value.email)
            ==> status == BadRequest
    ensures status == Conflict <==>
      BindRegistration(body).Some?
      && (BindRegistration(body).value.email == "" || ValidateEmail(BindRegistration(body).value.email))
      && (UsernameTaken(db.users, BindRegistration(body).value.username)
          || (BindRegistration(body).value.email != "" && EmailTaken(db.users, BindRegistration(body).value.email)))
    ensures status == Created <==>
      BindRegistration(body).Some?
      && (BindRegistration(body).value.email == "" || ValidateEmail(BindRegistration(body).value.email))
      && !UsernameTaken(db.users, BindRegistration(body).value.username)
      && !(BindRegistration(body).value.email != "" && EmailTaken(db.users, BindRegistration(body).value.email))
      && hash.Some?
    ensures (BindRegistration(body).Some?
             && (BindRegistration(body).value.email == "" || ValidateEmail(BindRegistration(body).value.email))
             && !UsernameTaken(db.users, BindRegistration(body).value.username)
             && !(BindRegistration(body).value.email != "" && EmailTaken(db.users, BindRegistration(body).value.email))
             && hash.None?) ==> status == InternalError
    ensures status != Created ==> db' == db
    ensures status == Created ==>
      db' == db.(users := db.users + [NewCustomerUser(newId, BindRegistration(body).value, hash.value)],
                 customers := db.customers + [CustomerRow(newId, Null, Null, Null, Null)])
    ensures UniqueUsernames(db.users) && UniqueEmails(db.users) ==> UniqueUsernames(db'.users) && UniqueEmails(db'.users)
  {
    db' := db;
    var req := BindRegistration(body);
    if req.None? {
      return BadRequest, db';
    }
    var r := req.value;
    if r.email != "" && !ValidateEmail(r.email) {
      return BadRequest, db';
    }
    if UsernameTaken(db.users, r.username) {
      return Conflict, db';
    }
    if r.email != "" && EmailTaken(db.users, r.email) {
      return Conflict, db';
    }
    if hash.None? {
      return InternalError, db';
    }
    var u := NewCustomerUser(newId, r, hash.value);
    if UniqueUsernames(db.users) && UniqueEmails(db.users) {
      AppendKeepsUnique(db.users, u);
    }
    var tx := db;
    tx := tx.(users := tx.users + [u]);
    tx := tx.(customers := tx.customers + [CustomerRow(newId, Null, Null, Null, Null)]);
    db' := tx;
    status := Created;
  }

  // ---------------------------------------------------------------------
  // ForgotPassword
  // ---------------------------------------------------------------------

  /** How long a reset code lives: one hour. */
  const RESET_CODE_LIFETIME := 3600

  /** An unused code of the user that has not expired at `now`. */
  predicate LiveCode(r: ResetRow, userId: string, now: int)
  {
    r.userId == userId && !r.used && r.expiresAt > now
  }

  function ActiveEmailStatus(u: UserRow): (Cell, string) { (u.email, u.status) }

  /** `... FROM [USER] WHERE Email = ? AND TrangThai = 'ACTIVE'`: the first active row with the address. */
  function ActiveUserWithEmail(db: Db, email: string): (r: Option<UserRow>)
    ensures r.Some? ==> r.value in db.users && r.value.email == Text(email) && r.value.status == ACTIVE
    ensures r.None? <==> forall u :: u in db.users ==> !(u.email == Text(email) && u.status == ACTIVE)
  {
    FirstOf(db.users, ActiveEmailStatus, (Text(email), ACTIVE))
  }

  function ResetLiveKey(now: int): ResetRow -> (string, bool, bool)
  {
    (r: ResetRow) => (r.userId, r.used, r.expiresAt > now)
  }

  /**
   * ForgotPassword: a missing or empty address and a rejected address are
   * 400; an address of no active user, or of one whose row cannot be
   * scanned (a NULL name), is 200 with nothing written and no code;
   * otherwise every live code of the user is marked used and a new
   * code, valid for one hour, is added and returned.
   */
  method ForgotPassword(db: Db, body: map<string, JsonValue>, now: int, nanos: int,
                        codeBytes: seq<byte>, idBytes: seq<byte>)
    returns (status: Status, db': Db, code: Option<string>)
    requires |codeBytes| == 3 && |idBytes| == 4
    ensures status == BadRequest <==>
      RequiredString(body, "email").None? || !ValidateEmail(RequiredString(body, "email").value)
    ensures status == OK <==> status != BadRequest
    ensures (status == OK && (ActiveUserWithEmail(db, RequiredString(body, "email").value).None?
      || !NameScans(ActiveUserWithEmail(db, RequiredString(body, "email").value).value)))
      ==> db' == db && code.None?
    ensures code.Some? <==> status == OK && ActiveUserWithEmail(db, RequiredString(body, "email").value).Some?
                            && NameScans(ActiveUserWithEmail(db, RequiredString(body, "email").value).value)
    ensures status != OK ==> db' == db && code.None?
    ensures code.Some? ==>
      var u := ActiveUserWithEmail(db, RequiredString(body, "email").value).value;
      && code.value == ResetCode(codeBytes)
      && db' == db.(resets := db'.resets)
      && |db'.resets| == |db.resets| + 1
      && db'.resets[|db.resets|] == ResetRow(GenerateKindID(PasswordReset, nanos, idBytes), u.userId,
                                             RequiredString(body, "email").value, code.value, false, now + RESET_CODE_LIFETIME)
      && (forall i :: 0 <= i < |db.resets| ==>
            db'.resets[i] == if LiveCode(db.resets[i], u.userId, now) then db.resets[i].(used := true) else db.resets[i])
      && (forall i :: 0 <= i < |db.resets| ==> !LiveCode(db'.resets[i], u.userId, now))
      && LiveCode(db'.resets[|db.resets|], u.userId, now)
  {
    db' := db;
    code := None;
    var email := RequiredString(body, "email");
    if email.None? || !ValidateEmail(email.value) {
      return BadRequest, db', code;
    }
    var user := ActiveUserWithEmail(db, email.value);
    if user.None? || !NameScans(user.value) {
      return OK, db', code;
    }
    var resetCode := GenerateResetCode(codeBytes);
    var resetId := GenerateKindID(PasswordReset, nanos, idBytes);
    var uid := user.value.userId;
    var tx := db;
    var rows := UpdateWhere(tx.resets, ResetLiveKey(now), (uid, false, true), (r: ResetRow) => r.(used := true));
    tx := tx.(resets := rows + [ResetRow(resetId, uid, email.value, resetCode, false, now + RESET_CODE_LIFETIME)]);
    db' := tx;
    code := Some(resetCode);
    status := OK;
  }

  // ---------------------------------------------------------------------
  // ResetPassword
  // ---------------------------------------------------------------------

  /** The join of the reset lookup: address and code match, the code is live and its user is active. */
  predicate RedeemableCode(db: Db, r: ResetRow, email: string, code: string, now: int)
  {
    r.email == email && r.code == code && !r.used && r.expiresAt > now
    && exists u :: u in db.users && u.userId == r.userId && u.status == ACTIVE
  }

  /** The checks made before the lookup, None when they pass. */
  function ResetRequestCheck(body: map<string, JsonValue>): (s: Option<Status>)
    ensures s.Some? ==> s.value == BadRequest
    ensures s.None? <==>
      RequiredString(body, "email").Some? && RequiredString(body, "reset_code").Some? && RequiredString(body, "new_password").Some?
      && ValidateEmail(RequiredString(body, "email").value) && Utf8Length(RequiredString(body, "new_password").value) >= 6
  {
    var email := RequiredString(body, "email");
    var code := RequiredString(body, "reset_code");
    var password := RequiredString(body, "new_password");
    if email.None? || code.None? || password.None? then Some(BadRequest)
    else if !ValidateEmail(email.value) then Some(BadRequest)
    else if Utf8Length(password.value) < 6 then Some(BadRequest)
    else None
  }

  function RedeemKey(db: Db, email: string, code: string, now: int): ResetRow -> bool
  {
    (r: ResetRow) => RedeemableCode(db, r, email, code, now)
  }

  function ResetRowId(r: ResetRow): string { r.id }

  /**
   * ResetPassword: the request checks (400), no redeemable code (400), a
   * failed hash (500); otherwise, in one transaction, the user's password
   * is replaced and the code is marked used, so it cannot be redeemed again.
   */
  method ResetPassword(db: Db, body: map<string, JsonValue>, now: int, hash: Option<string>) returns (status: Status, db': Db)
    ensures ResetRequestCheck(body).Some? ==> status == BadRequest
    ensures status == OK ==> ResetRequestCheck(body).None? && hash.Some?
    ensures status != OK ==> db' == db
    ensures status == OK ==>
      var k := FirstIndexOf(db.resets, RedeemKey(db, RequiredString(body, "email").value, RequiredString(body, "reset_code").value, now), true);
      && k.Some?
      && db' == db.(users := WithPassword(db.users, db.resets[k.value].userId, hash.value), resets := db'.resets)
      && |db'.resets| == |db.resets|
      && (forall i :: 0 <= i < |db.resets| ==>
            db'.resets[i] == if db.resets[i].id == db.resets[k.value].id then db.resets[i].(used := true) else db.resets[i])
      && (forall r :: r in db'.resets && r.id == db.resets[k.value].id ==> r.used)
    ensures ResetRequestCheck(body).None?
            && !(exists r :: r in db.resets && RedeemableCode(db, r, RequiredString(body, "email").value, RequiredString(body, "reset_code").value, now))
            ==> status == BadRequest
    ensures ResetRequestCheck(body).None? && hash.None?
            && (exists r :: r in db.resets && RedeemableCode(db, r, RequiredString(body, "email").value, RequiredString(body, "reset_code").value, now))
            ==> status == InternalError
    ensures ResetRequestCheck(body).None? && hash.Some?
            && (exists r :: r in db.resets && RedeemableCode(db, r, RequiredString(body, "email").value, RequiredString(body, "reset_code").value, now))
            ==> status == OK
  {
    db' := db;
    var check := ResetRequestCheck(body);
    if check.Some? {
      return check.value, db';
    }
    var email := RequiredString(body, "email").value;
    var code := RequiredString(body, "reset_code").value;
    var k := FindFirst(db.resets, RedeemKey(db, email, code, now), true);
    if k.None? {
      return BadRequest, db';
    }
    var record := db.resets[k.value];
    if hash.None? {
      return InternalError, db';
    }
    var tx := db;
    tx := tx.(users := WithPassword(tx.users, record.userId, hash.value));
    var rows := UpdateWhere(tx.resets, ResetRowId, record.id, (r: ResetRow) => r.(used := true));
    tx := tx.(resets := rows);
    db' := tx;
    status := OK;
  }

  /** RefreshToken is not implemented: it always answers 501 and changes nothing. */
  method RefreshToken(db: Db) returns (status: Status, db': Db)
    ensures status == NotImplemented && db' == db
  {
    return NotImplemented, db;
  }

  // ---------------------------------------------------------------------
  // getUserType
  // ---------------------------------------------------------------------

  /** The order in which the role tables are probed. */
  const PROBE_ORDER := [CUSTOMER, DOCTOR, RECEPTIONIST, ACCOUNTANT, CLINIC_MANAGER, OPERATION_MANAGER]

  const UNKNOWN := "UNKNOWN"

  /** The first of the roles whose table holds the user, UNKNOWN when none does. */
  function FirstRoleHeld(db: Db, userId: string, roles: seq<string>): (t: string)
    ensures t == UNKNOWN || (t in roles && InRoleTable(db, t, userId))
  {
    if roles == [] then UNKNOWN
    else if InRoleTable(db, roles[0], userId) then roles[0]
    else FirstRoleHeld(db, userId, roles[1..])
  }

  /**
   * getUserType: probe the tables in order and answer the first hit;
   * UNKNOWN when the user is in none of them.
   */
  method GetUserType(db: Db, userId: string) returns (t: string)
    ensures t == FirstRoleHeld(db, userId, PROBE_ORDER)
  {
    var i := 0;
    while i < |PROBE_ORDER|
      invariant 0 <= i <= |PROBE_ORDER|
      invariant FirstRoleHeld(db, userId, PROBE_ORDER) == FirstRoleHeld(db, userId, PROBE_ORDER[i..])
    {
      var found := InRoleTable(db, PROBE_ORDER[i], userId);
      if found {
        return PROBE_ORDER[i];
      }
      i := i + 1;
    }
    t := UNKNOWN;
  }

  /**
   * The probe's answer is a role the user holds with no earlier role held,
   * or UNKNOWN exactly when they hold none of the six; a customer is
   * answered CUSTOMER whatever else they are.
   */
  lemma {:induction false} UserTypePrecedence(db: Db, userId: string, roles: seq<string>)
    requires UNKNOWN !in roles
    ensures FirstRoleHeld(db, userId, roles) == UNKNOWN <==> forall r :: r in roles ==> !InRoleTable(db, r, userId)
    ensures FirstRoleHeld(db, userId, roles) != UNKNOWN ==>
      exists k :: (0 <= k < |roles| && roles[k] == FirstRoleHeld(db, userId, roles) && InRoleTable(db, roles[k], userId)
                   && forall j :: 0 <= j < k ==> !InRoleTable(db, roles[j], userId))
    ensures |roles| > 0 && InRoleTable(db, roles[0], userId) ==> FirstRoleHeld(db, userId, roles) == roles[0]
  {
    if roles != [] && !InRoleTable(db, roles[0], userId) {
      UserTypePrecedence(db, userId, roles[1..]);
      if FirstRoleHeld(db, userId, roles) != UNKNOWN {
        var k :| 0 <= k < |roles[1..]| && roles[1..][k] == FirstRoleHeld(db, userId, roles[1..]) && InRoleTable(db, roles[1..][k], userId)
                 && forall j :: 0 <= j < k ==> !InRoleTable(db, roles[1..][j], userId);
        assert roles[k + 1] == roles[1..][k];
        forall j | 0 <= j < k + 1 ensures !InRoleTable(db, roles[j], userId) {
          if j > 0 { assert roles[j] == roles[1..][j - 1]; }
        }
      }
    }
  }
}
