/**
 * The account handlers of handler/user.go and handler/admin.go as
 * transitions of the users table (a map keyed by phone) that answer with an
 * errno.  Every database call that can fail has its own fault flag; the
 * bcrypt hash of a new password is given as its outcome (None when hashing
 * fails) and bcrypt's comparison as the function `verify(password, hash)`.
 */
module Accounts {

  import opened Wrappers
  import opened Text
  import opened Tokens
  import opened Schema
  import opened Access

  const InviteCode := "invite"
  const MinPasswordBytes := 6
  const PhoneBytes := 11

  /** A transition of the users table with the errno it answers. */
  datatype Step = Step(errno: int, users: UserTable)

  // ---------------------------------------------------------------- register

  datatype RegisterRequest = RegisterRequest(username: string, password: string, phone: string, inviteCode: string)

  /** Binding with `binding:"required"` fails on malformed JSON and on any
      empty field. */
  predicate RegisterBinds(body: Option<RegisterRequest>)
  {
    body.Some? && body.value.username != "" && body.value.password != ""
    && body.value.phone != "" && body.value.inviteCode != ""
  }

  /** The checks UserRegister makes before touching the store, in order:
      binding (40000), the invite code (40001), the field rules (40002). */
  function RegisterGuard(body: Option<RegisterRequest>): (r: Option<int>)
    ensures r.None? <==>
              body.Some? && body.value.inviteCode == InviteCode && body.value.username != ""
              && ByteLen(body.value.password) >= MinPasswordBytes && ByteLen(body.value.phone) == PhoneBytes
    ensures !RegisterBinds(body) ==> r == Some(40000)
    ensures RegisterBinds(body) && body.value.inviteCode != InviteCode ==> r == Some(40001)
    ensures r == Some(40002) <==>
              RegisterBinds(body) && body.value.inviteCode == InviteCode
              && (ByteLen(body.value.password) < MinPasswordBytes || ByteLen(body.value.phone) != PhoneBytes)
  {
    if !RegisterBinds(body) then Some(40000)
    else
      var req := body.value;
      if req.inviteCode != InviteCode then Some(40001)
      else if req.username == "" || ByteLen(req.password) < MinPasswordBytes || ByteLen(req.phone) != PhoneBytes then Some(40002)
      else None
  }

  /** The row UserRegister inserts. */
  function NewUser(req: RegisterRequest, hash: string): User
  {
    User(req.username, hash, req.phone, "user")
  }

  /** UserRegister: the guard, the phone lookup (50000 on failure, 40003 when
      taken), hashing (50001) and the insert (50002). */
  function UserRegister(users: UserTable, body: Option<RegisterRequest>, queryFails: bool,
                        hash: Option<string>, insertFails: bool): (r: Step)
    ensures RegisterGuard(body).Some? ==> r == Step(RegisterGuard(body).value, users)
    ensures RegisterGuard(body).None? && queryFails ==> r == Step(50000, users)
    ensures RegisterGuard(body).None? && !queryFails && body.value.phone in users ==> r == Step(40003, users)
    ensures RegisterGuard(body).None? && !queryFails && body.value.phone !in users && hash.None? ==>
              r == Step(50001, users)
    ensures RegisterGuard(body).None? && !queryFails && body.value.phone !in users && hash.Some? && insertFails ==>
              r == Step(50002, users)
    ensures r.errno == 20000 <==>
              RegisterGuard(body).None? && !queryFails && body.value.phone !in users && hash.Some? && !insertFails
    ensures r.errno == 20000 ==> r.users == users[body.value.phone := NewUser(body.value, hash.value)]
    ensures r.errno != 20000 ==> r.users == users
  {
    match RegisterGuard(body)
    case Some(errno) => Step(errno, users)
    case None =>
      var req := body.value;
      if queryFails then Step(50000, users)
      else if req.phone in users then Step(40003, users)
      else if hash.None? then Step(50001, users)
      else if insertFails then Step(50002, users)
      else Step(20000, users[req.phone := NewUser(req, hash.value)])
  }

  /** Binding already refuses an empty username, so the username test of
      the 40002 rule never decides anything. */
  lemma EmptyUsernameFailsBinding(req: RegisterRequest)
    requires req.username == ""
    ensures RegisterGuard(Some(req)) == Some(40000)
  {
  }

  /** Registration keeps every stored row well formed, and adds exactly one
      row (under the request's phone) when it succeeds. */
  lemma RegisterKeepsUsersWellFormed(users: UserTable, body: Option<RegisterRequest>, queryFails: bool,
                                     hash: Option<string>, insertFails: bool)
    requires WellFormedUsers(users)
    ensures WellFormedUsers(UserRegister(users, body, queryFails, hash, insertFails).users)
    ensures var r := UserRegister(users, body, queryFails, hash, insertFails);
            r.errno == 20000 ==> r.users.Keys == users.Keys + {body.value.phone} && |r.users| == |users| + 1
  {
    var r := UserRegister(users, body, queryFails, hash, insertFails);
    if r.errno == 20000 {
      var req := body.value;
      assert ByteLen(req.phone) == PhoneBytes && req.username != "";
      assert r.users.Keys == users.Keys + {req.phone};
    }
  }

  // ------------------------------------------------------------------- login

  datatype LoginRequest = LoginRequest(phone: string, password: string)

  /** What a successful login answers: the token's claims and the user. */
  datatype LoginReply = LoginReply(token: Claims, phone: string, username: string)

  /** UserLogin: binding (40004), the length rules (40005), the lookup (40006
      when missing, 50003 on failure), the password check (40007), then a
      user token for the request's phone. */
  function UserLogin(users: UserTable, body: Option<LoginRequest>, queryFails: bool,
                     verify: (string, string) -> bool, now: int): (r: Result<LoginReply, int>)
    ensures body.None? || body.value.phone == "" || body.value.password == "" ==> r == Err(40004)
    ensures (body.Some? && body.value.phone != "" && body.value.password != ""
             && (ByteLen(body.value.phone) != PhoneBytes || ByteLen(body.value.password) < MinPasswordBytes)) ==>
              r == Err(40005)
    ensures (body.Some? && ByteLen(body.value.phone) == PhoneBytes && ByteLen(body.value.password) >= MinPasswordBytes
             && queryFails) ==> r == Err(50003)
    ensures r.Ok? <==>
              body.Some? && ByteLen(body.value.phone) == PhoneBytes && ByteLen(body.value.password) >= MinPasswordBytes
              && !queryFails && body.value.phone in users
              && verify(body.value.password, users[body.value.phone].password)
    ensures r.Ok? ==>
              var u := users[body.value.phone];
              r.value == LoginReply(GenerateJWT(body.value.phone, UserAudience, now), u.phone, u.username)
    ensures (body.Some? && ByteLen(body.value.phone) == PhoneBytes && ByteLen(body.value.password) >= MinPasswordBytes
             && !queryFails && body.value.phone !in users) ==> r == Err(40006)
    ensures (body.Some? && ByteLen(body.value.phone) == PhoneBytes && ByteLen(body.value.password) >= MinPasswordBytes
             && !queryFails && body.value.phone in users
             && !verify(body.value.password, users[body.value.phone].password)) ==> r == Err(40007)
  {
    if body.None? || body.value.phone == "" || body.value.password == "" then Err(40004)
    else
      var req := body.value;
      if ByteLen(req.phone) != PhoneBytes || ByteLen(req.password) < MinPasswordBytes then Err(40005)
      else if queryFails then Err(50003)
      else if req.phone !in users then Err(40006)
      else
        var u := users[req.phone];
        if !verify(req.password, u.password) then Err(40007)
        else Ok(LoginReply(GenerateJWT(req.phone, UserAudience, now), u.phone, u.username))
  }

  /** After a successful registration the same phone and password log in,
      provided bcrypt accepts the password against its own hash. */
  lemma LoginAfterRegister(users: UserTable, req: RegisterRequest, hash: string,
                           verify: (string, string) -> bool, now: int)
    requires UserRegister(users, Some(req), false, Some(hash), false).errno == 20000
    requires verify(req.password, hash)
    ensures UserLogin(UserRegister(users, Some(req), false, Some(hash), false).users,
                      Some(LoginRequest(req.phone, req.password)), false, verify, now)
            == Ok(LoginReply(GenerateJWT(req.phone, UserAudience, now), req.phone, req.username))
  {
  }

  /** The token a login returns opens the user routes for three days, and
      the subject it records resolves to the user who logged in.  `parse` is
      assumed to give back the claims that were signed. */
  lemma LoginTokenOpensUserRoutes(users: UserTable, req: LoginRequest, verify: (string, string) -> bool,
                                  now: int, t: int, header: string, context: Context, parse: string -> Parse)
    requires WellFormedUsers(users)
    requires now > 0 && now <= t <= now + TokenLifetime
    requires UserLogin(users, Some(req), false, verify, now).Ok?
    requires |header| >= 7 && parse(header[7..]) == Parsed(UserLogin(users, Some(req), false, verify, now).value.token)
    ensures JWTAuth(UserAudience, header, context, t, parse).Admitted?
    ensures var ctx := JWTAuth(UserAudience, header, context, t, parse).context;
            GetPhoneFromJWT(ctx, users, false) == Resolved(req.phone, Some(users[req.phone]))
            && CheckUser(GetPhoneFromJWT(ctx, users, false)).None?
    ensures JWTAuth(AdminAudience, header, context, t, parse) == Rejected(40150)
  {
    var claims := GenerateJWT(req.phone, UserAudience, now);
    GeneratedTokenLifetime(req.phone, UserAudience, now, t);
    var ctx := JWTAuth(UserAudience, header, context, t, parse).context;
    assert ContextPhone(ctx) == req.phone;
    assert ByteLen(AdminSubject) == 5;
  }

  // ------------------------------------------------------------- user info

  /** GetUserInfoByPhone: the path parameter's length is checked before the
      caller is authenticated (40008); then CheckUser; then the lookup (40010
      when missing, 50006 on failure). */
  function GetUserInfoByPhone(phone: string, context: Context, users: UserTable,
                              callerLookupFails: bool, queryFails: bool): (r: Result<User, int>)
    ensures ByteLen(phone) != PhoneBytes ==> r == Err(40008)
    ensures ByteLen(phone) == PhoneBytes && CheckUser(GetPhoneFromJWT(context, users, callerLookupFails)).Some? ==>
              r == Err(CheckUser(GetPhoneFromJWT(context, users, callerLookupFails)).value)
    ensures r.Ok? <==>
              ByteLen(phone) == PhoneBytes && CheckUser(GetPhoneFromJWT(context, users, callerLookupFails)).None?
              && !queryFails && phone in users
    ensures (ByteLen(phone) == PhoneBytes && CheckUser(GetPhoneFromJWT(context, users, callerLookupFails)).None?
             && queryFails) ==> r == Err(50006)
    ensures (ByteLen(phone) == PhoneBytes && CheckUser(GetPhoneFromJWT(context, users, callerLookupFails)).None?
             && !queryFails && phone !in users) ==> r == Err(40010)
    ensures r.Ok? ==> r.value == users[phone]
  {
    if ByteLen(phone) != PhoneBytes then Err(40008)
    else match CheckUser(GetPhoneFromJWT(context, users, callerLookupFails))
      case Some(errno) => Err(errno)
      case None =>
        if queryFails then Err(50006)
        else if phone !in users then Err(40010)
        else Ok(users[phone])
  }

  /** A malformed phone parameter is refused even for a caller with no valid
      identity at all. */
  lemma InfoLengthCheckPrecedesAuth(phone: string, context: Context, users: UserTable, callerLookupFails: bool, queryFails: bool)
    requires ByteLen(phone) != PhoneBytes
    ensures GetUserInfoByPhone(phone, context, users, callerLookupFails, queryFails) == Err(40008)
  {
  }

  // -------------------------------------------------------------- self update

  /** The JSON body of ModifyUserSelf; neither field is required. */
  datatype UpdateRequest = UpdateRequest(username: string, password: string)

  /** The row ModifyUserSelf saves: a new username when one is given, the new
      hash when a password is given, everything else as stored. */
  function PatchUser(user: User, req: UpdateRequest, hash: Option<string>): (u: User)
    requires req.password != "" ==> hash.Some?
    ensures u.username == (if req.username != "" then req.username else user.username)
    ensures u.password == (if req.password != "" then hash.value else user.password)
    ensures u.phone == user.phone && u.role == user.role
  {
    var named := if req.username != "" && req.username != user.username then user.(username := req.username) else user;
    if req.password != "" then named.(password := hash.value) else named
  }

  /** ModifyUserSelf: the admin subject is refused first (40012), then a
      failed resolution (40101 / 50007), a malformed body (40013), a short
      password (40014), a failed hash (50010) and a failed save (50011).  The
      caller's row is patched in a local copy and saved as a whole. */
  method ModifyUserSelf(users: UserTable, context: Context, lookupFails: bool, body: Option<UpdateRequest>,
                        hash: Option<string>, saveFails: bool) returns (errno: int, after: UserTable)
    ensures ContextPhone(context) == AdminSubject ==> errno == 40012 && after == users
    ensures ContextPhone(context) != AdminSubject && GetPhoneFromJWT(context, users, lookupFails).Unresolved? ==>
              errno == 50007 && after == users
    ensures var phone := ContextPhone(context);
            errno == 20000 <==>
              phone != AdminSubject && GetPhoneFromJWT(context, users, lookupFails).Resolved? && body.Some?
              && (body.value.password == "" || (ByteLen(body.value.password) >= MinPasswordBytes && hash.Some?))
              && !saveFails
    ensures var phone := ContextPhone(context);
            phone != AdminSubject && GetPhoneFromJWT(context, users, lookupFails).Resolved? && body.Some?
            && body.value.password != "" && ByteLen(body.value.password) < MinPasswordBytes ==>
              errno == 40014 && after == users
    ensures ContextPhone(context) != AdminSubject && GetPhoneFromJWT(context, users, lookupFails).Resolved?
            && body.None? ==>
              errno == 40013
    ensures ContextPhone(context) != AdminSubject && GetPhoneFromJWT(context, users, lookupFails).Resolved?
            && body.Some? && body.value.password != "" && ByteLen(body.value.password) >= MinPasswordBytes
            && hash.None? ==>
              errno == 50010
    ensures ContextPhone(context) != AdminSubject && GetPhoneFromJWT(context, users, lookupFails).Resolved?
            && body.Some? && (body.value.password == "" || (ByteLen(body.value.password) >= MinPasswordBytes && hash.Some?))
            && saveFails ==>
              errno == 50011
    ensures errno == 20000 ==>
              var phone := ContextPhone(context);
              after == users[phone := PatchUser(users[phone], body.value, hash)]
    ensures errno != 20000 ==> after == users
  {
    after := users;
    var resolution := GetPhoneFromJWT(context, users, lookupFails);
    if ContextPhone(context) == AdminSubject {
      return 40012, users;
    }
    if resolution.Unresolved? {
      errno := if resolution.error == UserNotFound then 40101 else 50007;
      return;
    }
    if body.None? {
      return 40013, users;
    }
    var req := body.value;
    var user := resolution.user.value;
    if req.username != "" && req.username != user.username {
      user := user.(username := req.username);
    }
    if req.password != "" {
      if ByteLen(req.password) < MinPasswordBytes {
        return 40014, users;
      }
      if hash.None? {
        return 50010, users;
      }
      user := user.(password := hash.value);
    }
    if saveFails {
      return 50011, users;
    }
    // Save writes the row back under its primary key: the caller's own row.
    errno, after := 20000, users[ContextPhone(context) := user];
  }

  /** A self update keeps every stored row well formed and touches no other
      row than the caller's. */
  lemma PatchKeepsUsersWellFormed(users: UserTable, phone: string, req: UpdateRequest, hash: Option<string>)
    requires WellFormedUsers(users) && phone in users
    requires req.password != "" ==> hash.Some?
    ensures var after := users[phone := PatchUser(users[phone], req, hash)];
            WellFormedUsers(after) && after.Keys == users.Keys
            && forall p :: p in users && p != phone ==> after[p] == users[p]
  {
  }

  /** After changing the password, the new password logs in and the old
      one no longer does (when bcrypt tells the two apart). */
  lemma LoginAfterPasswordChange(users: UserTable, phone: string, req: UpdateRequest, hash: string,
                                 oldPassword: string, verify: (string, string) -> bool, now: int)
    requires phone in users && ByteLen(phone) == PhoneBytes
    requires ByteLen(req.password) >= MinPasswordBytes && ByteLen(oldPassword) >= MinPasswordBytes
    requires verify(req.password, hash) && !verify(oldPassword, hash)
    ensures var after := users[phone := PatchUser(users[phone], req, Some(hash))];
            UserLogin(after, Some(LoginRequest(phone, req.password)), false, verify, now).Ok?
            && UserLogin(after, Some(LoginRequest(phone, oldPassword)), false, verify, now) == Err(40007)
  {
  }

  // ------------------------------------------------------------ admin login

  const AdminKeyPrefix := "HashedPassword="

  datatype AdminKeyError = AdminKeyUnopenable | AdminKeyUnreadable | AdminKeyEmpty

  /** The administrator's stored hash: the rest of the first line that
      starts with "HashedPassword=", which must not be empty. */
  function AdminKeyOf(file: LineFile): (r: Result<string, AdminKeyError>)
    ensures file.OpenFailed? ==> r == Err(AdminKeyUnopenable)
    ensures r.Ok? <==>
              file.Lines? && FirstWithPrefix(file.lines, AdminKeyPrefix).Some?
              && file.lines[FirstWithPrefix(file.lines, AdminKeyPrefix).value] != AdminKeyPrefix
    ensures r.Ok? ==>
              r.value != "" && file.lines[FirstWithPrefix(file.lines, AdminKeyPrefix).value] == AdminKeyPrefix + r.value
    ensures file.Lines? && FirstWithPrefix(file.lines, AdminKeyPrefix).None? ==>
              r == Err(if file.readError then AdminKeyUnreadable else AdminKeyEmpty)
  {
    match file
    case OpenFailed => Err(AdminKeyUnopenable)
    case Lines(lines, readError) =>
      match FirstWithPrefix(lines, AdminKeyPrefix)
      case None => Err(if readError then AdminKeyUnreadable else AdminKeyEmpty)
      case Some(k) =>
        var key := TrimPrefix(lines[k], AdminKeyPrefix);
        if key == "" then Err(AdminKeyEmpty) else Ok(key)
  }

  /** getAdminPassword: scans the admin file and stops at the first line
      that starts with "HashedPassword=". */
  method GetAdminPassword(file: LineFile) returns (r: Result<string, AdminKeyError>)
    ensures r == AdminKeyOf(file)
  {
    if file.OpenFailed? {
      return Err(AdminKeyUnopenable);
    }
    var lines := file.lines;
    var hashed := "";
    var i := 0;
    while i < |lines|
      invariant 0 <= i <= |lines|
      invariant hashed == ""
      invariant forall j :: 0 <= j < i ==> !HasPrefix(lines[j], AdminKeyPrefix)
    {
      if HasPrefix(lines[i], AdminKeyPrefix) {
        hashed := TrimPrefix(lines[i], AdminKeyPrefix);
        break;
      }
      i := i + 1;
    }
    // The scanner only reports its error when the loop ran out of lines.
    if i == |lines| && file.readError {
      return Err(AdminKeyUnreadable);
    }
    if hashed == "" {
      return Err(AdminKeyEmpty);
    }
    r := Ok(hashed);
  }

  /** A key line with nothing after the prefix counts as no key at all. */
  lemma EmptyAdminKeyRefused(before: seq<string>, after: seq<string>, readError: bool)
    requires forall j :: 0 <= j < |before| ==> !HasPrefix(before[j], AdminKeyPrefix)
    ensures AdminKeyOf(Lines(before + [AdminKeyPrefix] + after, readError)) == Err(AdminKeyEmpty)
  {
    var lines := before + [AdminKeyPrefix] + after;
    assert lines[|before|] == AdminKeyPrefix;
    assert forall j :: 0 <= j < |before| ==> lines[j] == before[j];
    assert FirstWithPrefix(lines, AdminKeyPrefix) == Some(|before|);
  }

  /** AdminLogin: the key file is read first (50010), then the body (40010
      when malformed or empty), then the password check (40011).  Success
      gives a token whose subject and audience are both "admin". */
  method AdminLogin(file: LineFile, body: Option<string>, verify: (string, string) -> bool, now: int)
    returns (errno: int, token: Option<Claims>)
    ensures AdminKeyOf(file).Err? ==> errno == 50010 && token.None?
    ensures AdminKeyOf(file).Ok? && (body.None? || body.value == "") ==> errno == 40010 && token.None?
    ensures errno == 20000 <==> AdminKeyOf(file).Ok? && body.Some? && body.value != "" && verify(body.value, AdminKeyOf(file).value)
    ensures AdminKeyOf(file).Ok? && body.Some? && body.value != "" && !verify(body.value, AdminKeyOf(file).value) ==>
              errno == 40011 && token.None?
    ensures errno == 20000 ==> token == Some(GenerateJWT(AdminSubject, AdminAudience, now))
    ensures errno != 20000 ==> token.None?
  {
    var key := GetAdminPassword(file);
    if key.Err? {
      return 50010, None;
    }
    if body.None? || body.value == "" {
      return 40010, None;
    }
    if !verify(body.value, key.value) {
      return 40011, None;
    }
    errno, token := 20000, Some(GenerateJWT(AdminSubject, AdminAudience, now));
  }

  /** The administrator's token passes CheckAdmin on the admin routes and is
      refused on the user routes. */
  lemma AdminTokenOpensAdminRoutes(now: int, t: int, header: string, context: Context, users: UserTable,
                                   lookupFails: bool, parse: string -> Parse)
    requires now > 0 && now <= t <= now + TokenLifetime
    requires |header| >= 7 && parse(header[7..]) == Parsed(GenerateJWT(AdminSubject, AdminAudience, now))
    ensures JWTAuth(AdminAudience, header, context, t, parse).Admitted?
    ensures CheckAdmin(GetPhoneFromJWT(JWTAuth(AdminAudience, header, context, t, parse).context, users, lookupFails)).None?
    ensures JWTAuth(UserAudience, header, context, t, parse) == Rejected(40150)
  {
    GeneratedTokenLifetime(AdminSubject, AdminAudience, now, t);
  }

  // ----------------------------------------------------------- admin delete

  datatype Removal = Removal(errno: int, users: UserTable, deleted: Option<User>)

  /** AdminRemoveUserByPhone: CheckAdmin, the phone's length (40013), the
      lookup (40010 when missing, 50016 on failure), the delete (50017). */
  function AdminRemoveUserByPhone(users: UserTable, context: Context, lookupFails: bool, phone: string,
                                  queryFails: bool, deleteFails: bool): (r: Removal)
    ensures CheckAdmin(GetPhoneFromJWT(context, users, lookupFails)).Some? ==> r == Removal(40012, users, None)
    ensures CheckAdmin(GetPhoneFromJWT(context, users, lookupFails)).None? && ByteLen(phone) != PhoneBytes ==>
              r == Removal(40013, users, None)
    ensures r.errno == 20000 <==>
              CheckAdmin(GetPhoneFromJWT(context, users, lookupFails)).None? && ByteLen(phone) == PhoneBytes
              && !queryFails && phone in users && !deleteFails
    ensures r.errno == 20000 ==> r.users == users - {phone} && r.deleted == Some(users[phone])
    ensures (CheckAdmin(GetPhoneFromJWT(context, users, lookupFails)).None? && ByteLen(phone) == PhoneBytes
             && queryFails) ==> r == Removal(50016, users, None)
    ensures (CheckAdmin(GetPhoneFromJWT(context, users, lookupFails)).None? && ByteLen(phone) == PhoneBytes
             && !queryFails && phone !in users) ==> r == Removal(40010, users, None)
    ensures (CheckAdmin(GetPhoneFromJWT(context, users, lookupFails)).None? && ByteLen(phone) == PhoneBytes
             && !queryFails && phone in users && deleteFails) ==> r == Removal(50017, users, None)
    ensures r.errno != 20000 ==> r.users == users && r.deleted.None?
  {
    match CheckAdmin(GetPhoneFromJWT(context, users, lookupFails))
    case Some(errno) => Removal(errno, users, None)
    case None =>
      if ByteLen(phone) != PhoneBytes then Removal(40013, users, None)
      else if queryFails then Removal(50016, users, None)
      else if phone !in users then Removal(40010, users, None)
      else if deleteFails then Removal(50017, users, None)
      else Removal(20000, users - {phone}, Some(users[phone]))
  }

  /** A removal takes out the one row and leaves every other row as it was. */
  lemma RemovalTouchesOnlyThatRow(users: UserTable, context: Context, lookupFails: bool, phone: string,
                                  queryFails: bool, deleteFails: bool)
    requires WellFormedUsers(users)
    ensures var r := AdminRemoveUserByPhone(users, context, lookupFails, phone, queryFails, deleteFails);
            WellFormedUsers(r.users) && (r.errno == 20000 ==> phone !in r.users)
    ensures var r := AdminRemoveUserByPhone(users, context, lookupFails, phone, queryFails, deleteFails);
            forall p :: p in users && p != phone ==> p in r.users && r.users[p] == users[p]
  {
  }

  /** A caller holding a user subject can never remove anyone. */
  lemma UsersCannotRemove(users: UserTable, context: Context, lookupFails: bool, phone: string,
                          queryFails: bool, deleteFails: bool)
    requires WellFormedUsers(users) && ContextPhone(context) != AdminSubject
    ensures AdminRemoveUserByPhone(users, context, lookupFails, phone, queryFails, deleteFails) == Removal(40012, users, None)
  {
    StoredUserIsNeverAdmin(context, users, lookupFails);
  }
}
