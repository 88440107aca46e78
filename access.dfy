/**
 * The access-control chain: the JWTAuth middleware (middleware/userMiddle.go)
 * that admits a request and records its subject in the request context,
 * GetPhoneFromJWT (utils/jwt/get.go) that resolves the subject, and the two
 * handler-side guards CheckUser (handler/user.go) and CheckAdmin
 * (handler/admin.go).
 */
module Access {

  import opened Wrappers
  import opened Text
  import opened Tokens
  import opened Schema

  /** What the JWT library makes of a token string once it has checked the
      signature against the process key: the claims, or a failure. */
  datatype Parse = Parsed(claims: Claims) | Malformed

  /** The request context's string values, as `c.Set` and `c.GetString` see them. */
  type Context = map<string, string>

  const PhoneKey := "phone"
  const AdminSubject := "admin"

  /** Not an errno: the router's recovery middleware answers a handler
      panic with HTTP status 500 and an empty body. */
  const RecoveredPanic: int := 500

  datatype Gate = Rejected(errno: int) | Admitted(context: Context)

  /** JWTAuth(audience): the middleware of one route group.  `header` is the
      Authorization header, `now` the Unix time, `parse` the library's parse.
      A header shorter than "Bearer " makes the slice panic. */
  function JWTAuth(audience: string, header: string, context: Context, now: int,
                   parse: string -> Parse): (r: Gate)
    ensures header == "" ==> r == Rejected(40050)
    ensures 0 < |header| < 7 ==> r == Rejected(RecoveredPanic)
    ensures |header| >= 7 && (parse(header[7..]).Malformed? || !ValidAt(parse(header[7..]).claims, now)) ==>
              r == Rejected(50050)
    ensures r.Admitted? <==>
              |header| >= 7 && parse(header[7..]).Parsed? && ValidAt(parse(header[7..]).claims, now)
              && parse(header[7..]).claims.audience == audience
    ensures (|header| >= 7 && parse(header[7..]).Parsed? && ValidAt(parse(header[7..]).claims, now)
             && parse(header[7..]).claims.audience != audience) ==> r == Rejected(40150)
    ensures r.Admitted? ==> r.context == context[PhoneKey := parse(header[7..]).claims.id]
    ensures r.Rejected? ==> r.errno in {40050, 50050, 40150, RecoveredPanic}
  {
    if header == "" then Rejected(40050)
    else if |header| < 7 then Rejected(RecoveredPanic)
    else
      // Seven characters are dropped whatever they are; "Bearer " is not checked.
      var token := header[7..];
      match parse(token)
      case Malformed => Rejected(50050)
      case Parsed(claims) =>
        if !ValidAt(claims, now) then Rejected(50050)
        else if claims.audience != audience then Rejected(40150)
        else Admitted(context[PhoneKey := claims.id])
  }

  /** The first seven characters of the header are never inspected. */
  lemma SchemeIsNotChecked(audience: string, scheme1: string, scheme2: string, token: string,
                           context: Context, now: int, parse: string -> Parse)
    requires |scheme1| == 7 && |scheme2| == 7
    ensures JWTAuth(audience, scheme1 + token, context, now, parse) == JWTAuth(audience, scheme2 + token, context, now, parse)
  {
    assert (scheme1 + token)[7..] == token;
    assert (scheme2 + token)[7..] == token;
  }

  /** The two audiences are disjoint: a header admitted to the user routes is
      refused on the admin routes with 40150, and the other way round. */
  lemma AudiencesAreDisjoint(header: string, context: Context, now: int, parse: string -> Parse)
    ensures JWTAuth(UserAudience, header, context, now, parse).Admitted? ==>
              JWTAuth(AdminAudience, header, context, now, parse) == Rejected(40150)
    ensures JWTAuth(AdminAudience, header, context, now, parse).Admitted? ==>
              JWTAuth(UserAudience, header, context, now, parse) == Rejected(40150)
  {
  }

  /** An expired token is refused with 50050 whatever its audience. */
  lemma ExpiredTokenRefused(audience: string, header: string, claims: Claims, context: Context, now: int,
                            parse: string -> Parse)
    requires |header| >= 7 && parse(header[7..]) == Parsed(claims)
    requires claims.expiresAt != 0 && now > claims.expiresAt
    ensures JWTAuth(audience, header, context, now, parse) == Rejected(50050)
  {
  }

  /** Why identity resolution failed: the store's own "record not found",
      another store failure, or the handler-defined "user not found". */
  datatype ResolveError = RecordNotFound | StoreFailure | UserNotFound

  /** GetPhoneFromJWT's result: the subject with its user row (none for the
      administrator), or the error; on error the phone is "" in the source. */
  datatype Resolution = Resolved(phone: string, user: Option<User>) | Unresolved(error: ResolveError)

  /** `c.GetString("phone")`: the recorded subject, or "" when none is set. */
  function ContextPhone(context: Context): string
  {
    if PhoneKey in context then context[PhoneKey] else ""
  }

  /** GetPhoneFromJWT: the "admin" subject short-circuits without touching
      the store; any other subject is looked up by phone, and `First` already
      fails with "record not found" on a missing row, so the source's own
      "user not found" error never arises. */
  function GetPhoneFromJWT(context: Context, users: UserTable, lookupFails: bool): (r: Resolution)
    ensures ContextPhone(context) == AdminSubject ==> r == Resolved(AdminSubject, None)
    ensures ContextPhone(context) != AdminSubject ==>
              (r.Resolved? <==> !lookupFails && ContextPhone(context) in users)
    ensures r.Resolved? && ContextPhone(context) != AdminSubject ==>
              r.user == Some(users[ContextPhone(context)]) && r.phone == users[ContextPhone(context)].phone
    ensures r.Unresolved? ==> r.error != UserNotFound
  {
    var phone := ContextPhone(context);
    if phone == AdminSubject then Resolved(AdminSubject, None)
    else if lookupFails then Unresolved(StoreFailure)
    else if phone !in users then Unresolved(RecordNotFound)
    else Resolved(users[phone].phone, Some(users[phone]))
  }

  /** CheckUser: None lets the handler go on; otherwise the errno it answers. */
  function CheckUser(caller: Resolution): (r: Option<int>)
    ensures r.None? <==> caller.Resolved?
    ensures r.Some? ==> r.value == (if caller.error == UserNotFound then 40100 else 50005)
  {
    match caller
    case Resolved(_, _) => None
    case Unresolved(e) => if e == UserNotFound then Some(40100) else Some(50005)
  }

  /** CheckAdmin: only the "admin" subject passes; everything else, failed
      resolution included (whose phone is ""), gets 40012.  The source's
      error branch after the subject test cannot be reached. */
  function CheckAdmin(caller: Resolution): (r: Option<int>)
    ensures r.None? <==> caller.Resolved? && caller.phone == AdminSubject
    ensures r.Some? ==> r.value == 40012
  {
    match caller
    case Resolved(phone, _) => if phone == AdminSubject then None else Some(40012)
    case Unresolved(_) => Some(40012)
  }

  /** The administrator passes CheckUser as well, without any user row. */
  lemma AdminPassesBothGuards(context: Context, users: UserTable, lookupFails: bool)
    requires ContextPhone(context) == AdminSubject
    ensures CheckUser(GetPhoneFromJWT(context, users, lookupFails)) == None
    ensures CheckAdmin(GetPhoneFromJWT(context, users, lookupFails)) == None
  {
  }

  /** A subject whose row is missing is reported as a server error (50005),
      not as unauthorized (40100). */
  lemma MissingSubjectIsServerError(context: Context, users: UserTable)
    requires ContextPhone(context) != AdminSubject && ContextPhone(context) !in users
    ensures CheckUser(GetPhoneFromJWT(context, users, false)) == Some(50005)
  {
  }

  /** No stored user can pass CheckAdmin: stored phones are 11 bytes long,
      so a resolved user is never the "admin" subject. */
  lemma StoredUserIsNeverAdmin(context: Context, users: UserTable, lookupFails: bool)
    requires WellFormedUsers(users)
    requires ContextPhone(context) != AdminSubject
    ensures CheckAdmin(GetPhoneFromJWT(context, users, lookupFails)) == Some(40012)
  {
    var phone := ContextPhone(context);
    if !lookupFails && phone in users {
      assert ByteLen(users[phone].phone) == 11;
      assert ByteLen(AdminSubject) == 5;
    }
  }
}
