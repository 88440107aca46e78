/**
 * Session tokens (utils/jwt/jwt.go): the claims a token carries, how long
 * they are valid, and the startup scan that loads the signing key.  Signing
 * and signature checking belong to the JWT library and are left abstract.
 */
module Tokens {

  import opened Wrappers
  import opened Text

  const Issuer := "house-system-backend"
  const UserAudience := "user"
  const AdminAudience := "admin"

  /** consts.ThreeDays, in seconds. */
  const TokenLifetime: int := 3 * 24 * 3600

  /** The standard claims the service fills in.  `id` carries the subject:
      a phone number, or "admin" for the administrator. */
  datatype Claims = Claims(expiresAt: int, audience: string, issuedAt: int, issuer: string, id: string)

  /** GenerateJWT's claim set for a token issued at Unix time `now`. */
  function GenerateJWT(phone: string, audience: string, now: int): (c: Claims)
    ensures c.expiresAt - c.issuedAt == TokenLifetime && c.issuedAt == now
    ensures c.audience == audience && c.id == phone && c.issuer == Issuer
  {
    Claims(now + TokenLifetime, audience, now, Issuer, phone)
  }

  /** The JWT library's time check at Unix time `t`: a zero claim is not
      checked, otherwise the token must be issued already and not expired. */
  predicate ValidAt(c: Claims, t: int)
  {
    (c.expiresAt == 0 || t <= c.expiresAt) && (c.issuedAt == 0 || c.issuedAt <= t)
  }

  /** A token issued after the epoch is accepted exactly during the three
      days that follow its issue. */
  lemma GeneratedTokenLifetime(phone: string, audience: string, now: int, t: int)
    requires now > 0
    ensures ValidAt(GenerateJWT(phone, audience, now), t) <==> now <= t <= now + TokenLifetime
  {
  }

  const KeyLinePrefix := "JWTKEY="
  /** The prefix InitJWTKey trims; it differs from KeyLinePrefix in case. */
  const TrimmedKeyPrefix := "JWTKey="

  datatype StartupError = KeyFileUnopenable | KeyFileUnreadable | EmptyKey

  /** A line that starts with "JWTKEY=" never starts with "JWTKey=", so
      trimming leaves it whole: the key is the entire line. */
  lemma TrimLeavesKeyLine(line: string)
    requires HasPrefix(line, KeyLinePrefix)
    ensures TrimPrefix(line, TrimmedKeyPrefix) == line
  {
    assert line[4] == 'E';
  }

  /** InitJWTKey: scans the key file for the first line starting with
      "JWTKEY=" and keeps that whole line as the key.  Every error is fatal
      at startup. */
  method InitJWTKey(file: LineFile) returns (r: Result<string, StartupError>)
    ensures file.OpenFailed? ==> r == Err(KeyFileUnopenable)
    ensures file.Lines? ==>
      match FirstWithPrefix(file.lines, KeyLinePrefix)
      case Some(k) => r == Ok(file.lines[k])
      case None => r == Err(if file.readError then KeyFileUnreadable else EmptyKey)
    ensures r.Ok? ==> r.value != "" && HasPrefix(r.value, KeyLinePrefix)
  {
    if file.OpenFailed? {
      return Err(KeyFileUnopenable);
    }
    var lines := file.lines;
    var key := "";
    var i := 0;
    while i < |lines|
      invariant 0 <= i <= |lines|
      invariant key == ""
      invariant forall j :: 0 <= j < i ==> !HasPrefix(lines[j], KeyLinePrefix)
    {
      if HasPrefix(lines[i], KeyLinePrefix) {
        TrimLeavesKeyLine(lines[i]);
        key := TrimPrefix(lines[i], TrimmedKeyPrefix);
        break;
      }
      i := i + 1;
    }
    // The scanner only reports its error when the loop ran out of lines.
    if i == |lines| && file.readError {
      return Err(KeyFileUnreadable);
    }
    if key == "" {
      return Err(EmptyKey);
    }
    r := Ok(key);
  }

  /** The loader as evidently intended (and as getAdminPassword in
      handler/admin.go does it): the key is what follows "JWTKEY=" on the
      first such line, and an empty value is refused. */
  function IntendedJWTKey(file: LineFile): (r: Result<string, StartupError>)
    ensures file.OpenFailed? ==> r == Err(KeyFileUnopenable)
    ensures r.Ok? <==>
              file.Lines? && FirstWithPrefix(file.lines, KeyLinePrefix).Some?
              && file.lines[FirstWithPrefix(file.lines, KeyLinePrefix).value] != KeyLinePrefix
    ensures r.Ok? ==>
              r.value != "" && file.lines[FirstWithPrefix(file.lines, KeyLinePrefix).value] == KeyLinePrefix + r.value
    ensures file.Lines? && FirstWithPrefix(file.lines, KeyLinePrefix).None? ==>
              r == Err(if file.readError then KeyFileUnreadable else EmptyKey)
  {
    match file
    case OpenFailed => Err(KeyFileUnopenable)
    case Lines(lines, readError) =>
      match FirstWithPrefix(lines, KeyLinePrefix)
      case None => Err(if readError then KeyFileUnreadable else EmptyKey)
      case Some(k) =>
        var key := TrimPrefix(lines[k], KeyLinePrefix);
        if key == "" then Err(EmptyKey) else Ok(key)
  }

  /** For a file whose only line is "JWTKEY=" + value: InitJWTKey (by its
      contract) loads the whole line, prefix included, so even an empty
      value passes; the intended loader yields the value and refuses an
      empty one. */
  lemma KeyLineKeptWhole(value: string)
    ensures FirstWithPrefix([KeyLinePrefix + value], KeyLinePrefix) == Some(0)
    ensures TrimPrefix(KeyLinePrefix + value, TrimmedKeyPrefix) == KeyLinePrefix + value
    ensures value == "" ==> IntendedJWTKey(Lines([KeyLinePrefix + value], false)) == Err(EmptyKey)
    ensures value != "" ==> IntendedJWTKey(Lines([KeyLinePrefix + value], false)) == Ok(value)
  {
    var line := KeyLinePrefix + value;
    assert line[..|KeyLinePrefix|] == KeyLinePrefix;
    TrimLeavesKeyLine(line);
    assert line[|KeyLinePrefix|..] == value;
  }
}
