/** The avatar endpoint: `PUT` validates the body and writes the seed and
    the enabled flag to the user's row, `GET` reads them back. The user
    table is a map from id to the two avatar columns. */
module NounAvatarRoute {
  import opened Wrappers
  import opened Json
  import opened ProtectedRoute

  /** The `noun_avatar_seed` and `noun_avatar_enabled` columns. */
  datatype AvatarRow = AvatarRow(seed: Json, enabled: Option<bool>)

  type Db = map<string, AvatarRow>

  const SeedFields: seq<string> := ["background", "body", "accessory", "head", "glasses"]

  /** Property access on a destructured body or seed: objects have fields,
      other non-null values read every field as `undefined`. */
  function Field(v: Json, k: string): Json {
    if v.JObj? then Get(v.fields, k) else JUndefined
  }

  /** Every seed field is a number. */
  predicate ValidSeed(seed: Json) {
    forall i :: 0 <= i < |SeedFields| ==> Field(seed, SeedFields[i]).JNum?
  }

  function Failure(message: string): Response {
    Response(500, map["error" := JStr(message)])
  }

  /** `PUT`: `body` is `None` when the request body is not JSON. Returns the
      response and the table afterwards; a row that does not exist makes
      the update throw. */
  function HandlePut(db: Db, session: Option<Session>, body: Option<Json>): (r: (Response, Db))
    ensures r.0.status != 200 ==> r.1 == db
    ensures session.None? ==> r.0.status == 401
    ensures session.Some? && MissingUserId(session.value) ==> r.0 == ErrorResponse(400, "User ID is required")
  {
    match WithAuth(session)
    case Err(denied) => (denied, db)
    case Ok(s) =>
      if MissingUserId(s) then (ErrorResponse(400, "User ID is required"), db)
      else if body.None? || Nullish(body.value) then (Failure("Failed to update avatar"), db)
      else
        var seed, enabled := Field(body.value, "seed"), Field(body.value, "enabled");
        if !Truthy(seed) then (ErrorResponse(400, "Seed is required"), db)
        else if !ValidSeed(seed) then (ErrorResponse(400, "Invalid seed structure"), db)
        else
          var flag := Coalesce(enabled, JBool(false));
          var id := s.userId.value;
          if id !in db || !flag.JBool? then (Failure("Failed to update avatar"), db)
          else
            (Response(200, map["seed" := seed, "enabled" := flag]), db[id := AvatarRow(seed, Some(flag.b))])
  }

  /** `GET`. */
  function HandleGet(db: Db, session: Option<Session>): (r: Response)
    ensures session.None? ==> r.status == 401
    ensures session.Some? && MissingUserId(session.value) ==> r == ErrorResponse(400, "User ID is required")
    ensures session.Some? && !MissingUserId(session.value) && session.value.userId.value !in db ==>
      r == ErrorResponse(404, "User not found")
    ensures session.Some? && !MissingUserId(session.value) && session.value.userId.value in db ==>
      var row := db[session.value.userId.value];
      r.status == 200 && r.body == map["seed" := row.seed, "enabled" := JBool(row.enabled.GetOr(false))]
  {
    match WithAuth(session)
    case Err(denied) => denied
    case Ok(s) =>
      if MissingUserId(s) then ErrorResponse(400, "User ID is required")
      else if s.userId.value !in db then ErrorResponse(404, "User not found")
      else
        var row := db[s.userId.value];
        Response(200, map["seed" := row.seed, "enabled" := JBool(row.enabled.GetOr(false))])
  }

  /** A missing user id is answered before the body is looked at. */
  lemma MissingIdIgnoresBody(db: Db, s: Session, b1: Option<Json>, b2: Option<Json>)
    requires MissingUserId(s)
    ensures HandlePut(db, Some(s), b1) == HandlePut(db, Some(s), b2)
  {
  }

  /** The validation answers of `PUT`, none of which writes. */
  lemma PutRejections(db: Db, s: Session, body: Json)
    requires !MissingUserId(s) && !Nullish(body)
    ensures !Truthy(Field(body, "seed")) ==>
      HandlePut(db, Some(s), Some(body)) == (ErrorResponse(400, "Seed is required"), db)
    ensures Truthy(Field(body, "seed")) && !ValidSeed(Field(body, "seed")) ==>
      HandlePut(db, Some(s), Some(body)) == (ErrorResponse(400, "Invalid seed structure"), db)
  {
  }

  /** A successful `PUT` writes only the caller's row: the seed as sent and
      the flag, `false` when it was missing or null; a `GET` afterwards
      returns both. */
  lemma PutThenGet(db: Db, s: Session, body: Json)
    requires !MissingUserId(s)
    requires HandlePut(db, Some(s), Some(body)).0.status == 200
    ensures var db' := HandlePut(db, Some(s), Some(body)).1;
      var id := s.userId.value;
      var flag := if Nullish(Field(body, "enabled")) then JBool(false) else Field(body, "enabled");
      && id in db && ValidSeed(Field(body, "seed"))
      && db' == db[id := AvatarRow(Field(body, "seed"), Some(flag.b))]
      && HandleGet(db', Some(s)).body == map["seed" := Field(body, "seed"), "enabled" := flag]
  {
  }
}
