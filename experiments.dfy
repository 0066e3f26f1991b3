/** The two handlers of the experiments collection: creating an experiment
    (POST) and listing a user's experiments (GET). Each is a validation
    cascade of early returns followed by one database step; the database
    step is a parameter, so that what the handler does with its result is
    modelled and what the database does is not. */
module Experiments {
  import opened Wrappers
  import opened Json
  import opened Schema
  import opened Http
  import Uuid
  import Strings

  const UserIdError := "Valid userId (Supabase auth UID) is required"
  const NameError := "Valid experiment name is required"
  const UuidError := "Invalid UUID format for userId"
  const CreatedMessage := "Experiment created successfully"
  const CreateFailure := "Failed to create experiment"
  const MissingUserIdError := "Missing userId query parameter"
  const ListFailure := "Failed to get experiments"

  /** The values inserted for a new experiment: the owner, the name and the
      description (JSON null when none was given). No other column is set. */
  datatype NewExperiment = NewExperiment(userId: string, name: string, description: Json)

  // ---------------------------------------------------------------- POST

  /** The POST cascade up to the insert: Content-Type, JSON body,
      destructuring, userId, name, then the UUID format of userId. */
  function ValidateCreate(req: Request): (o: Outcome<NewExperiment>)
    ensures o.Reject? ==> o.status == 400
    ensures o.Throws? <==> ReadJsonBody(req) == Proceed(JNull)
    ensures o.Proceed? ==> Uuid.IsUuid(o.value.userId) && o.value.name != ""
    ensures o.Proceed? ==> o.value.description != JNull ==> Truthy(Present(o.value.description))
  {
    match ReadJsonBody(req)
    case Proceed(body) =>
      if !Destructurable(body) then Throws
      else
        var userId := Get(body, "userId");
        var name := Get(body, "name");
        var description := Get(body, "description");
        if !Truthy(userId) || !IsString(userId) then Reject(400, UserIdError)
        else if !Truthy(name) || !IsString(name) then Reject(400, NameError)
        else if !Uuid.IsUuid(userId.value.s) then Reject(400, UuidError)
        else Proceed(NewExperiment(userId.value.s, name.value.s, OrNull(description)))
    case Reject(status, error) => Reject(status, error)
    case Throws => Throws
  }

  /** The whole POST handler, given what the insert returns for the values
      it is called with. An exception (destructuring `null`, a failed
      insert, or reading `.id` of a missing first row) ends in the generic
      500 response. */
  function Create(req: Request, insert: NewExperiment -> DbResult<ExperimentRow>): (resp: Response)
    ensures resp.status == 201 || resp.status == 400 || resp.status == 500
    ensures resp.status == 201 ==>
              resp.body.ExperimentCreated? && resp.body.message == CreatedMessage
              && resp.body.experimentId == resp.body.experiment.id
  {
    match ValidateCreate(req)
    case Reject(status, error) => ErrorResponse(status, error)
    case Throws => ErrorResponse(500, CreateFailure)
    case Proceed(values) =>
      match insert(values)
      case DbError => ErrorResponse(500, CreateFailure)
      case Rows(rows) =>
        if |rows| == 0 then ErrorResponse(500, CreateFailure)
        else Response(201, ExperimentCreated(CreatedMessage, rows[0].id, rows[0]))
  }

  /** A rejected or throwing request never reaches the insert: its response
      is the same whatever the database would do. */
  lemma CreateRejectsBeforeInsert(req: Request, insert1: NewExperiment -> DbResult<ExperimentRow>,
                                  insert2: NewExperiment -> DbResult<ExperimentRow>)
    requires !ValidateCreate(req).Proceed?
    ensures Create(req, insert1) == Create(req, insert2)
    ensures Create(req, insert1).status != 201
  {
  }

  /** The Content-Type error is reported iff the header is absent or lacks
      `application/json`, whatever the body is. */
  lemma CreateContentType(req: Request, insert: NewExperiment -> DbResult<ExperimentRow>)
    ensures Create(req, insert) == ErrorResponse(400, ContentTypeError)
            <==> !ContentTypeOk(req.contentType)
  {
  }

  /** An unparseable body is reported iff the header passed; no field is
      looked at. */
  lemma CreateInvalidJson(req: Request, insert: NewExperiment -> DbResult<ExperimentRow>)
    ensures Create(req, insert) == ErrorResponse(400, InvalidJsonError)
            <==> ContentTypeOk(req.contentType) && req.body.None?
  {
  }

  /** The userId error is reported iff the body parsed and can be
      destructured and its userId is falsy or not a string. */
  lemma CreateUserIdError(req: Request, insert: NewExperiment -> DbResult<ExperimentRow>)
    ensures Create(req, insert) == ErrorResponse(400, UserIdError)
            <==> ContentTypeOk(req.contentType) && req.body.Some? && Destructurable(req.body.value)
                 && !ValidString(Get(req.body.value, "userId"))
  {
  }

  /** The name error is reported iff every earlier check passed and the name
      is falsy or not a string; the UUID format of userId has not been
      looked at yet. */
  lemma CreateNameError(req: Request, insert: NewExperiment -> DbResult<ExperimentRow>)
    ensures Create(req, insert) == ErrorResponse(400, NameError)
            <==> ContentTypeOk(req.contentType) && req.body.Some? && Destructurable(req.body.value)
                 && ValidString(Get(req.body.value, "userId"))
                 && !ValidString(Get(req.body.value, "name"))
  {
  }

  /** The UUID error is reported iff userId and name are non-empty strings
      and userId does not match the UUID pattern. */
  lemma CreateUuidError(req: Request, insert: NewExperiment -> DbResult<ExperimentRow>)
    ensures Create(req, insert) == ErrorResponse(400, UuidError)
            <==> ContentTypeOk(req.contentType) && req.body.Some? && Destructurable(req.body.value)
                 && ValidString(Get(req.body.value, "userId"))
                 && ValidString(Get(req.body.value, "name"))
                 && !Uuid.IsUuid(Get(req.body.value, "userId").value.s)
  {
  }

  /** A malformed userId with a missing name reports the name, not the UUID
      format: the name check comes first. */
  lemma NameCheckedBeforeUuid(insert: NewExperiment -> DbResult<ExperimentRow>)
    ensures Create(Request(Some("application/json"), Some(JObject(map["userId" := JString("not-a-uuid")]))), insert)
            == ErrorResponse(400, NameError)
  {
    assert ContentTypeOk(Some("application/json")) by {
      assert Strings.OccursAt(JsonMediaType, JsonMediaType, 0);
      ContentTypeOkIff(Some(JsonMediaType));
    }
  }

  /** A body that parses to `null` cannot be destructured: the TypeError
      ends in the generic 500 response before any field is checked. */
  lemma CreateNullBody(req: Request, insert: NewExperiment -> DbResult<ExperimentRow>)
    ensures ContentTypeOk(req.contentType) && req.body == Some(JNull) ==>
              Create(req, insert) == ErrorResponse(500, CreateFailure)
  {
  }

  /** The cascade lets a request through iff every check passes, and then
      inserts exactly the submitted userId and name and the description, a
      falsy description becoming null and any other kept as it is. */
  lemma CreateAccepted(req: Request)
    ensures ValidateCreate(req).Proceed? <==>
              ContentTypeOk(req.contentType) && req.body.Some? && Destructurable(req.body.value)
              && ValidString(Get(req.body.value, "userId"))
              && ValidString(Get(req.body.value, "name"))
              && Uuid.IsUuid(Get(req.body.value, "userId").value.s)
    ensures ValidateCreate(req).Proceed? ==>
              var body := req.body.value;
              var values := ValidateCreate(req).value;
              && Present(JString(values.userId)) == Get(body, "userId")
              && Present(JString(values.name)) == Get(body, "name")
              && (Truthy(Get(body, "description")) ==> Present(values.description) == Get(body, "description"))
              && (!Truthy(Get(body, "description")) ==> values.description == JNull)
  {
  }

  /** A request that passes the cascade is answered 201 iff the insert
      returns a row; the response then carries that row and its id. */
  lemma CreateSucceeds(req: Request, insert: NewExperiment -> DbResult<ExperimentRow>)
    ensures ValidateCreate(req).Proceed? ==>
              var db := insert(ValidateCreate(req).value);
              && (Create(req, insert).status == 201 <==> db.Rows? && |db.rows| > 0)
              && (db.Rows? && |db.rows| > 0 ==>
                    Create(req, insert) == Response(201, ExperimentCreated(CreatedMessage, db.rows[0].id, db.rows[0])))
              && (!(db.Rows? && |db.rows| > 0) ==> Create(req, insert) == ErrorResponse(500, CreateFailure))
  {
  }

  // ----------------------------------------------------------------- GET

  /** The GET cascade up to the select: the `userId` query parameter must be
      present and non-empty, then match the UUID pattern. */
  function ValidateList(userId: Option<string>): (o: Outcome<string>)
    ensures !o.Throws?
    ensures o.Reject? ==> o.status == 400
    ensures o.Proceed? <==> userId.Some? && Uuid.IsUuid(userId.value)
    ensures o.Proceed? ==> o.value == userId.value
  {
    if userId.None? then Reject(400, MissingUserIdError)
    else
      Uuid.IsUuidIff(userId.value);
      if userId.value == "" then Reject(400, MissingUserIdError)
      else if !Uuid.IsUuid(userId.value) then Reject(400, UuidError)
      else Proceed(userId.value)
  }

  /** `eq(experiments.userId, userId)`: the column holds UUID values, so a
      nullable column never matches and hex digits compare without regard
      to case. */
  predicate OwnedBy(row: ExperimentRow, userId: string) {
    row.userId.Some? && Uuid.SameUuid(row.userId.value, userId)
  }

  /** The select with its equality filter, over the rows the table holds. */
  function SelectByUser(table: seq<ExperimentRow>, userId: string): (rows: seq<ExperimentRow>)
    ensures |rows| <= |table|
    ensures forall r :: r in rows <==> r in table && OwnedBy(r, userId)
    ensures forall r :: multiset(rows)[r] == if OwnedBy(r, userId) then multiset(table)[r] else 0
  {
    if table == [] then []
    else
      assert table == [table[0]] + table[1..];
      if OwnedBy(table[0], userId) then [table[0]] + SelectByUser(table[1..], userId)
      else SelectByUser(table[1..], userId)
  }

  /** The whole GET handler, given the table's rows when the select runs, or
      the select's failure. */
  function List(userId: Option<string>, table: DbResult<ExperimentRow>): (resp: Response)
    ensures resp.status == 200 || resp.status == 400 || resp.status == 500
    ensures resp.status == 200 <==> ValidateList(userId).Proceed? && table.Rows?
    ensures resp.status == 200 ==>
              resp.body.ExperimentList?
              && (forall r :: r in resp.body.experiments <==> r in table.rows && OwnedBy(r, userId.value))
              && (forall r :: multiset(resp.body.experiments)[r]
                               == if OwnedBy(r, userId.value) then multiset(table.rows)[r] else 0)
    ensures ValidateList(userId).Proceed? && table.DbError? ==> resp == ErrorResponse(500, ListFailure)
    ensures !ValidateList(userId).Proceed? ==>
              resp == ErrorResponse(400, ValidateList(userId).error)
  {
    match ValidateList(userId)
    case Reject(status, error) => ErrorResponse(status, error)
    case Throws => ErrorResponse(500, ListFailure)
    case Proceed(id) =>
      match table
      case DbError => ErrorResponse(500, ListFailure)
      case Rows(rows) => Response(200, ExperimentList(SelectByUser(rows, id)))
  }

  /** A missing or empty query parameter is reported as missing; a present
      one that does not match the pattern as malformed. */
  lemma ListErrors(userId: Option<string>, table: DbResult<ExperimentRow>)
    ensures List(userId, table) == ErrorResponse(400, MissingUserIdError)
            <==> userId.None? || userId.value == ""
    ensures List(userId, table) == ErrorResponse(400, UuidError)
            <==> userId.Some? && userId.value != "" && !Uuid.IsUuid(userId.value)
  {
  }

  /** A rejected query never reaches the select. */
  lemma ListRejectsBeforeSelect(userId: Option<string>, table1: DbResult<ExperimentRow>,
                                table2: DbResult<ExperimentRow>)
    requires !ValidateList(userId).Proceed?
    ensures List(userId, table1) == List(userId, table2)
  {
  }

  /** Every listed experiment belongs to the queried user; when the stored
      ids and the query are written in lower case, its userId is the query
      string itself. */
  lemma ListedBelongToUser(userId: Option<string>, table: DbResult<ExperimentRow>, r: ExperimentRow)
    ensures List(userId, table).status == 200 && r in List(userId, table).body.experiments
            && Strings.HasNoUpper(userId.value) && r.userId.Some? && Strings.HasNoUpper(r.userId.value)
            ==> r.userId == Some(userId.value)
  {
    if List(userId, table).status == 200 && r in List(userId, table).body.experiments
       && r.userId.Some? && Strings.HasNoUpper(userId.value) && Strings.HasNoUpper(r.userId.value) {
      Uuid.SameUuidLowerCase(r.userId.value, userId.value);
    }
  }
}
