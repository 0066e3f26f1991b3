/** The user-registration handler (POST): a three-check cascade followed by
    one insert. Unlike the experiment handler there is no type check on the
    email and no check at all on the id. */
module Users {
  import opened Wrappers
  import opened Json
  import opened Schema
  import opened Http
  import Strings

  const EmailError := "Email is required"
  const CreatedMessage := "User created successfully"
  const CreateFailure := "Failed to create user"

  /** The values inserted for a new user: the id exactly as destructured from
      the body (possibly `undefined`) and the email (any truthy value). */
  datatype NewUser = NewUser(id: Prop, email: Json)

  /** The cascade up to the insert: Content-Type, JSON body, destructuring,
      then the truthiness of the email. */
  function ValidateCreate(req: Request): (o: Outcome<NewUser>)
    ensures o.Reject? ==> o.status == 400
    ensures o.Throws? <==> ReadJsonBody(req) == Proceed(JNull)
    ensures o.Proceed? ==> Truthy(Present(o.value.email))
  {
    match ReadJsonBody(req)
    case Proceed(body) =>
      if !Destructurable(body) then Throws
      else
        var id := Get(body, "id");
        var email := Get(body, "email");
        if !Truthy(email) then Reject(400, EmailError)
        else Proceed(NewUser(id, email.value))
    case Reject(status, error) => Reject(status, error)
    case Throws => Throws
  }

  /** The whole handler, given what the insert returns for the values it is
      called with. A failed insert (or destructuring `null`) ends in the
      generic 500 response. An insert that returns no row still answers
      201: `newUser[0]` is then `undefined` and the `user` key is dropped. */
  function Create(req: Request, insert: NewUser -> DbResult<UserRow>): (resp: Response)
    ensures resp.status == 201 || resp.status == 400 || resp.status == 500
    ensures resp.status == 201 ==> resp.body.UserCreated? && resp.body.message == CreatedMessage
  {
    match ValidateCreate(req)
    case Reject(status, error) => ErrorResponse(status, error)
    case Throws => ErrorResponse(500, CreateFailure)
    case Proceed(values) =>
      match insert(values)
      case DbError => ErrorResponse(500, CreateFailure)
      case Rows(rows) =>
        Response(201, UserCreated(CreatedMessage, if |rows| > 0 then Some(rows[0]) else None))
  }

  /** The Content-Type error is reported iff the header is absent or lacks
      `application/json`; the body is not looked at. */
  lemma CreateContentType(req: Request, insert: NewUser -> DbResult<UserRow>)
    ensures Create(req, insert) == ErrorResponse(400, ContentTypeError)
            <==> !ContentTypeOk(req.contentType)
  {
  }

  /** An unparseable body is reported iff the header passed. */
  lemma CreateInvalidJson(req: Request, insert: NewUser -> DbResult<UserRow>)
    ensures Create(req, insert) == ErrorResponse(400, InvalidJsonError)
            <==> ContentTypeOk(req.contentType) && req.body.None?
  {
  }

  /** The email error is reported iff the body parsed, can be destructured,
      and its email is falsy. */
  lemma CreateEmailError(req: Request, insert: NewUser -> DbResult<UserRow>)
    ensures Create(req, insert) == ErrorResponse(400, EmailError)
            <==> ContentTypeOk(req.contentType) && req.body.Some? && Destructurable(req.body.value)
                 && !Truthy(Get(req.body.value, "email"))
  {
  }

  /** A body that parses to `null` cannot be destructured: the TypeError
      ends in the generic 500 response before the email is checked. */
  lemma CreateNullBody(req: Request, insert: NewUser -> DbResult<UserRow>)
    ensures ContentTypeOk(req.contentType) && req.body == Some(JNull) ==>
              Create(req, insert) == ErrorResponse(500, CreateFailure)
  {
  }

  /** The cascade lets a request through iff the header, the parse and the
      email pass; the id is never checked and is forwarded as it came,
      `undefined` included, together with the email. */
  lemma CreateAccepted(req: Request)
    ensures ValidateCreate(req).Proceed? <==>
              ContentTypeOk(req.contentType) && req.body.Some? && Destructurable(req.body.value)
              && Truthy(Get(req.body.value, "email"))
    ensures ValidateCreate(req).Proceed? ==>
              ValidateCreate(req).value.id == Get(req.body.value, "id")
              && Present(ValidateCreate(req).value.email) == Get(req.body.value, "email")
  {
  }

  /** A non-string email passes: a number is enough, and an absent id does
      not stop the request. */
  lemma NumericEmailAccepted()
    ensures ValidateCreate(Request(Some("application/json"), Some(JObject(map["email" := JNumber(5.0)]))))
            == Proceed(NewUser(Undefined, JNumber(5.0)))
  {
    assert ContentTypeOk(Some("application/json")) by {
      assert Strings.OccursAt(JsonMediaType, JsonMediaType, 0);
      ContentTypeOkIff(Some(JsonMediaType));
    }
  }

  /** A rejected or throwing request never reaches the insert. */
  lemma CreateRejectsBeforeInsert(req: Request, insert1: NewUser -> DbResult<UserRow>,
                                  insert2: NewUser -> DbResult<UserRow>)
    requires !ValidateCreate(req).Proceed?
    ensures Create(req, insert1) == Create(req, insert2)
    ensures Create(req, insert1).status != 201
  {
  }

  /** Once the cascade passes, the answer is 201 with the first returned row
      iff the insert did not fail, and the fixed 500 message otherwise. */
  lemma CreateOutcome(req: Request, insert: NewUser -> DbResult<UserRow>)
    requires ValidateCreate(req).Proceed?
    ensures var db := insert(ValidateCreate(req).value);
            db.DbError? ==> Create(req, insert) == ErrorResponse(500, CreateFailure)
    ensures var db := insert(ValidateCreate(req).value);
            db.Rows? ==>
              Create(req, insert).status == 201
              && Create(req, insert).body.user == (if |db.rows| > 0 then Some(db.rows[0]) else None)
  {
  }
}
