/** What the handlers share: the abstract request and response, the outcome
    of a validation cascade, the result of a database step, and the two
    checks every JSON-accepting handler performs first (the Content-Type
    header, then the body parse). */
module Http {
  import opened Wrappers
  import opened Json
  import opened Schema
  import Strings

  /** A POST request as the handlers see it: the Content-Type header
      (`None` when absent) and the result of parsing the body as JSON
      (`None` when parsing threw). */
  datatype Request = Request(contentType: Option<string>, body: Option<Json>)

  /** The result of a validation cascade: the values that reach the
      database, an early `400` response, or an exception thrown before the
      database is reached (it ends in the handler's catch-all). */
  datatype Outcome<T> = Proceed(value: T) | Reject(status: int, error: string) | Throws

  /** The result of a database call: the returned rows, or a failure. */
  datatype DbResult<T> = Rows(rows: seq<T>) | DbError

  datatype Body =
    | ErrorBody(error: string)
    | ExperimentCreated(message: string, experimentId: string, experiment: ExperimentRow)
    | ExperimentList(experiments: seq<ExperimentRow>)
    | UserCreated(message: string, user: Option<UserRow>)

  datatype Response = Response(status: int, body: Body)

  const JsonMediaType := "application/json"
  const ContentTypeError := "Content-Type must be application/json"
  const InvalidJsonError := "Invalid JSON in request body"

  /** `contentType && contentType.includes("application/json")`. */
  predicate ContentTypeOk(header: Option<string>) {
    header.Some? && header.value != "" && Strings.Includes(header.value, JsonMediaType)
  }

  /** The header passes iff it is present and `application/json` occurs in
      it somewhere; it may carry parameters or other text around it, but
      letter case must match exactly. */
  lemma ContentTypeOkIff(header: Option<string>)
    ensures ContentTypeOk(header) <==>
              header.Some? && exists i :: Strings.OccursAt(header.value, JsonMediaType, i)
  {
    if header.Some? {
      Strings.IncludesIff(header.value, JsonMediaType);
      if header.value == "" {
        Strings.IncludesEdges(header.value, JsonMediaType);
      }
    }
  }

  /** The media type with parameters after it passes. */
  lemma ContentTypeWithCharset()
    ensures ContentTypeOk(Some("application/json; charset=utf-8"))
  {
    var h := "application/json; charset=utf-8";
    assert Strings.OccursAt(h, JsonMediaType, 0) by {
      assert |h[..16]| == |JsonMediaType|;
      forall i | 0 <= i < 16 ensures h[..16][i] == JsonMediaType[i] { }
    }
    ContentTypeOkIff(Some(h));
  }

  /** Other media types, a different letter case, and a missing header fail. */
  lemma ContentTypeRejected()
    ensures !ContentTypeOk(Some("text/plain"))
    ensures !ContentTypeOk(Some("Application/JSON"))
    ensures !ContentTypeOk(None)
  {
    assert "Application/JSON"[0] != JsonMediaType[0];
  }

  /** The first two checks of every JSON-accepting handler: the header, and
      only then the parsed body. */
  function ReadJsonBody(req: Request): (o: Outcome<Json>)
    ensures !o.Throws?
    ensures o.Reject? ==> o.status == 400
    ensures o == Reject(400, ContentTypeError) <==> !ContentTypeOk(req.contentType)
    ensures o == Reject(400, InvalidJsonError) <==> ContentTypeOk(req.contentType) && req.body.None?
    ensures o.Proceed? <==> ContentTypeOk(req.contentType) && req.body.Some?
    ensures o.Proceed? ==> o.value == req.body.value
  {
    if !ContentTypeOk(req.contentType) then Reject(400, ContentTypeError)
    else if req.body.None? then Reject(400, InvalidJsonError)
    else Proceed(req.body.value)
  }

  /** `NextResponse.json({ error }, { status })`. */
  function ErrorResponse(status: int, error: string): Response {
    Response(status, ErrorBody(error))
  }
}
