/** The request handlers (src/routes/PieceRoutes.ts). Each awaits one service call and
    only then writes its success status and body; when the service call throws, the
    handler writes nothing and the error travels on to the error middleware. */
module PieceRoutes {
  import opened Common
  import opened Models
  import opened Repos
  import opened Services

  /** A JSON response body. */
  datatype Body =
    | PieceJson(id: Id, piece: Piece)              // { piece }
    | PiecesJson(pieces: map<Id, Piece>)           // { pieces }
    | ErrorJson(error: string)                     // { error }
    | ValidationJson(errors: seq<FieldError>)      // a serialized schema ValidationError
    | NoBody                                       // `.end()` with nothing sent

  datatype Response = Response(status: int, body: Body)

  /** What a handler does: respond, or throw to the next error middleware. */
  datatype HandlerResult = Responded(response: Response) | Raised(error: Error)

  /** The falsy values other than `undefined` and `null`: `false`, `0` and `""`. */
  datatype FalsyValue = FalseValue | ZeroValue | EmptyString

  /** The value of `req.body.piece`, as far as the handlers tell values apart: missing
      (undefined), `null`, another falsy value, or a piece object. */
  datatype PieceParam = Absent | Null | OtherFalsy(value: FalsyValue) | Given(raw: RawPiece)

  /** `req.body`, when there is one. */
  datatype RequestBody = RequestBody(piece: PieceParam)

  /** The runtime's messages for reading through a missing request body, or `_id` of a missing
      or null piece. */
  const DESTRUCTURE_BODY_MSG := "Cannot destructure property 'piece' of 'req.body' as it is undefined."
  const READ_ID_UNDEFINED_MSG := "Cannot read properties of undefined (reading '_id')"
  const READ_ID_NULL_MSG := "Cannot read properties of null (reading '_id')"

  /** A document with no field set: what `new Piece(x)` starts from when `x` is undefined or
      null, and what a falsy `piece` looks like to the service (`piece._id` is undefined). */
  const EmptyPiece := RawPiece(None, None, None, None, None, None, None, None, None, None)

  /** The message of the model constructor's refusal of a string argument, checked before
      the document is built. */
  const STRING_ARGUMENT_MSG := "First argument to `Model` constructor must be an object, **not** a string. Make sure you're calling `mongoose.model()`, not `mongoose.Model()`."

  /** What `new Piece(v)` throws for a falsy `v` other than undefined and null: the model
      constructor refuses a string outright; the document constructor refuses any other
      non-object, naming the value's text and its `typeof`. Neither is a RouteError. */
  function ConstructorError(v: FalsyValue): (e: Error)
    ensures !e.RouteError?
    ensures v.EmptyString? <==> e.PlainError?
  {
    match v
    case FalseValue =>
      ObjectParameterError("Parameter \"obj\" to Document() must be an object, got \"false\" (type boolean)")
    case ZeroValue =>
      ObjectParameterError("Parameter \"obj\" to Document() must be an object, got \"0\" (type number)")
    case EmptyString => PlainError(STRING_ARGUMENT_MSG)
  }

  method GetOne(svc: PieceService, id: Id) returns (r: HandlerResult)
    ensures id in svc.repo.table ==> r == Responded(Response(OK, PieceJson(id, svc.repo.table[id])))
    ensures id !in svc.repo.table ==> r == Raised(NotFound)
  {
    var piece := svc.GetOne(id);
    if piece.Failure? {
      return Raised(piece.error);
    }
    r := Responded(Response(OK, PieceJson(id, piece.value)));
  }

  method GetAll(svc: PieceService) returns (r: HandlerResult)
    ensures r == Responded(Response(OK, PiecesJson(svc.repo.table)))
  {
    var pieces := svc.GetAll();
    r := Responded(Response(OK, PiecesJson(pieces)));
  }

  method GetIsAlive(svc: PieceService, isAlive: string) returns (r: HandlerResult)
    ensures r.Responded? && r.response.status == OK && r.response.body.PiecesJson?
    ensures forall k :: k in r.response.body.pieces <==>
              k in svc.repo.table && svc.repo.table[k].compositorIsAlive == (isAlive == "true")
    ensures r.response.body.pieces == AliveFilter(svc.repo.table, isAlive == "true")
  {
    var isAliveBool := isAlive == "true";
    var pieces := svc.GetIsAlive(isAliveBool);
    r := Responded(Response(OK, PiecesJson(pieces)));
  }

  method GetBetweenYears(svc: PieceService, start: int, end: int) returns (r: HandlerResult)
    ensures r.Responded? && r.response.status == OK && r.response.body.PiecesJson?
    ensures forall k :: k in r.response.body.pieces <==>
              k in svc.repo.table && start <= svc.repo.table[k].dateOfRelease.year <= end
    ensures r.response.body.pieces == YearFilter(svc.repo.table, start, end)
  {
    var pieces := svc.GetBetweenYears(start, end);
    r := Responded(Response(OK, PiecesJson(pieces)));
  }

  /** `const { piece } = req.body`, then `new Piece(piece).save()` through the service. A piece
      object is built into a document; a missing or null one gives the empty document; any
      other falsy value is refused by the document constructor before anything is written. */
  method Add(svc: PieceService, body: Option<RequestBody>, now: Date) returns (r: HandlerResult)
    requires svc.repo.Valid()
    modifies svc.repo
    ensures svc.repo.Valid()
    ensures body.None? ==> r == Raised(TypeError(DESTRUCTURE_BODY_MSG)) && svc.repo.table == old(svc.repo.table)
    ensures body.Some? && body.value.piece.OtherFalsy? ==>
              r == Raised(ConstructorError(body.value.piece.value))
              && svc.repo.table == old(svc.repo.table)
    ensures body.Some? && !body.value.piece.OtherFalsy? ==>
              var doc := NewDocument(if body.value.piece.Given? then body.value.piece.raw else EmptyPiece);
              && (!Conforms(doc, now) ==>
                    r == Raised(ValidationError(SchemaErrors(doc, now))) && svc.repo.table == old(svc.repo.table))
              && (Conforms(doc, now) ==>
                    r == Responded(Response(CREATED, NoBody)) && Complete(doc)
                    && old(svc.repo.nextId) !in old(svc.repo.table)
                    && svc.repo.table == old(svc.repo.table)[old(svc.repo.nextId) := ToPiece(doc)])
    ensures AllConform(old(svc.repo.table), now) ==> AllConform(svc.repo.table, now)
  {
    if body.None? {
      return Raised(TypeError(DESTRUCTURE_BODY_MSG));
    }
    var piece := body.value.piece;
    if piece.OtherFalsy? {
      return Raised(ConstructorError(piece.value));
    }
    var outcome := svc.AddOne(if piece.Given? then piece.raw else EmptyPiece, now);
    if outcome.Fail? {
      return Raised(outcome.error);
    }
    r := Responded(Response(CREATED, NoBody));
  }

  method Update(svc: PieceService, body: Option<RequestBody>, now: Date) returns (r: HandlerResult)
    requires svc.repo.Valid()
    modifies svc.repo
    ensures svc.repo.Valid()
    ensures body.None? ==> r == Raised(TypeError(DESTRUCTURE_BODY_MSG)) && svc.repo.table == old(svc.repo.table)
    ensures body.Some? && body.value.piece.Absent? ==>
              r == Raised(TypeError(READ_ID_UNDEFINED_MSG)) && svc.repo.table == old(svc.repo.table)
    ensures body.Some? && body.value.piece.Null? ==>
              r == Raised(TypeError(READ_ID_NULL_MSG)) && svc.repo.table == old(svc.repo.table)
    ensures body.Some? && body.value.piece.OtherFalsy? ==>
              r == Raised(NotFound) && svc.repo.table == old(svc.repo.table)
    ensures body.Some? && body.value.piece.Given? ==>
              var raw := body.value.piece.raw;
              && ((raw.id.None? || raw.id.value !in old(svc.repo.table)) ==>
                    r == Raised(NotFound) && svc.repo.table == old(svc.repo.table))
              && ((raw.id.Some? && raw.id.value in old(svc.repo.table) && !Conforms(raw, now)) ==>
                    r == Raised(ValidationError(SchemaErrors(raw, now))) && svc.repo.table == old(svc.repo.table))
              && ((raw.id.Some? && raw.id.value in old(svc.repo.table) && Conforms(raw, now)) ==>
                    r == Responded(Response(OK, NoBody)) && Complete(raw)
                    && svc.repo.table == old(svc.repo.table)[raw.id.value := ToPiece(raw)])
    ensures AllConform(old(svc.repo.table), now) ==> AllConform(svc.repo.table, now)
  {
    if body.None? {
      return Raised(TypeError(DESTRUCTURE_BODY_MSG));
    }
    var piece := body.value.piece;
    if piece.Absent? {
      return Raised(TypeError(READ_ID_UNDEFINED_MSG));
    }
    if piece.Null? {
      return Raised(TypeError(READ_ID_NULL_MSG));
    }
    var raw := if piece.Given? then piece.raw else EmptyPiece;
    var outcome := svc.UpdateOne(raw, now);
    if outcome.Fail? {
      return Raised(outcome.error);
    }
    r := Responded(Response(OK, NoBody));
  }

  method Delete(svc: PieceService, id: Id) returns (r: HandlerResult)
    requires svc.repo.Valid()
    modifies svc.repo
    ensures svc.repo.Valid()
    ensures id !in old(svc.repo.table) ==> r == Raised(NotFound) && svc.repo.table == old(svc.repo.table)
    ensures id in old(svc.repo.table) ==>
              r == Responded(Response(OK, NoBody)) && svc.repo.table == old(svc.repo.table) - {id}
  {
    var outcome := svc.Delete(id);
    if outcome.Fail? {
      return Raised(outcome.error);
    }
    r := Responded(Response(OK, NoBody));
  }
}
