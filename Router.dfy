/** The piece router (src/routes/index.ts): the `validatePiece` middleware and the table
    of routes, in which only creation is guarded by it. */
module Router {
  import opened Common
  import opened Models
  import opened Repos
  import opened Services
  import opened PieceRoutes

  const PIECE_REQUIRED_MSG := "Piece requise"

  /** What a middleware does: answer the request itself, or call `next()`. */
  datatype Gate = Halt(response: Response) | Continue

  /** `validatePiece`: a missing body, or a falsy piece, is answered 400 "Piece requise";
      otherwise the document `new Piece(piece)` is built, and when the schema rejects it the
      request is answered 400 with the validation errors; `next()` is called only for a
      piece whose document conforms. */
  function ValidatePiece(body: Option<RequestBody>, now: Date): (g: Gate)
    ensures g.Continue? <==> body.Some? && body.value.piece.Given? && Conforms(NewDocument(body.value.piece.raw), now)
    ensures (body.None? || !body.value.piece.Given?) ==>
              g == Halt(Response(BAD_REQUEST, ErrorJson(PIECE_REQUIRED_MSG)))
    ensures body.Some? && body.value.piece.Given? && !Conforms(NewDocument(body.value.piece.raw), now) ==>
              g == Halt(Response(BAD_REQUEST, ValidationJson(SchemaErrors(NewDocument(body.value.piece.raw), now))))
              && SchemaErrors(NewDocument(body.value.piece.raw), now) != []
  {
    if body.None? || !body.value.piece.Given? then
      Halt(Response(BAD_REQUEST, ErrorJson(PIECE_REQUIRED_MSG)))
    else
      var doc := NewDocument(body.value.piece.raw);
      var errors := SchemaErrors(doc, now);
      NoErrorsIffConforms(doc, now);
      if errors != [] then Halt(Response(BAD_REQUEST, ValidationJson(errors))) else Continue
  }

  /** A request to one of the seven piece routes, with its parameters parsed. */
  datatype Request =
    | GetAllRequest                                  // GET    /pieces/all
    | GetOneRequest(id: Id)                          // GET    /pieces/one/:id
    | GetIsAliveRequest(isAlive: string)             // GET    /pieces/alive/:isAlive
    | GetBetweenYearsRequest(start: int, end: int)   // GET    /pieces/between/:start/:end
    | AddRequest(body: Option<RequestBody>)          // POST   /pieces/add
    | UpdateRequest(body: Option<RequestBody>)       // PUT    /pieces/update
    | DeleteRequest(id: Id)                          // DELETE /pieces/delete/:id

  /** Run the request through the middleware chain of its route: only the creation route
      runs `validatePiece` before its handler. */
  method Dispatch(svc: PieceService, req: Request, now: Date) returns (r: HandlerResult)
    requires svc.repo.Valid()
    modifies svc.repo
    ensures svc.repo.Valid()
    ensures !req.AddRequest? && !req.UpdateRequest? && !req.DeleteRequest? ==> svc.repo.table == old(svc.repo.table)
    ensures req.GetOneRequest? ==>
              if req.id in old(svc.repo.table)
              then r == Responded(Response(OK, PieceJson(req.id, svc.repo.table[req.id])))
              else r == Raised(NotFound)
    ensures req.AddRequest? && ValidatePiece(req.body, now).Halt? ==>
              r == Responded(ValidatePiece(req.body, now).response) && svc.repo.table == old(svc.repo.table)
    ensures req.AddRequest? && ValidatePiece(req.body, now).Continue? ==>
              var raw := NewDocument(req.body.value.piece.raw);
              r == Responded(Response(CREATED, NoBody)) && Complete(raw)
              && old(svc.repo.nextId) !in old(svc.repo.table)
              && svc.repo.table == old(svc.repo.table)[old(svc.repo.nextId) := ToPiece(raw)]
    ensures req.GetAllRequest? ==> r == Responded(Response(OK, PiecesJson(svc.repo.table)))
    ensures req.GetIsAliveRequest? ==>
              r == Responded(Response(OK, PiecesJson(AliveFilter(svc.repo.table, req.isAlive == "true"))))
    ensures req.GetBetweenYearsRequest? ==>
              r == Responded(Response(OK, PiecesJson(YearFilter(svc.repo.table, req.start, req.end))))
    ensures req.UpdateRequest? && (req.body.None? || req.body.value.piece.Absent? || req.body.value.piece.Null?) ==>
              r.Raised? && r.error.TypeError? && svc.repo.table == old(svc.repo.table)
    ensures req.UpdateRequest? && req.body.Some? && req.body.value.piece.OtherFalsy? ==>
              r == Raised(NotFound) && svc.repo.table == old(svc.repo.table)
    ensures req.UpdateRequest? && req.body.Some? && req.body.value.piece.Given? ==>
              var raw := req.body.value.piece.raw;
              && ((raw.id.None? || raw.id.value !in old(svc.repo.table)) ==>
                    r == Raised(NotFound) && svc.repo.table == old(svc.repo.table))
              && ((raw.id.Some? && raw.id.value in old(svc.repo.table) && !Conforms(raw, now)) ==>
                    r == Raised(ValidationError(SchemaErrors(raw, now))) && svc.repo.table == old(svc.repo.table))
              && ((raw.id.Some? && raw.id.value in old(svc.repo.table) && Conforms(raw, now)) ==>
                    r == Responded(Response(OK, NoBody)) && Complete(raw)
                    && svc.repo.table == old(svc.repo.table)[raw.id.value := ToPiece(raw)])
    ensures req.DeleteRequest? ==>
              if req.id in old(svc.repo.table)
              then r == Responded(Response(OK, NoBody)) && svc.repo.table == old(svc.repo.table) - {req.id}
              else r == Raised(NotFound) && svc.repo.table == old(svc.repo.table)
    ensures r.Raised? ==> svc.repo.table == old(svc.repo.table)
    ensures r.Raised? && r.error.RouteError? ==> r.error == NotFound
    ensures r.Responded? ==> r.response.status in {OK, CREATED, BAD_REQUEST}
    ensures r.Responded? && r.response.status == BAD_REQUEST ==> svc.repo.table == old(svc.repo.table)
    ensures AllConform(old(svc.repo.table), now) ==> AllConform(svc.repo.table, now)
  {
    match req
    case GetAllRequest =>
      r := PieceRoutes.GetAll(svc);
    case GetOneRequest(id) =>
      r := PieceRoutes.GetOne(svc, id);
    case GetIsAliveRequest(isAlive) =>
      r := PieceRoutes.GetIsAlive(svc, isAlive);
    case GetBetweenYearsRequest(start, end) =>
      r := PieceRoutes.GetBetweenYears(svc, start, end);
    case AddRequest(body) =>
      var gate := ValidatePiece(body, now);
      if gate.Halt? {
        return Responded(gate.response);
      }
      r := PieceRoutes.Add(svc, body, now);
    case UpdateRequest(body) =>
      r := PieceRoutes.Update(svc, body, now);
    case DeleteRequest(id) =>
      r := PieceRoutes.Delete(svc, id);
  }
}
