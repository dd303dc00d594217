/** The application (src/server.ts): the piece router followed by the error-handling
    middleware, which logs outside the test environment and turns every thrown error into
    a JSON response. */
module Server {
  import opened Common
  import opened Models
  import opened Repos
  import opened Services
  import opened PieceRoutes
  import opened Router

  datatype NodeEnv = Development | Test | Production

  /** What the error middleware does with one error: whether it logs it, and its response. */
  datatype Handled = Handled(logged: bool, response: Response)

  /** A RouteError answers with its own status; any other error answers 400. Either way the
      body is `{ error: err.message }`. */
  function HandleError(err: Error, env: NodeEnv): (h: Handled)
    ensures h.logged <==> env != Test
    ensures h.response.body == ErrorJson(Message(err))
    ensures err.RouteError? ==> h.response.status == err.status
    ensures !err.RouteError? ==> h.response.status == BAD_REQUEST
  {
    var logged := env != Test;
    if err.RouteError? then Handled(logged, Response(err.status, ErrorJson(err.message)))
    else Handled(logged, Response(BAD_REQUEST, ErrorJson(Message(err))))
  }

  /** Logging depends on the environment only, and the response does not depend on it. */
  lemma ResponseIndependentOfEnv(err: Error, env1: NodeEnv, env2: NodeEnv)
    ensures HandleError(err, env1).response == HandleError(err, env2).response
  {
  }

  /** The statuses the service can answer with. */
  predicate KnownStatus(status: int) {
    status == OK || status == CREATED || status == BAD_REQUEST || status == NOT_FOUND
  }

  /** The errors the layers below can raise carry only the NotFound status. */
  predicate RaisableError(err: Error) {
    err.RouteError? ==> err == NotFound
  }

  /** No thrown error becomes a 500: NotFound becomes 404, everything else 400. */
  lemma NoServerErrorStatus(err: Error, env: NodeEnv)
    requires RaisableError(err)
    ensures KnownStatus(HandleError(err, env).response.status)
    ensures HandleError(err, env).response.status == NOT_FOUND <==> err == NotFound
  {
  }

  /** One request through the whole application. */
  method Serve(svc: PieceService, req: Request, now: Date, env: NodeEnv) returns (resp: Response)
    requires svc.repo.Valid()
    modifies svc.repo
    ensures svc.repo.Valid()
    ensures KnownStatus(resp.status)
    ensures !req.AddRequest? && !req.UpdateRequest? && !req.DeleteRequest? ==> svc.repo.table == old(svc.repo.table)
    ensures req.GetOneRequest? ==>
              if req.id in old(svc.repo.table)
              then resp == Response(OK, PieceJson(req.id, svc.repo.table[req.id]))
              else resp == Response(NOT_FOUND, ErrorJson(PIECE_NOT_FOUND_ERR))
    ensures req.AddRequest? && (req.body.None? || !req.body.value.piece.Given?) ==>
              resp == Response(BAD_REQUEST, ErrorJson(PIECE_REQUIRED_MSG)) && svc.repo.table == old(svc.repo.table)
    ensures req.AddRequest? && req.body.Some? && req.body.value.piece.Given? ==>
              var raw := NewDocument(req.body.value.piece.raw);
              if Conforms(raw, now)
              then resp == Response(CREATED, NoBody) && Complete(raw)
                   && old(svc.repo.nextId) !in old(svc.repo.table)
                   && svc.repo.table == old(svc.repo.table)[old(svc.repo.nextId) := ToPiece(raw)]
              else resp == Response(BAD_REQUEST, ValidationJson(SchemaErrors(raw, now)))
                   && svc.repo.table == old(svc.repo.table)
    ensures req.GetAllRequest? ==> resp == Response(OK, PiecesJson(svc.repo.table))
    ensures req.GetIsAliveRequest? ==>
              resp == Response(OK, PiecesJson(AliveFilter(svc.repo.table, req.isAlive == "true")))
    ensures req.GetBetweenYearsRequest? ==>
              resp == Response(OK, PiecesJson(YearFilter(svc.repo.table, req.start, req.end)))
    ensures req.UpdateRequest? && (req.body.None? || req.body.value.piece.Absent? || req.body.value.piece.Null?) ==>
              resp.status == BAD_REQUEST && resp.body.ErrorJson? && svc.repo.table == old(svc.repo.table)
    ensures req.UpdateRequest? && req.body.Some? && req.body.value.piece.OtherFalsy? ==>
              resp == Response(NOT_FOUND, ErrorJson(PIECE_NOT_FOUND_ERR)) && svc.repo.table == old(svc.repo.table)
    ensures req.UpdateRequest? && req.body.Some? && req.body.value.piece.Given? ==>
              var raw := req.body.value.piece.raw;
              if raw.id.None? || raw.id.value !in old(svc.repo.table)
              then resp == Response(NOT_FOUND, ErrorJson(PIECE_NOT_FOUND_ERR)) && svc.repo.table == old(svc.repo.table)
              else if !Conforms(raw, now)
              then resp == Response(BAD_REQUEST, ErrorJson(Message(ValidationError(SchemaErrors(raw, now)))))
                   && svc.repo.table == old(svc.repo.table)
              else resp == Response(OK, NoBody) && Complete(raw)
                   && svc.repo.table == old(svc.repo.table)[raw.id.value := ToPiece(raw)]
    ensures req.DeleteRequest? ==>
              if req.id in old(svc.repo.table)
              then resp == Response(OK, NoBody) && svc.repo.table == old(svc.repo.table) - {req.id}
              else resp == Response(NOT_FOUND, ErrorJson(PIECE_NOT_FOUND_ERR)) && svc.repo.table == old(svc.repo.table)
    ensures resp.status != OK && resp.status != CREATED ==> svc.repo.table == old(svc.repo.table)
    ensures AllConform(old(svc.repo.table), now) ==> AllConform(svc.repo.table, now)
  {
    var r := Dispatch(svc, req, now);
    if r.Raised? {
      resp := HandleError(r.error, env).response;
    } else {
      resp := r.response;
    }
  }
}
