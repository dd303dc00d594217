/** The domain service (src/services/PieceService.ts): reads delegate to the storage
    accessor; single-record read, update and delete first make sure the record exists
    and raise NotFound otherwise. */
module Services {
  import opened Common
  import opened Models
  import opened Repos

  class PieceService {
    /** The storage accessor the service delegates to. */
    const repo: PieceRepo

    constructor (repo: PieceRepo)
      ensures this.repo == repo
    {
      this.repo := repo;
    }

    /** The record with identifier `id`, or NotFound. */
    method GetOne(id: Id) returns (r: Result<Piece>)
      ensures r.Failure? <==> id !in repo.table
      ensures r.Failure? ==> r.error == NotFound
      ensures r.Success? ==> r.value == repo.table[id]
    {
      var piece := repo.GetOne(id);
      if piece.None? {
        return Failure(NotFound);
      }
      r := Success(piece.value);
    }

    method GetAll() returns (r: map<Id, Piece>)
      ensures r == repo.table
    {
      r := repo.GetAll();
    }

    method GetIsAlive(isAlive: bool) returns (r: map<Id, Piece>)
      ensures r == AliveFilter(repo.table, isAlive)
    {
      r := repo.GetIsAlive(isAlive);
    }

    method GetBetweenYears(start: int, end: int) returns (r: map<Id, Piece>)
      ensures r == YearFilter(repo.table, start, end)
    {
      r := repo.GetBetweenYears(start, end);
    }

    /** Pure delegation to the storage accessor's insertion. */
    method AddOne(raw: RawPiece, now: Date) returns (r: Outcome)
      requires repo.Valid()
      modifies repo
      ensures repo.Valid()
      ensures r.Fail? <==> !Conforms(NewDocument(raw), now)
      ensures r.Fail? ==> r.error == ValidationError(SchemaErrors(NewDocument(raw), now)) && repo.table == old(repo.table)
      ensures r.Pass? ==> old(repo.nextId) !in old(repo.table) && Complete(NewDocument(raw))
                          && repo.table == old(repo.table)[old(repo.nextId) := ToPiece(NewDocument(raw))]
      ensures AllConform(old(repo.table), now) ==> AllConform(repo.table, now)
    {
      r := repo.Add(raw, now);
    }

    /** Update the record `raw.id` names. A missing or unknown identifier raises NotFound
        before anything is written, so the storage accessor's own "not found" error is
        never raised through the service. */
    method UpdateOne(raw: RawPiece, now: Date) returns (r: Outcome)
      requires repo.Valid()
      modifies repo
      ensures repo.Valid()
      ensures (raw.id.None? || raw.id.value !in old(repo.table)) ==>
                r == Fail(NotFound) && repo.table == old(repo.table)
      ensures (raw.id.Some? && raw.id.value in old(repo.table) && !Conforms(raw, now)) ==>
                r == Fail(ValidationError(SchemaErrors(raw, now))) && repo.table == old(repo.table)
      ensures r.Pass? <==> raw.id.Some? && raw.id.value in old(repo.table) && Conforms(raw, now)
      ensures r.Pass? ==> Complete(raw) && repo.table == old(repo.table)[raw.id.value := ToPiece(raw)]
      ensures r != Fail(PlainError(REPO_NOT_FOUND_MSG))
      ensures AllConform(old(repo.table), now) ==> AllConform(repo.table, now)
    {
      if raw.id.None? {
        return Fail(NotFound);
      }
      var persists := repo.GetOne(raw.id.value);
      if persists.None? {
        return Fail(NotFound);
      }
      r := repo.Update(raw, now);
    }

    /** Delete the record `id`; NotFound, with nothing removed, when there is none. */
    method Delete(id: Id) returns (r: Outcome)
      requires repo.Valid()
      modifies repo
      ensures repo.Valid()
      ensures r.Fail? <==> id !in old(repo.table)
      ensures r.Fail? ==> r.error == NotFound && repo.table == old(repo.table)
      ensures r.Pass? ==> repo.table == old(repo.table) - {id} && |repo.table| == |old(repo.table)| - 1
    {
      var persists := repo.GetOne(id);
      if persists.None? {
        return Fail(NotFound);
      }
      repo.Delete(id);
      r := Pass;
    }
  }
}
