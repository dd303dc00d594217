/** The storage accessor (src/repos/PieceRepo.ts): the collection of pieces as a table
    from identifier to record, its four queries and its three writes. The database's
    `save()` runs the schema's validators before it writes, and refuses an invalid
    document with a ValidationError. */
module Repos {
  import opened Common
  import opened Models

  // ---------------------------------------------------------------------------------
  // The queries, as functions of the table
  // ---------------------------------------------------------------------------------

  /** `find({ compositorIsAlive: isAlive })`. */
  function AliveFilter(t: map<Id, Piece>, isAlive: bool): (r: map<Id, Piece>)
    ensures forall k :: k in r <==> k in t && t[k].compositorIsAlive == isAlive
    ensures forall k :: k in r ==> r[k] == t[k]
  {
    map k | k in t && t[k].compositorIsAlive == isAlive :: t[k]
  }

  /** `find({ dateOfRelease: { $gte: start-01-01, $lte: end-12-31 } })`: exactly the records
      released in a year from `start` to `end`, both included; so nothing when `start > end`. */
  function YearFilter(t: map<Id, Piece>, start: int, end: int): (r: map<Id, Piece>)
    ensures forall k :: k in r <==> k in t && start <= t[k].dateOfRelease.year <= end
    ensures forall k :: k in r ==> r[k] == t[k]
    ensures start > end ==> r == map[]
  {
    var lo, hi := YearStart(start), YearEnd(end);
    var r := map k | k in t && DateLe(lo, t[k].dateOfRelease) && DateLe(t[k].dateOfRelease, hi) :: t[k];
    assert forall k :: k in r <==> k in t && start <= t[k].dateOfRelease.year <= end by {
      forall k | k in t {
        BetweenYearBoundsIff(t[k].dateOfRelease, start, end);
      }
    }
    assert start > end ==> r.Keys == {};
    r
  }

  /** The two alive-status queries split the collection: no record is in both, none is
      in neither, and their sizes add up to the size of the collection. */
  lemma AliveFiltersPartition(t: map<Id, Piece>)
    ensures AliveFilter(t, true).Keys !! AliveFilter(t, false).Keys
    ensures AliveFilter(t, true) + AliveFilter(t, false) == t
    ensures |AliveFilter(t, true)| + |AliveFilter(t, false)| == |t|
  {
  }

  /** Every record of `t` conforms to the schema at time `now`. */
  predicate AllConform(t: map<Id, Piece>, now: Date) {
    forall k :: k in t ==> PieceConforms(t[k], now)
  }

  // ---------------------------------------------------------------------------------
  // The collection
  // ---------------------------------------------------------------------------------

  class PieceRepo {
    /** The stored pieces by identifier. */
    var table: map<Id, Piece>
    /** The identifier the next insertion receives; stands for the database's id generator. */
    var nextId: Id

    ghost predicate Valid()
      reads this
    {
      forall k :: k in table ==> k < nextId
    }

    constructor ()
      ensures Valid() && table == map[]
    {
      table := map[];
      nextId := 0;
    }

    /** `findById(id)`: the record, or nothing; absence is not an error. */
    method GetOne(id: Id) returns (r: Option<Piece>)
      ensures r.Some? <==> id in table
      ensures r.Some? ==> r.value == table[id]
    {
      if id in table {
        r := Some(table[id]);
      } else {
        r := None;
      }
    }

    /** `find()`: all records. */
    method GetAll() returns (r: map<Id, Piece>)
      ensures r == table
    {
      r := table;
    }

    method GetIsAlive(isAlive: bool) returns (r: map<Id, Piece>)
      ensures r == AliveFilter(table, isAlive)
      ensures forall k :: k in r <==> k in table && table[k].compositorIsAlive == isAlive
    {
      r := AliveFilter(table, isAlive);
    }

    method GetBetweenYears(start: int, end: int) returns (r: map<Id, Piece>)
      ensures r == YearFilter(table, start, end)
      ensures forall k :: k in r <==> k in table && start <= table[k].dateOfRelease.year <= end
    {
      r := YearFilter(table, start, end);
    }

    /** `new Piece(piece).save()`: build the document (a missing array becomes empty),
        validate it, then store it under a fresh identifier. */
    method Add(raw: RawPiece, now: Date) returns (r: Outcome)
      requires Valid()
      modifies this
      ensures Valid()
      ensures r.Fail? <==> !Conforms(NewDocument(raw), now)
      ensures r.Fail? ==> r.error == ValidationError(SchemaErrors(NewDocument(raw), now)) && table == old(table)
      ensures r.Pass? ==> old(nextId) !in old(table) && Complete(NewDocument(raw))
                          && table == old(table)[old(nextId) := ToPiece(NewDocument(raw))]
      ensures AllConform(old(table), now) ==> AllConform(table, now)
    {
      var doc := NewDocument(raw);
      var errors := SchemaErrors(doc, now);
      NoErrorsIffConforms(doc, now);
      if errors != [] {
        return Fail(ValidationError(errors));
      }
      table := table[nextId := ToPiece(doc)];
      nextId := nextId + 1;
      r := Pass;
    }

    /** Fetch the record with `piece._id`, overwrite its nine data fields with the given
        ones, and save it. */
    method Update(raw: RawPiece, now: Date) returns (r: Outcome)
      requires Valid()
      modifies this
      ensures Valid() && nextId == old(nextId)
      ensures (raw.id.None? || raw.id.value !in old(table)) ==>
                r == Fail(PlainError(REPO_NOT_FOUND_MSG)) && table == old(table)
      ensures (raw.id.Some? && raw.id.value in old(table) && !Conforms(raw, now)) ==>
                r == Fail(ValidationError(SchemaErrors(raw, now))) && table == old(table)
      ensures r.Pass? <==> raw.id.Some? && raw.id.value in old(table) && Conforms(raw, now)
      ensures r.Pass? ==> Complete(raw) && table == old(table)[raw.id.value := ToPiece(raw)]
      ensures AllConform(old(table), now) ==> AllConform(table, now)
    {
      if raw.id.None? || raw.id.value !in table {
        return Fail(PlainError(REPO_NOT_FOUND_MSG));
      }
      var id := raw.id.value;
      var doc := AsRaw(Some(id), table[id]);
      doc := doc.(pieceName := raw.pieceName);
      doc := doc.(compositorName := raw.compositorName);
      doc := doc.(durationMinutes := raw.durationMinutes);
      doc := doc.(dateOfRelease := raw.dateOfRelease);
      doc := doc.(compositorIsAlive := raw.compositorIsAlive);
      doc := doc.(instruments := raw.instruments);
      doc := doc.(difficultyLevel := raw.difficultyLevel);
      doc := doc.(styles := raw.styles);
      doc := doc.(compositorImageUrl := raw.compositorImageUrl);
      assert doc == raw;
      var errors := SchemaErrors(doc, now);
      NoErrorsIffConforms(doc, now);
      if errors != [] {
        return Fail(ValidationError(errors));
      }
      table := table[id := ToPiece(doc)];
      r := Pass;
    }

    /** `findByIdAndDelete(id)`: remove the record if there is one; nothing otherwise. */
    method Delete(id: Id)
      requires Valid()
      modifies this
      ensures Valid() && nextId == old(nextId)
      ensures table == old(table) - {id}
    {
      table := table - {id};
    }
  }
}
