/**
 * The submissions table behind the repository's `create`: the rows written
 * so far and the id the next insert receives.
 */
module Repositories {
  import opened Wrappers
  import opened PhpValues

  /** The attribute names a submission row is written with. */
  const AssignmentIdKey := StrKey("assignment_id")
  const ContentKey := StrKey("content")
  const UserIdKey := StrKey("user_id")

  /** The message of the exception a failed insert raises. */
  type DbError = string

  /** A stored submission: its assigned id and the attributes it was created with. */
  datatype Submission = Submission(id: nat, attributes: seq<Entry>)

  class SubmissionRepository {
    var rows: seq<Submission>
    var nextId: nat

    /** Ids are assigned in increasing order, and every assigned id is below the next one. */
    ghost predicate Valid()
      reads this
    {
      && (forall i :: 0 <= i < |rows| ==> rows[i].id < nextId)
      && (forall i, j :: 0 <= i < j < |rows| ==> rows[i].id < rows[j].id)
    }

    constructor ()
      ensures Valid() && rows == [] && nextId == 1
    {
      rows := [];
      nextId := 1;
    }

    /**
     * `create($data)`: inserts a row with a fresh id and returns it. Whether
     * the database accepts the insert is an input: `verdict` is None when it
     * does and carries the exception's message when it does not.
     */
    method Create(attributes: seq<Entry>, verdict: Option<DbError>) returns (r: Result<Submission, DbError>)
      requires Valid()
      modifies this
      ensures Valid()
      ensures verdict.None? ==>
        && r == Success(Submission(old(nextId), attributes))
        && rows == old(rows) + [r.value]
        && nextId == old(nextId) + 1
      ensures verdict.Some? ==> r == Failure(verdict.value) && rows == old(rows) && nextId == old(nextId)
    {
      if verdict.Some? {
        return Failure(verdict.value);
      }
      var row := Submission(nextId, attributes);
      rows := rows + [row];
      nextId := nextId + 1;
      r := Success(row);
    }
  }
}
