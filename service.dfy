/** The orchestration layer (src/Service/RobotService.ts): the existence guard
    runs before every single-robot read or mutation, and its failure stops the
    operation before the store is touched. */
module Service {
  import opened Outcomes
  import opened Entity
  import HttpStatus
  import Builder
  import opened Repository
  import opened ServiceResponse

  /** Raised by the existence guard. */
  const NotFound: Failure := Failure("Robot not found", HttpStatus.NOT_FOUND)

  /** Raised by `create` when the store yields no record. */
  const FailedToAdd: Failure := Failure("Failed to add new robot.", HttpStatus.UNPROCESSABLE_ENTITY)

  /** `_checkIfRobotExist`: a fresh read by id; the stored row, or NotFound. */
  method CheckIfRobotExist(repo: RobotRepository, id: int) returns (r: Result<Robot>)
    requires repo.Valid()
    ensures r.Ok? <==> id in repo.rows
    ensures r.Ok? ==> r.value == repo.rows[id] && r.value.id == id
    ensures r.Fail? ==> r.failure == NotFound
  {
    var found := repo.GetOne(id);
    if found.None? {
      return Fail(NotFound);
    }
    return Ok(found.value);
  }

  class RobotService {
    /** The store every operation reads and writes. */
    const repo: RobotRepository

    constructor (repo: RobotRepository)
      ensures this.repo == repo
    {
      this.repo := repo;
    }

    /** The filtered list, wrapped: one envelope entry per matching robot, none
        when nothing matches. Never fails. */
    method GetAll(f: Filter) returns (e: Envelope)
      requires repo.Valid()
      ensures e.data.Many? && |e.data.entries| == |MatchingIds(repo.rows, f)|
      ensures forall i :: 0 <= i < |e.data.entries| ==>
        var r := e.data.entries[i].attributes; r.id in repo.rows && repo.rows[r.id] == r && Matches(r, f)
      ensures forall id :: id in repo.rows && Matches(repo.rows[id], f) ==>
        exists i :: 0 <= i < |e.data.entries| && e.data.entries[i].attributes == repo.rows[id]
    {
      var robots := repo.GetAll(f);
      e := TransformAll(robots);
      forall id | id in repo.rows && Matches(repo.rows[id], f)
        ensures exists i :: 0 <= i < |e.data.entries| && e.data.entries[i].attributes == repo.rows[id]
      {
        var i :| 0 <= i < |robots| && robots[i] == repo.rows[id];
        assert e.data.entries[i].attributes == repo.rows[id];
      }
    }

    /** The stored robot's fields under `data.attributes`, or NotFound. */
    method GetOne(id: int) returns (r: Result<Envelope>)
      requires repo.Valid()
      ensures r.Fail? <==> id !in repo.rows
      ensures r.Fail? ==> r.failure == NotFound
      ensures r.Ok? ==> r.value.data.One? && r.value.data.attributes == repo.rows[id] && r.value.data.attributes.id == id
    {
      var robot := CheckIfRobotExist(repo, id);
      match robot
      case Fail(failure) => return Fail(failure);
      case Ok(row) => return Ok(TransformOne(row));
    }

    /** Builds a draft from the body and inserts it. On success the envelope
        carries the new row: the body's name and purpose under a fresh id. When
        the store yields no record the call fails with 422 "Failed to add new
        robot." and the table is unchanged. */
    method Create(p: Payload, now: Timestamp) returns (r: Result<Envelope>)
      requires repo.Valid()
      modifies repo
      ensures repo.Valid()
      ensures r.Ok? <==> "name" in p && "purpose" in p
      ensures r.Fail? ==> r.failure == FailedToAdd && unchanged(repo)
      ensures r.Ok? ==>
        var row := Robot(old(repo.nextId), p["name"], p["purpose"], now, now);
        && r.value == TransformOne(row)
        && old(repo.nextId) !in old(repo.issued)
        && repo.rows == old(repo.rows)[row.id := row]
        && repo.nextId == old(repo.nextId) + 1
        && repo.issued == old(repo.issued) + {row.id}
    {
      var draft := Builder.Build(p);
      var robot := repo.Insert(draft, now);
      if robot.None? {
        return Fail(FailedToAdd);
      }
      return Ok(TransformOne(robot.value));
    }

    /** Guard, then overwrite with the builder's name/purpose projection of the
        body: 1 affected. A missing id fails with NotFound and nothing changes. */
    method Update(p: Payload, id: int, now: Timestamp) returns (r: Result<nat>)
      requires repo.Valid()
      modifies repo
      ensures repo.Valid()
      ensures id !in old(repo.rows) ==> r == Fail(NotFound) && unchanged(repo)
      ensures id in old(repo.rows) ==>
        && r == Ok(1)
        && repo.rows == old(repo.rows)[id := Overwrite(old(repo.rows)[id], Builder.Build(p), now)]
        && repo.nextId == old(repo.nextId) && repo.issued == old(repo.issued)
    {
      var robot := CheckIfRobotExist(repo, id);
      if robot.Fail? {
        return Fail(robot.failure);
      }
      var draft := Builder.Build(p);
      var affected := repo.Update(draft, id, now);
      return Ok(affected);
    }

    /** Guard, then change only `purpose`: 1 affected. A missing id fails with
        NotFound and nothing changes. */
    method UpdatePurpose(id: int, purpose: Option<string>, now: Timestamp) returns (r: Result<nat>)
      requires repo.Valid()
      modifies repo
      ensures repo.Valid()
      ensures id !in old(repo.rows) ==> r == Fail(NotFound) && unchanged(repo)
      ensures id in old(repo.rows) ==>
        && r == Ok(1)
        && repo.rows == old(repo.rows)[id := Overwrite(old(repo.rows)[id], RobotDraft(None, purpose), now)]
        && repo.nextId == old(repo.nextId) && repo.issued == old(repo.issued)
    {
      var robot := CheckIfRobotExist(repo, id);
      if robot.Fail? {
        return Fail(robot.failure);
      }
      var affected := repo.UpdatePurpose(id, purpose, now);
      return Ok(affected);
    }

    /** Guard, then remove the row: 1 affected. A missing id fails with
        NotFound and nothing changes. */
    method Delete(id: int) returns (r: Result<nat>)
      requires repo.Valid()
      modifies repo
      ensures repo.Valid()
      ensures id !in old(repo.rows) ==> r == Fail(NotFound) && unchanged(repo)
      ensures id in old(repo.rows) ==>
        && r == Ok(1)
        && repo.rows == old(repo.rows) - {id}
        && repo.nextId == old(repo.nextId) && repo.issued == old(repo.issued)
    {
      var robot := CheckIfRobotExist(repo, id);
      if robot.Fail? {
        return Fail(robot.failure);
      }
      var affected := repo.Delete(id);
      return Ok(affected);
    }
  }
}
