/** The HTTP handlers (src/Controller/RobotController.ts). Each catches every
    failure from the validator or the service and renders it with `Error`;
    `create` and `update` validate the body before calling the service, so a
    bad body wins over a missing id. Route parameters arrive already parsed
    to integers. */
module Controller {
  import opened Outcomes
  import opened Entity
  import Validator
  import opened Repository
  import opened ServiceResponse
  import opened Service
  import opened ApiResponse

  /** The confirmation text of both update handlers. */
  const UpdatedText: string := "Robot updated successfully."

  class RobotController {
    const service: RobotService

    constructor (service: RobotService)
      ensures this.service == service
    {
      this.service := service;
    }

    /** GET /robots: 200 with the filtered collection envelope, one entry per
        matching robot. */
    method FindAll(query: Filter) returns (resp: Response)
      requires service.repo.Valid()
      ensures resp.status == 200 && resp.body.Some? && resp.body.value.Resource?
      ensures resp.body.value.envelope.data.Many?
      ensures |resp.body.value.envelope.data.entries| == |MatchingIds(service.repo.rows, query)|
      ensures forall i :: 0 <= i < |resp.body.value.envelope.data.entries| ==>
        var r := resp.body.value.envelope.data.entries[i].attributes;
        r.id in service.repo.rows && service.repo.rows[r.id] == r && Matches(r, query)
      ensures forall id :: id in service.repo.rows && Matches(service.repo.rows[id], query) ==>
        exists i :: 0 <= i < |resp.body.value.envelope.data.entries| &&
          resp.body.value.envelope.data.entries[i].attributes == service.repo.rows[id]
    {
      var robots := service.GetAll(query);
      resp := Success(Resource(robots));
    }

    /** GET /robots/:id: 200 with the robot's envelope, or 404 "Robot not found". */
    method GetOne(id: int) returns (resp: Response)
      requires service.repo.Valid()
      ensures id in service.repo.rows ==> resp == Success(Resource(TransformOne(service.repo.rows[id])))
      ensures id !in service.repo.rows ==> resp == Error(NotFound)
    {
      var robot := service.GetOne(id);
      match robot
      case Fail(failure) => resp := Error(failure);
      case Ok(envelope) => resp := Success(Resource(envelope));
    }

    /** POST /robots: a body the validator rejects gives 422 and leaves the
        store alone; a valid body gives 201 with the new robot's envelope. */
    method Create(body: Payload, now: Timestamp) returns (resp: Response)
      requires service.repo.Valid()
      modifies service.repo
      ensures service.repo.Valid()
      ensures Validator.Check(body).Fail? ==> resp == Error(Validator.InvalidParameters) && unchanged(service.repo)
      ensures Validator.Check(body).Ok? ==>
        && "name" in body && "purpose" in body
        && var row := Robot(old(service.repo.nextId), body["name"], body["purpose"], now, now);
        && resp == Created(Resource(TransformOne(row)))
        && service.repo.rows == old(service.repo.rows)[row.id := row]
        && row.id !in old(service.repo.issued)
        && service.repo.nextId == old(service.repo.nextId) + 1
        && service.repo.issued == old(service.repo.issued) + {row.id}
    {
      var checked := Validator.Check(body);
      if checked.Fail? {
        return Error(checked.failure);
      }
      Validator.CheckAcceptsExactlyRequired(body);
      var robot := service.Create(checked.value, now);
      match robot
      case Fail(failure) => resp := Error(failure);
      case Ok(envelope) => resp := Created(Resource(envelope));
    }

    /** PUT /robots/:id: validation first (422, even for a missing id), then
        the existence guard (404); on success 200 with the confirmation text. */
    method Update(body: Payload, id: int, now: Timestamp) returns (resp: Response)
      requires service.repo.Valid()
      modifies service.repo
      ensures service.repo.Valid()
      ensures Validator.Check(body).Fail? ==> resp == Error(Validator.InvalidParameters) && unchanged(service.repo)
      ensures Validator.Check(body).Ok? && id !in old(service.repo.rows) ==> resp == Error(NotFound) && unchanged(service.repo)
      ensures Validator.Check(body).Ok? && id in old(service.repo.rows) ==>
        && "name" in body && "purpose" in body
        && resp == Success(Text(UpdatedText))
        && service.repo.rows == old(service.repo.rows)[id := Overwrite(old(service.repo.rows)[id], RobotDraft(Some(body["name"]), Some(body["purpose"])), now)]
        && service.repo.nextId == old(service.repo.nextId) && service.repo.issued == old(service.repo.issued)
    {
      var checked := Validator.Check(body);
      if checked.Fail? {
        return Error(checked.failure);
      }
      Validator.CheckAcceptsExactlyRequired(body);
      var affected := service.Update(checked.value, id, now);
      match affected
      case Fail(failure) => resp := Error(failure);
      case Ok(_) => resp := Success(Text(UpdatedText));
    }

    /** PATCH /robots/:id: no validation; only `body.purpose` (possibly
        undefined) is forwarded. 404 for a missing id, else 200 with the
        confirmation text. */
    method UpdatePurpose(body: Payload, id: int, now: Timestamp) returns (resp: Response)
      requires service.repo.Valid()
      modifies service.repo
      ensures service.repo.Valid()
      ensures id !in old(service.repo.rows) ==> resp == Error(NotFound) && unchanged(service.repo)
      ensures id in old(service.repo.rows) ==>
        && resp == Success(Text(UpdatedText))
        && service.repo.rows == old(service.repo.rows)[id := Overwrite(old(service.repo.rows)[id], RobotDraft(None, Field(body, "purpose")), now)]
        && service.repo.nextId == old(service.repo.nextId) && service.repo.issued == old(service.repo.issued)
    {
      var purpose := Field(body, "purpose");
      var affected := service.UpdatePurpose(id, purpose, now);
      match affected
      case Fail(failure) => resp := Error(failure);
      case Ok(_) => resp := Success(Text(UpdatedText));
    }

    /** DELETE /robots/:id: 204 without a body, or 404 for a missing id. */
    method Remove(id: int) returns (resp: Response)
      requires service.repo.Valid()
      modifies service.repo
      ensures service.repo.Valid()
      ensures id in old(service.repo.rows) ==>
        && resp == NoContent()
        && service.repo.rows == old(service.repo.rows) - {id}
        && service.repo.nextId == old(service.repo.nextId) && service.repo.issued == old(service.repo.issued)
      ensures id !in old(service.repo.rows) ==> resp == Error(NotFound) && unchanged(service.repo)
    {
      var deleted := service.Delete(id);
      match deleted
      case Fail(failure) => resp := Error(failure);
      case Ok(_) => resp := NoContent();
    }
  }
}
