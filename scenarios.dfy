/** Multi-call behaviour of the pipeline, stated over any valid store: the
    round trips and repeat calls that the service and controller tests walk
    through, following only from the contracts of the single calls. */
module Scenarios {
  import opened Outcomes
  import opened Entity
  import Validator
  import opened Repository
  import opened ServiceResponse
  import opened Service
  import opened ApiResponse
  import opened Controller

  /** create, then getOne on the new id: the body's name and purpose come back
      under that id. */
  method CreateThenGetOne(svc: RobotService, p: Payload, now: Timestamp) returns (created: Result<Envelope>, fetched: Result<Envelope>)
    requires svc.repo.Valid()
    requires "name" in p && "purpose" in p
    modifies svc.repo
    ensures created.Ok? && created.value.data.One? && fetched.Ok? && fetched.value.data.One?
    ensures fetched.value.data.attributes.id == created.value.data.attributes.id
    ensures fetched.value.data.attributes.name == p["name"] && fetched.value.data.attributes.purpose == p["purpose"]
  {
    created := svc.Create(p, now);
    fetched := svc.GetOne(created.value.data.attributes.id);
  }

  /** Two creates hand out different ids, even when the first robot was
      deleted in between: ids are never reused. */
  method CreateDeleteCreate(svc: RobotService, p: Payload, now: Timestamp) returns (first: Result<Envelope>, second: Result<Envelope>)
    requires svc.repo.Valid()
    requires "name" in p && "purpose" in p
    modifies svc.repo
    ensures first.Ok? && first.value.data.One? && second.Ok? && second.value.data.One?
    ensures first.value.data.attributes.id != second.value.data.attributes.id
  {
    first := svc.Create(p, now);
    var deleted := svc.Delete(first.value.data.attributes.id);
    second := svc.Create(p, now);
  }

  /** update, then getOne: the body's name and purpose under the same id, the
      creation time untouched. */
  method UpdateThenGetOne(svc: RobotService, p: Payload, id: int, now: Timestamp) returns (updated: Result<nat>, fetched: Result<Envelope>)
    requires svc.repo.Valid() && id in svc.repo.rows
    requires "name" in p && "purpose" in p
    modifies svc.repo
    ensures updated == Ok(1)
    ensures fetched.Ok? && fetched.value.data.One?
    ensures fetched.value.data.attributes.id == id
    ensures fetched.value.data.attributes.name == p["name"] && fetched.value.data.attributes.purpose == p["purpose"]
    ensures fetched.value.data.attributes.createdAt == old(svc.repo.rows[id].createdAt)
  {
    updated := svc.Update(p, id, now);
    fetched := svc.GetOne(id);
  }

  /** updatePurpose, then getOne: the new purpose, the old name, refreshed
      update time. */
  method UpdatePurposeThenGetOne(svc: RobotService, id: int, purpose: string, now: Timestamp) returns (updated: Result<nat>, fetched: Result<Envelope>)
    requires svc.repo.Valid() && id in svc.repo.rows
    modifies svc.repo
    ensures updated == Ok(1)
    ensures fetched.Ok? && fetched.value.data.One?
    ensures fetched.value.data.attributes.purpose == purpose
    ensures fetched.value.data.attributes.name == old(svc.repo.rows[id].name)
    ensures fetched.value.data.attributes.updatedAt == now
  {
    updated := svc.UpdatePurpose(id, Some(purpose), now);
    fetched := svc.GetOne(id);
  }

  /** delete, then getOne and a second delete: both fail with NotFound. */
  method DeleteThenGetOne(svc: RobotService, id: int) returns (deleted: Result<nat>, fetched: Result<Envelope>, again: Result<nat>)
    requires svc.repo.Valid() && id in svc.repo.rows
    modifies svc.repo
    ensures deleted == Ok(1)
    ensures fetched == Fail(NotFound) && again == Fail(NotFound)
  {
    deleted := svc.Delete(id);
    fetched := svc.GetOne(id);
    again := svc.Delete(id);
  }

  /** DELETE twice on an existing id: 204 with no body, then 404. */
  method RemoveTwice(ctrl: RobotController, id: int) returns (first: Response, second: Response)
    requires ctrl.service.repo.Valid() && id in ctrl.service.repo.rows
    modifies ctrl.service.repo
    ensures first.status == 204 && first.body.None?
    ensures second.status == 404 && second.body.Some? && second.body.value.Problem?
    ensures second.body.value.error.detail == "Robot not found"
  {
    first := ctrl.Remove(id);
    second := ctrl.Remove(id);
  }

  /** A fresh service with an empty store, as the end-to-end scenarios start. */
  method NewController() returns (ctrl: RobotController)
    ensures fresh(ctrl) && fresh(ctrl.service) && fresh(ctrl.service.repo)
    ensures ctrl.service.repo.Valid() && ctrl.service.repo.rows == map[]
  {
    var repo := new RobotRepository();
    var svc := new RobotService(repo);
    ctrl := new RobotController(svc);
  }

  /** POST `{"name": "Yern", "purpose": "AI"}`: 201 and the name in the body. */
  method PostValidRobot(now: Timestamp) returns (resp: Response)
    ensures resp.status == 201 && resp.body.Some? && resp.body.value.Resource?
    ensures resp.body.value.envelope.data.One? && resp.body.value.envelope.data.attributes.name == "Yern"
  {
    var ctrl := NewController();
    var body := map["name" := "Yern", "purpose" := "AI"];
    Validator.CheckAcceptsExactlyRequired(body);
    resp := ctrl.Create(body, now);
  }

  /** POST with an extra `invalid` key: 422. */
  method PostExtraKey(now: Timestamp) returns (resp: Response)
    ensures resp.status == 422 && resp.body.Some? && resp.body.value.Problem?
  {
    var ctrl := NewController();
    var body := map["name" := "Yern", "purpose" := "AI", "invalid" := "No"];
    Validator.CheckRejectsUnexpectedKey(body, "invalid");
    resp := ctrl.Create(body, now);
  }

  /** PUT with an invalid body on an id that does not exist: 422, not 404. */
  method PutInvalidOnMissingId(now: Timestamp) returns (resp: Response)
    ensures resp.status == 422
  {
    var ctrl := NewController();
    var body := map["purpose" := "runner", "name" := "Marvin", "invalid" := "invalid-parameter"];
    Validator.CheckRejectsUnexpectedKey(body, "invalid");
    resp := ctrl.Update(body, 10000, now);
  }

  /** GET an id that does not exist: 404 with detail "Robot not found". */
  method GetMissingRobot() returns (resp: Response)
    ensures resp.status == 404 && resp.body.Some? && resp.body.value.Problem?
    ensures resp.body.value.error.detail == "Robot not found"
  {
    var ctrl := NewController();
    resp := ctrl.GetOne(100000);
  }
}
