/** The whitelisting field copy that turns a request body into a fresh, unsaved
    robot (src/Builder/RobotBuilder.ts). */
module Builder {
  import opened Outcomes
  import opened Entity
  import Validator

  /** Copies `name` and `purpose` (each possibly undefined) onto a new robot;
      every other key of the body is dropped. */
  function Build(p: Payload): (d: RobotDraft)
    ensures "name" in p ==> d.name == Some(p["name"])
    ensures "name" !in p ==> d.name == None
    ensures "purpose" in p ==> d.purpose == Some(p["purpose"])
    ensures "purpose" !in p ==> d.purpose == None
  {
    RobotDraft(Field(p, "name"), Field(p, "purpose"))
  }

  /** The draft seen again as a plain object: its defined fields as keys. */
  function DraftPayload(d: RobotDraft): (p: Payload)
    ensures p.Keys <= {"name", "purpose"}
    ensures "name" in p <==> d.name.Some?
    ensures "purpose" in p <==> d.purpose.Some?
  {
    var withName: Payload := if d.name.Some? then map["name" := d.name.value] else map[];
    if d.purpose.Some? then withName["purpose" := d.purpose.value] else withName
  }

  /** Whitelisting: two bodies that agree on `name` and `purpose` build the same
      draft, whatever other keys (an `id`, timestamps, anything) they carry. */
  lemma BuildIgnoresOtherKeys(p: Payload, q: Payload)
    requires Field(p, "name") == Field(q, "name")
    requires Field(p, "purpose") == Field(q, "purpose")
    ensures Build(p) == Build(q)
  {
  }

  /** Building from a built robot gives back the same name and purpose. */
  lemma BuildIdempotent(p: Payload)
    ensures Build(DraftPayload(Build(p))) == Build(p)
  {
  }

  /** A body the validator accepts builds a draft with both fields set to the
      body's values. */
  lemma BuildOfValidated(p: Payload)
    requires Validator.Check(p).Ok?
    ensures "name" in p && "purpose" in p
    ensures Build(p) == RobotDraft(Some(p["name"]), Some(p["purpose"]))
  {
    Validator.CheckAcceptsExactlyRequired(p);
  }
}
