/** The request-body check run by the controller before `create` and `update`
    (src/Validator/RobotValidator.ts). */
module Validator {
  import opened Outcomes
  import opened Entity
  import HttpStatus

  /** The keys a robot payload must carry, in the source's order. */
  const RequiredFields: seq<string> := ["name", "purpose"]

  /** The one failure the validator raises. */
  const InvalidParameters: Failure := Failure("Invalid parameters", HttpStatus.UNPROCESSABLE_ENTITY)

  /** The keys of `p` that are not required fields (the `filter` on the key list). */
  function UnexpectedKeys(p: Payload): set<string> {
    set k | k in p && k !in RequiredFields
  }

  /** Rule 1 rejects an empty or short payload; rule 2 rejects any key outside the
      required fields. An accepted payload is handed back unchanged. */
  function Check(p: Payload): (r: Result<Payload>)
    ensures r.Ok? ==> r.value == p
    ensures r.Fail? ==> r.failure == InvalidParameters
    ensures |p| < |RequiredFields| ==> r.Fail?
  {
    if |p| == 0 || |p| < |RequiredFields| then
      Fail(InvalidParameters)
    else if |UnexpectedKeys(p)| != 0 then
      Fail(InvalidParameters)
    else
      Ok(p)
  }

  /** Every rejection is 422 "Invalid parameters"; no other status can come out. */
  lemma CheckFailsOnlyWith422(p: Payload)
    ensures Check(p).Fail? ==> Check(p).failure.status == 422 && Check(p).failure.message == "Invalid parameters"
  {
  }

  /** The empty body is rejected. */
  lemma CheckRejectsEmpty()
    ensures Check(map[]) == Fail(InvalidParameters)
  {
  }

  /** A body with fewer than two keys, such as `{name}` alone, is rejected. */
  lemma CheckRejectsShort(p: Payload)
    requires |p| < 2
    ensures Check(p) == Fail(InvalidParameters)
  {
  }

  /** A body holding any key other than `name` and `purpose` is rejected,
      whatever else it holds. */
  lemma CheckRejectsUnexpectedKey(p: Payload, k: string)
    requires k in p && k != "name" && k != "purpose"
    ensures Check(p) == Fail(InvalidParameters)
  {
    assert k in UnexpectedKeys(p);
  }

  /** The two rules together: a body is accepted exactly when its key set is
      `{name, purpose}`, and then it comes back unchanged. */
  lemma CheckAcceptsExactlyRequired(p: Payload)
    ensures Check(p).Ok? <==> p.Keys == {"name", "purpose"}
    ensures Check(p).Ok? ==> Check(p) == Ok(p)
  {
    if Check(p).Ok? {
      assert UnexpectedKeys(p) == {};
      assert p.Keys <= {"name", "purpose"} by {
        forall k | k in p ensures k in {"name", "purpose"} {
          assert k !in UnexpectedKeys(p);
        }
      }
      if "name" !in p {
        assert p.Keys <= {"purpose"};
        SubsetOfSingletonIsSmall(p.Keys, "purpose");
        assert false;
      }
      if "purpose" !in p {
        assert p.Keys <= {"name"};
        SubsetOfSingletonIsSmall(p.Keys, "name");
        assert false;
      }
    }
    if p.Keys == {"name", "purpose"} {
      assert |p| == 2;
      assert UnexpectedKeys(p) == {};
    }
  }

  /** A set inside a singleton has at most one element. */
  lemma SubsetOfSingletonIsSmall(s: set<string>, x: string)
    requires s <= {x}
    ensures |s| <= 1
  {
    if x in s {
      assert s == {x};
    } else {
      assert s == {};
    }
  }

  /** The test scenario: `{name, purpose, invalid}` is turned away. */
  lemma CheckRejectsExtraParameter()
    ensures Check(map["name" := "Yern", "purpose" := "AI", "invalid" := "No"]).Fail?
  {
  }
}
