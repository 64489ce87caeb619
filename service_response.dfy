/** The result envelope built by `ServiceResponse.transform`. Its source file is
    not part of this model: the shape below is the one the service tests
    observe (a single robot's fields under `data.attributes`; for a list, one
    entry per robot under `data.attributes`, each holding that robot's fields
    under its own `attributes`). */
module ServiceResponse {
  import opened Entity

  /** One entry of a collection envelope. */
  datatype Item = Item(attributes: Robot)

  /** The `data` section: a single entity, or the entries of a collection. */
  datatype Data = One(attributes: Robot) | Many(entries: seq<Item>)

  datatype Envelope = Envelope(data: Data)

  /** `transform(robot)`: the robot's fields, all of them, under `data.attributes`. */
  function TransformOne(r: Robot): (e: Envelope)
    ensures e.data.One?
    ensures e.data.attributes.id == r.id && e.data.attributes.name == r.name && e.data.attributes.purpose == r.purpose
    ensures e.data.attributes.createdAt == r.createdAt && e.data.attributes.updatedAt == r.updatedAt
  {
    Envelope(One(r))
  }

  /** `transform(robots)`: one entry per robot, in the order given, carrying
      that robot's fields. */
  function TransformAll(rs: seq<Robot>): (e: Envelope)
    ensures e.data.Many? && |e.data.entries| == |rs|
    ensures forall i :: 0 <= i < |rs| ==> e.data.entries[i].attributes == rs[i]
  {
    Envelope(Many(seq(|rs|, i requires 0 <= i < |rs| => Item(rs[i]))))
  }
}
