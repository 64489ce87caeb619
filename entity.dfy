/** The Robot entity and the transient values the pipeline passes around. */
module Entity {
  import opened Outcomes

  /** Store-assigned creation and update times, kept opaque. */
  type Timestamp = int

  /** A request body (or query string): field names mapped to their values. */
  type Payload = map<string, string>

  /** A persisted robot row: every column is set. */
  datatype Robot = Robot(id: int, name: string, purpose: string, createdAt: Timestamp, updatedAt: Timestamp)

  /** A fresh, unsaved `Robot` instance on which only `name` and `purpose` may be
      assigned; `id` and the timestamps are left to the store. */
  datatype RobotDraft = RobotDraft(name: Option<string>, purpose: Option<string>)

  /** Property access `payload[key]`: `undefined` (None) when the key is missing. */
  function Field(p: Payload, key: string): (v: Option<string>)
    ensures v.Some? <==> key in p
    ensures v.Some? ==> v.value == p[key]
  {
    if key in p then Some(p[key]) else None
  }
}
