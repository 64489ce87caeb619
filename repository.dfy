/** The persistence layer (src/Repository/RobotRepository.ts), modelled as an
    in-memory table: a map from id to row and the next value of the id
    sequence, in place of the ORM the source delegates to. */
module Repository {
  import opened Outcomes
  import opened Entity

  /** An equality filter (the query string): column name to required value. */
  type Filter = map<string, string>

  /** Value of a text column of a row; other names select no column. */
  function Column(r: Robot, column: string): Option<string> {
    if column == "name" then Some(r.name)
    else if column == "purpose" then Some(r.purpose)
    else None
  }

  /** `where: filter`: every filter entry equals the row's column. */
  predicate Matches(r: Robot, f: Filter) {
    forall column :: column in f ==> Column(r, column) == Some(f[column])
  }

  /** Rows are keyed by their own id. */
  ghost predicate KeyedById(rows: map<int, Robot>) {
    forall id :: id in rows ==> rows[id].id == id
  }

  /** The ids in `[lo, hi)` whose rows pass the filter. */
  ghost function MatchingIn(rows: map<int, Robot>, f: Filter, lo: int, hi: int): set<int> {
    set id | lo <= id < hi && id in rows && Matches(rows[id], f)
  }

  /** The ids of all rows that pass the filter. */
  ghost function MatchingIds(rows: map<int, Robot>, f: Filter): set<int> {
    set id | id in rows && Matches(rows[id], f)
  }

  /** The rows with ids in `[lo, hi)` that pass the filter, in increasing id order. */
  function Select(rows: map<int, Robot>, f: Filter, lo: int, hi: int): (s: seq<Robot>)
    requires KeyedById(rows)
    decreases hi - lo
    ensures forall i :: 0 <= i < |s| ==>
      lo <= s[i].id < hi && s[i].id in rows && rows[s[i].id] == s[i] && Matches(s[i], f)
    ensures forall id :: lo <= id < hi && id in rows && Matches(rows[id], f) ==> rows[id] in s
    ensures forall i, j :: 0 <= i < j < |s| ==> s[i].id < s[j].id
  {
    if lo >= hi then []
    else (if lo in rows && Matches(rows[lo], f) then [rows[lo]] else []) + Select(rows, f, lo + 1, hi)
  }

  /** `Select` lists each matching row exactly once. */
  lemma {:induction false} SelectCount(rows: map<int, Robot>, f: Filter, lo: int, hi: int)
    requires KeyedById(rows)
    decreases hi - lo
    ensures |Select(rows, f, lo, hi)| == |MatchingIn(rows, f, lo, hi)|
  {
    if lo >= hi {
      assert MatchingIn(rows, f, lo, hi) == {};
    } else {
      SelectCount(rows, f, lo + 1, hi);
      MatchingInStep(rows, f, lo, hi);
    }
  }

  /** Peeling the lowest id off the range. */
  lemma MatchingInStep(rows: map<int, Robot>, f: Filter, lo: int, hi: int)
    requires lo < hi
    ensures lo !in MatchingIn(rows, f, lo + 1, hi)
    ensures MatchingIn(rows, f, lo, hi) ==
      (if lo in rows && Matches(rows[lo], f) then {lo} else {}) + MatchingIn(rows, f, lo + 1, hi)
  {
    var all, rest := MatchingIn(rows, f, lo, hi), MatchingIn(rows, f, lo + 1, hi);
    var head: set<int> := if lo in rows && Matches(rows[lo], f) then {lo} else {};
    forall id ensures id in all <==> id in head + rest {
      if id in all { assert id == lo || id in rest; }
    }
  }

  /** With an empty filter every row matches. */
  lemma EmptyFilterMatchesAll(rows: map<int, Robot>)
    ensures MatchingIds(rows, map[]) == rows.Keys
  {
    forall id | id in rows ensures Matches(rows[id], map[]) {
    }
  }

  /** A row that `Update` writes: fields present on the draft overwrite the
      stored ones, absent ones are kept, and `updated_at` is refreshed. */
  function Overwrite(r: Robot, d: RobotDraft, now: Timestamp): (u: Robot)
    ensures u.id == r.id && u.createdAt == r.createdAt && u.updatedAt == now
    ensures u.name == (if d.name.Some? then d.name.value else r.name)
    ensures u.purpose == (if d.purpose.Some? then d.purpose.value else r.purpose)
  {
    Robot(r.id, d.name.GetOr(r.name), d.purpose.GetOr(r.purpose), r.createdAt, now)
  }

  class RobotRepository {
    /** The table: rows by id. */
    var rows: map<int, Robot>
    /** The next value the id sequence hands out. */
    var nextId: int
    /** Every id the sequence has handed out so far, deleted or not. */
    ghost var issued: set<int>

    /** Rows are keyed by id, every stored id was issued, and every issued id
        lies below the sequence's next value. */
    ghost predicate Valid()
      reads this
    {
      && 1 <= nextId
      && KeyedById(rows)
      && rows.Keys <= issued
      && (forall id :: id in issued ==> 1 <= id < nextId)
    }

    /** An empty table whose sequence starts at 1. */
    constructor ()
      ensures Valid()
      ensures rows == map[] && nextId == 1 && issued == {}
    {
      rows := map[];
      nextId := 1;
      issued := {};
    }

    /** `find({where: filter})`: exactly the rows that pass the filter, each
        once, none when nothing matches; `getAll({})` returns every row. */
    method GetAll(f: Filter) returns (robots: seq<Robot>)
      requires Valid()
      ensures forall i :: 0 <= i < |robots| ==>
        robots[i].id in rows && rows[robots[i].id] == robots[i] && Matches(robots[i], f)
      ensures forall id :: id in rows && Matches(rows[id], f) ==> rows[id] in robots
      ensures forall i, j :: 0 <= i < j < |robots| ==> robots[i].id < robots[j].id
      ensures |robots| == |MatchingIds(rows, f)|
    {
      robots := Select(rows, f, 1, nextId);
      SelectCount(rows, f, 1, nextId);
      assert MatchingIn(rows, f, 1, nextId) == MatchingIds(rows, f);
    }

    /** `findOne({where: {id}})`: the stored row, or null (None) on a miss. */
    method GetOne(id: int) returns (r: Option<Robot>)
      requires Valid()
      ensures r.Some? <==> id in rows
      ensures r.Some? ==> r.value == rows[id] && r.value.id == id
    {
      if id in rows {
        r := Some(rows[id]);
      } else {
        r := None;
      }
    }

    /** `save(robot)`: stores the draft under a fresh id with both timestamps set
        to `now` and returns the stored row. A draft missing `name` or `purpose`
        breaks the NOT NULL columns; the store then yields no record and the
        table is left as it was. */
    method Insert(d: RobotDraft, now: Timestamp) returns (r: Option<Robot>)
      requires Valid()
      modifies this
      ensures Valid()
      ensures r.Some? <==> d.name.Some? && d.purpose.Some?
      ensures r.Some? ==>
        && r.value == Robot(old(nextId), d.name.value, d.purpose.value, now, now)
        && old(nextId) !in old(issued)
        && rows == old(rows)[old(nextId) := r.value]
        && issued == old(issued) + {old(nextId)}
        && nextId == old(nextId) + 1
      ensures r.None? ==> unchanged(this)
    {
      if d.name.Some? && d.purpose.Some? {
        var row := Robot(nextId, d.name.value, d.purpose.value, now, now);
        rows := rows[nextId := row];
        issued := issued + {nextId};
        nextId := nextId + 1;
        r := Some(row);
      } else {
        r := None;
      }
    }

    /** `update(id, robot)`: overwrites the fields the draft carries on the row
        with that id and reports 1 affected row; 0 and no change for a missing id. */
    method Update(d: RobotDraft, id: int, now: Timestamp) returns (affected: nat)
      requires Valid()
      modifies this
      ensures Valid()
      ensures affected == if id in old(rows) then 1 else 0
      ensures rows == if id in old(rows) then old(rows)[id := Overwrite(old(rows)[id], d, now)] else old(rows)
      ensures nextId == old(nextId) && issued == old(issued)
    {
      if id in rows {
        rows := rows[id := Overwrite(rows[id], d, now)];
        affected := 1;
      } else {
        affected := 0;
      }
    }

    /** `update(id, {purpose})`: changes only `purpose` (and `updated_at`) of the
        row with that id, 1 affected; 0 and no change for a missing id. An
        undefined purpose leaves the column as it was. */
    method UpdatePurpose(id: int, purpose: Option<string>, now: Timestamp) returns (affected: nat)
      requires Valid()
      modifies this
      ensures Valid()
      ensures affected == if id in old(rows) then 1 else 0
      ensures rows == if id in old(rows) then old(rows)[id := Overwrite(old(rows)[id], RobotDraft(None, purpose), now)] else old(rows)
      ensures nextId == old(nextId) && issued == old(issued)
    {
      affected := Update(RobotDraft(None, purpose), id, now);
    }

    /** `delete(id)`: removes the row, 1 affected; 0 and no change for a
        missing id. The id stays issued, so it is never handed out again. */
    method Delete(id: int) returns (affected: nat)
      requires Valid()
      modifies this
      ensures Valid()
      ensures affected == if id in old(rows) then 1 else 0
      ensures rows == old(rows) - {id}
      ensures nextId == old(nextId) && issued == old(issued)
    {
      affected := if id in rows then 1 else 0;
      rows := rows - {id};
    }
  }
}
