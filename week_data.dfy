/**
 * The tracked data of one week (static/js/tracker.js:59-68): for each day
 * key an object mapping exercise ids to completion flags.
 *
 * A JavaScript object keeps its string keys in insertion order and
 * formatWeekText lists exercises in that order, so a day's flags are an
 * association list with unique ids rather than an unordered map.
 */
module WeekData {
  import opened Wrappers

  datatype Flag = Flag(id: string, done: bool)

  type DayState = seq<Flag>

  /** Day key (such as "monday") to that day's flags. */
  type WeekState = map<string, DayState>

  /** One archived week, as ensureCurrentWeek pushes it (lines 45-49). */
  datatype ArchiveEntry = ArchiveEntry(week: string, data: WeekState, archivedAt: string)

  function Ids(d: DayState): (r: seq<string>)
    ensures |r| == |d|
    ensures forall i :: 0 <= i < |d| ==> r[i] == d[i].id
  {
    if d == [] then [] else [d[0].id] + Ids(d[1..])
  }

  /** The ids of a day are distinct, as the keys of a JavaScript object are. */
  predicate UniqueIds(d: DayState) {
    forall i, j :: 0 <= i < j < |d| ==> d[i].id != d[j].id
  }

  predicate WellFormedWeek(s: WeekState) {
    forall day :: day in s ==> UniqueIds(s[day])
  }

  /** `dayState[id]`: the flag stored for id, if any. */
  function Lookup(d: DayState, id: string): (r: Option<bool>)
    ensures r.Some? <==> id in Ids(d)
  {
    if d == [] then None
    else if d[0].id == id then Some(d[0].done)
    else Lookup(d[1..], id)
  }

  /** The flag found is that of the first entry with the id. */
  lemma {:induction false} LookupFirst(d: DayState, id: string, i: int)
    requires 0 <= i < |d| && d[i].id == id
    requires forall j :: 0 <= j < i ==> d[j].id != id
    ensures Lookup(d, id) == Some(d[i].done)
  {
    if i > 0 {
      assert d[0].id != id;
      assert d[1..][i - 1] == d[i];
      LookupFirst(d[1..], id, i - 1);
    }
  }

  /** With distinct ids, every exercise reads back its own flag. */
  lemma LookupUnique(d: DayState, i: int)
    requires UniqueIds(d) && 0 <= i < |d|
    ensures Lookup(d, d[i].id) == Some(d[i].done)
  {
    LookupFirst(d, d[i].id, i);
  }

  /** `dayState[id] = v`: overwrites the flag of an existing id in its
      place, or appends a new id at the end. */
  function Assign(d: DayState, id: string, v: bool): DayState {
    if d == [] then [Flag(id, v)]
    else if d[0].id == id then [Flag(id, v)] + d[1..]
    else [d[0]] + Assign(d[1..], id, v)
  }

  /** After an assignment the id reads back the new value, and every other id reads as before. */
  lemma {:induction false} AssignLookup(d: DayState, id: string, v: bool, other: string)
    ensures Lookup(Assign(d, id, v), id) == Some(v)
    ensures other != id ==> Lookup(Assign(d, id, v), other) == Lookup(d, other)
  {
    if d != [] && d[0].id != id {
      AssignLookup(d[1..], id, v, other);
    }
  }

  /** Key order: an existing id keeps its place, a new one goes last. */
  lemma {:induction false} AssignIdsOrder(d: DayState, id: string, v: bool)
    ensures Ids(Assign(d, id, v)) == if id in Ids(d) then Ids(d) else Ids(d) + [id]
  {
    if d != [] && d[0].id != id {
      AssignIdsOrder(d[1..], id, v);
      assert Ids(d) == [d[0].id] + Ids(d[1..]);
      assert Ids(Assign(d, id, v)) == [d[0].id] + Ids(Assign(d[1..], id, v));
    } else if d != [] {
      assert Ids(Assign(d, id, v)) == [id] + Ids(d[1..]);
      assert Ids(d) == [d[0].id] + Ids(d[1..]);
    }
  }

  /** Ids stay distinct. */
  lemma AssignIds(d: DayState, id: string, v: bool)
    requires UniqueIds(d)
    ensures Ids(Assign(d, id, v)) == if id in Ids(d) then Ids(d) else Ids(d) + [id]
    ensures UniqueIds(Assign(d, id, v))
  {
    AssignIdsOrder(d, id, v);
    var r := Assign(d, id, v);
    var before, after := Ids(d), Ids(r);
    forall i, j | 0 <= i < j < |r|
      ensures r[i].id != r[j].id
    {
      assert after[i] == r[i].id && after[j] == r[j].id;
      if j < |d| {
        assert after[i] == before[i] == d[i].id && after[j] == before[j] == d[j].id;
      } else {
        assert id !in before && after[j] == id && after[i] == before[i];
      }
    }
  }

  /** setExerciseState's change to a week (lines 64-66): the day is created
      empty if missing, then the exercise's flag is set. */
  function SetFlag(s: WeekState, day: string, id: string, v: bool): WeekState {
    var dayState := if day in s then s[day] else [];
    s[day := Assign(dayState, id, v)]
  }

  /** The flag reads back, and no other exercise, day or key changes. */
  lemma SetFlagSpec(s: WeekState, day: string, id: string, v: bool)
    ensures var r := SetFlag(s, day, id, v);
      && r.Keys == s.Keys + {day}
      && Lookup(r[day], id) == Some(v)
      && (forall other :: other != id ==>
            Lookup(r[day], other) == if day in s then Lookup(s[day], other) else None)
      && (forall d :: d in s && d != day ==> r[d] == s[d])
  {
    var dayState := if day in s then s[day] else [];
    forall other | true
      ensures Lookup(Assign(dayState, id, v), id) == Some(v)
      ensures other != id ==> Lookup(Assign(dayState, id, v), other) == Lookup(dayState, other)
    {
      AssignLookup(dayState, id, v, other);
    }
  }

  lemma SetFlagWellFormed(s: WeekState, day: string, id: string, v: bool)
    requires WellFormedWeek(s)
    ensures WellFormedWeek(SetFlag(s, day, id, v))
  {
    AssignIds(if day in s then s[day] else [], id, v);
  }

  /** Flagging "pushups" on Monday of an empty week gives {monday: {pushups: true}}. */
  lemma SetFlagOnEmptyWeek()
    ensures SetFlag(map[], "monday", "pushups", true) == map["monday" := [Flag("pushups", true)]]
  {
  }
}
