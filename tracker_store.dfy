/**
 * The tracker's persistent state and the operations on it
 * (static/js/tracker.js:4-68, 102-116): the stored current week, the
 * archive of past weeks and one tracker object per week, each under its
 * own storage key.
 */
module Tracker {
  import opened Wrappers
  import opened WeekData
  import IsoWeek
  import LogText

  // ---- Storage keys (lines 4-10)

  const CurrentWeekKey: string := "winterarc_current_week"
  const ArchiveKey: string := "winterarc_archive"

  function TrackerKey(week: string): string {
    "winterarc_tracker_" + week
  }

  /** The three kinds of key never collide, and each week has its own tracker
      key, so the store can be kept as three separately typed parts. */
  lemma StorageKeysDistinct(w1: string, w2: string)
    ensures TrackerKey(w1) != CurrentWeekKey && TrackerKey(w1) != ArchiveKey && CurrentWeekKey != ArchiveKey
    ensures TrackerKey(w1) == TrackerKey(w2) <==> w1 == w2
  {
    assert TrackerKey(w1)[10] == 't' != CurrentWeekKey[10];
    assert ArchiveKey[10] == 'a' != TrackerKey(w1)[10];
    if TrackerKey(w1) == TrackerKey(w2) {
      assert w1 == TrackerKey(w1)[18..] == TrackerKey(w2)[18..] == w2;
    }
  }

  // ---- Load-or-default (getJSON, lines 23-30)

  /** A stored JSON value as a reader sees it. `Unreadable` is an empty
      string or text that does not parse. */
  datatype Slot<T> = Absent | Unreadable | Holds(value: T)

  /** The value held, or None when it is missing, empty or unparseable. */
  function Load<T>(s: Slot<T>): (r: Option<T>)
    ensures r.Some? <==> s.Holds?
    ensures s.Holds? ==> r.value == s.value
  {
    if s.Holds? then Some(s.value) else None
  }

  /** getJSON: the value held, else the fallback. */
  function GetJSON<T>(s: Slot<T>, fallback: T): (r: T)
    ensures Load(s).Some? ==> r == Load(s).value
    ensures Load(s).None? ==> r == fallback
  {
    match Load(s)
    case Some(v) => v
    case None => fallback
  }

  // ---- The store as a value

  datatype Storage = Storage(
    storedWeek: Option<string>,
    archive: Slot<seq<ArchiveEntry>>,
    trackers: map<string, Slot<WeekState>>)

  function TrackerSlot(s: Storage, week: string): Slot<WeekState> {
    if week in s.trackers then s.trackers[week] else Absent
  }

  /** getTrackerState (lines 59-61). */
  function TrackerState(s: Storage, week: string): WeekState {
    GetJSON(TrackerSlot(s, week), map[])
  }

  function ArchiveOf(s: Storage): seq<ArchiveEntry> {
    GetJSON(s.archive, [])
  }

  /** Every day object held has distinct exercise ids, as a parsed JSON object has. */
  predicate WellFormed(s: Storage) {
    && (s.archive.Holds? ==> forall i :: 0 <= i < |s.archive.value| ==> WellFormedWeek(s.archive.value[i].data))
    && (forall w :: w in s.trackers && s.trackers[w].Holds? ==> WellFormedWeek(s.trackers[w].value))
  }

  /** In a well-formed store every stored exercise reads back its own flag. */
  lemma StoredFlagsReadBack(s: Storage, week: string, day: string, i: int)
    requires WellFormed(s) && day in TrackerState(s, week) && 0 <= i < |TrackerState(s, week)[day]|
    ensures var d := TrackerState(s, week)[day]; Lookup(d, d[i].id) == Some(d[i].done)
  {
    LookupUnique(TrackerState(s, week)[day], i);
  }

  /** `storedWeek && storedWeek !== currentWeek` (line 41). */
  predicate IsBoundary(s: Storage, currentWeek: string) {
    s.storedWeek.Some? && s.storedWeek.value != "" && s.storedWeek.value != currentWeek
  }

  /** ensureCurrentWeek's effect (lines 37-57) for the week key computed from today's date. */
  function Rollover(s: Storage, currentWeek: string, archivedAt: string): Storage {
    var moved :=
      if IsBoundary(s, currentWeek) then
        var oldWeek := s.storedWeek.value;
        var oldData := TrackerState(s, oldWeek);
        var archived :=
          if |oldData| > 0 then s.(archive := Holds(ArchiveOf(s) + [ArchiveEntry(oldWeek, oldData, archivedAt)]))
          else s;
        archived.(trackers := archived.trackers - {oldWeek})
      else s;
    moved.(storedWeek := Some(currentWeek))
  }

  /** The stored week always ends as the current week. */
  lemma RolloverSetsCurrentWeek(s: Storage, c: string, at: string)
    ensures Rollover(s, c, at).storedWeek == Some(c)
  {
  }

  /** A second call in the same week changes nothing: it arrives with that week stored. */
  lemma RolloverIdempotent(s: Storage, c: string, at1: string, at2: string)
    ensures Rollover(Rollover(s, c, at1), c, at2) == Rollover(s, c, at1)
  {
  }

  /** Crossing into a new week from a week with at least one day key archives
      that week's data at the end; earlier entries stay as they were. */
  lemma RolloverArchivesOldWeek(s: Storage, c: string, at: string)
    requires IsBoundary(s, c) && |TrackerState(s, s.storedWeek.value)| > 0
    ensures var r := Rollover(s, c, at);
      && r.archive.Holds?
      && ArchiveOf(r) == ArchiveOf(s) + [ArchiveEntry(s.storedWeek.value, TrackerState(s, s.storedWeek.value), at)]
  {
  }

  /** On a boundary the old week's tracker is always removed and no other week's is touched. */
  lemma RolloverRemovesOldTracker(s: Storage, c: string, at: string)
    requires IsBoundary(s, c)
    ensures var r := Rollover(s, c, at);
      && TrackerSlot(r, s.storedWeek.value) == Absent
      && forall w :: w != s.storedWeek.value ==> TrackerSlot(r, w) == TrackerSlot(s, w)
  {
  }

  /** A week with no day keys is dropped without an archive entry; a day key
      with no exercises still counts as a day. */
  lemma RolloverSkipsEmptyWeek(s: Storage, c: string, at: string)
    requires IsBoundary(s, c)
    ensures TrackerState(s, s.storedWeek.value) == map[] ==> Rollover(s, c, at).archive == s.archive
    ensures forall day :: day in TrackerState(s, s.storedWeek.value) ==> |ArchiveOf(Rollover(s, c, at))| == |ArchiveOf(s)| + 1
  {
    var oldData := TrackerState(s, s.storedWeek.value);
    forall day | day in oldData
      ensures |ArchiveOf(Rollover(s, c, at))| == |ArchiveOf(s)| + 1
    {
      assert |oldData| > 0;
    }
  }

  /** Without a stored week (first run, or an empty value) or in the same
      week, only the stored week is written. */
  lemma RolloverWithoutBoundary(s: Storage, c: string, at: string)
    requires !IsBoundary(s, c)
    ensures Rollover(s, c, at) == s.(storedWeek := Some(c))
  {
  }

  /** The archive only ever grows at its end, by at most one entry. An unreadable archive reads as empty, so its text is replaced. */
  lemma RolloverAppendOnly(s: Storage, c: string, at: string)
    ensures ArchiveOf(s) <= ArchiveOf(Rollover(s, c, at))
    ensures |ArchiveOf(Rollover(s, c, at))| <= |ArchiveOf(s)| + 1
  {
  }

  /** The current week's own tracker is never touched by a rollover. */
  lemma RolloverKeepsCurrentTracker(s: Storage, c: string, at: string)
    ensures TrackerSlot(Rollover(s, c, at), c) == TrackerSlot(s, c)
  {
  }

  /** At most one week is live: every tracker key is the (non-empty) stored week. */
  ghost predicate AtMostOneLive(s: Storage) {
    forall w :: w in s.trackers ==> w != "" && s.storedWeek == Some(w)
  }

  lemma RolloverKeepsOneLive(s: Storage, c: string, at: string)
    requires AtMostOneLive(s)
    ensures AtMostOneLive(Rollover(s, c, at))
  {
  }

  lemma RolloverWellFormed(s: Storage, c: string, at: string)
    requires WellFormed(s)
    ensures WellFormed(Rollover(s, c, at))
  {
    var r := Rollover(s, c, at);
    if IsBoundary(s, c) && |TrackerState(s, s.storedWeek.value)| > 0 {
      var entries := r.archive.value;
      forall i | 0 <= i < |entries|
        ensures WellFormedWeek(entries[i].data)
      {
        if i < |ArchiveOf(s)| {
          assert entries[i] == ArchiveOf(s)[i];
        }
      }
    }
  }

  /** setExerciseState's effect (lines 63-68): only the week's tracker changes. */
  function SetExercise(s: Storage, week: string, day: string, id: string, checked: bool): Storage {
    s.(trackers := s.trackers[week := Holds(SetFlag(TrackerState(s, week), day, id, checked))])
  }

  /** The flag reads back; every other exercise, day, week, the archive and the stored week are unchanged. */
  lemma SetExerciseSpec(s: Storage, week: string, day: string, id: string, checked: bool)
    ensures var r := SetExercise(s, week, day, id, checked);
      && r.storedWeek == s.storedWeek && r.archive == s.archive
      && day in TrackerState(r, week)
      && Lookup(TrackerState(r, week)[day], id) == Some(checked)
      && (forall other :: other != id ==>
            Lookup(TrackerState(r, week)[day], other)
            == if day in TrackerState(s, week) then Lookup(TrackerState(s, week)[day], other) else None)
      && (forall d :: d in TrackerState(s, week) && d != day ==> TrackerState(r, week)[d] == TrackerState(s, week)[d])
      && TrackerState(r, week).Keys == TrackerState(s, week).Keys + {day}
      && (forall w :: w != week ==> TrackerSlot(r, w) == TrackerSlot(s, w))
  {
    SetFlagSpec(TrackerState(s, week), day, id, checked);
  }

  lemma SetExerciseKeepsOneLive(s: Storage, week: string, day: string, id: string, checked: bool)
    requires AtMostOneLive(s) && week != "" && s.storedWeek == Some(week)
    ensures AtMostOneLive(SetExercise(s, week, day, id, checked))
  {
  }

  lemma SetExerciseWellFormed(s: Storage, week: string, day: string, id: string, checked: bool)
    requires WellFormed(s)
    ensures WellFormed(SetExercise(s, week, day, id, checked))
  {
    SetFlagWellFormed(TrackerState(s, week), day, id, checked);
  }

  // ---- The store as the script changes it

  class TrackerStore {
    var storedWeek: Option<string>
    var archive: Slot<seq<ArchiveEntry>>
    var trackers: map<string, Slot<WeekState>>

    function State(): Storage
      reads this
    {
      Storage(storedWeek, archive, trackers)
    }

    /** Distinct exercise ids per day, as the keys of a parsed JSON object
        are; this is what makes a day's association list a faithful
        encoding of an object (see StoredFlagsReadBack). */
    ghost predicate Valid()
      reads this
    {
      WellFormed(State())
    }

    constructor (initial: Storage)
      requires WellFormed(initial)
      ensures Valid() && State() == initial
    {
      storedWeek := initial.storedWeek;
      archive := initial.archive;
      trackers := initial.trackers;
    }

    /** getTrackerState (lines 59-61). */
    function GetTrackerState(week: string): (r: WeekState)
      reads this
      ensures week !in trackers || !trackers[week].Holds? ==> r == map[]
      ensures week in trackers && trackers[week].Holds? ==> r == trackers[week].value
    {
      GetJSON(if week in trackers then trackers[week] else Absent, map[])
    }

    /** The storage steps of ensureCurrentWeek (lines 39-55) once the current week's key is known. */
    method RollOverTo(currentWeek: string, archivedAt: string)
      requires Valid()
      modifies this
      ensures Valid()
      ensures State() == Rollover(old(State()), currentWeek, archivedAt)
    {
      ghost var s := State();
      var stored := storedWeek;
      if stored.Some? && stored.value != "" && stored.value != currentWeek {
        var oldData := GetTrackerState(stored.value);
        if |oldData| > 0 {
          var entries := GetJSON(archive, []);
          entries := entries + [ArchiveEntry(stored.value, oldData, archivedAt)];
          archive := Holds(entries);
        }
        trackers := trackers - {stored.value};
      }
      storedWeek := Some(currentWeek);
      RolloverWellFormed(s, currentWeek, archivedAt);
    }

    /** ensureCurrentWeek (lines 37-57), with today's date and the archive timestamp as parameters. */
    method EnsureCurrentWeek(year: int, month: int, day: int, archivedAt: string) returns (currentWeek: string)
      requires Valid() && IsoWeek.ValidDate(year, month, day)
      modifies this
      ensures Valid()
      ensures currentWeek == IsoWeek.GetCurrentWeekKey(year, month, day)
      ensures State() == Rollover(old(State()), currentWeek, archivedAt)
    {
      currentWeek := IsoWeek.GetCurrentWeekKey(year, month, day);
      RollOverTo(currentWeek, archivedAt);
    }

    /** setExerciseState (lines 63-68). */
    method SetExerciseState(week: string, day: string, exerciseId: string, checked: bool)
      requires Valid()
      modifies this
      ensures Valid()
      ensures State() == SetExercise(old(State()), week, day, exerciseId, checked)
      ensures Lookup(GetTrackerState(week)[day], exerciseId) == Some(checked)
    {
      ghost var s := State();
      var state := GetTrackerState(week);
      assert state == TrackerState(s, week);
      ghost var expected := SetFlag(state, day, exerciseId, checked);
      if day !in state {
        state := state[day := []];
      }
      state := state[day := Assign(state[day], exerciseId, checked)];
      assert state == expected;
      trackers := trackers[week := Holds(state)];
      SetExerciseSpec(s, week, day, exerciseId, checked);
      SetExerciseWellFormed(s, week, day, exerciseId, checked);
    }

    /** exportLog's text (lines 102-116) and download name (line 123); the
        export time is a parameter. */
    method ExportLog(currentWeekKey: string, exportedAt: string) returns (text: string, fileName: string)
      ensures text == LogText.ExportText(exportedAt, currentWeekKey, GetTrackerState(currentWeekKey), ArchiveOf(State()))
      ensures fileName == LogText.ExportFileName(currentWeekKey)
    {
      var entries := GetJSON(archive, []);
      var currentData := GetTrackerState(currentWeekKey);
      text := LogText.Title + "\n" + "Exported: " + exportedAt + "\n" + LogText.Separator + "\n\n";
      var current := LogText.FormatWeekText(currentWeekKey, currentData, true);
      text := text + current;
      ghost var prefix := text;
      var i := |entries|;
      while i > 0
        invariant 0 <= i <= |entries|
        invariant text == prefix + LogText.ArchiveBlocks(entries[i..])
      {
        i := i - 1;
        var block := LogText.FormatWeekText(entries[i].week, entries[i].data, false);
        LogText.ArchiveBlocksStep(entries, i);
        text := text + block;
      }
      assert entries[0..] == entries;
      fileName := "winter-arc-log-" + currentWeekKey + ".txt";
    }
  }
}
