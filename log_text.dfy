/**
 * The plain-text log: formatWeekText (static/js/tracker.js:130-153) and the
 * text that exportLog assembles (static/js/tracker.js:102-116).
 *
 * A week block is specified as a sequence of lines, each written out
 * followed by a newline; FormatWeekText builds the same text with the
 * script's loops and its `hasAny` flag.
 */
module LogText {
  import opened WeekData

  /** The fixed order in which day sections appear. */
  const Days: seq<string> := ["monday", "tuesday", "wednesday", "thursday", "friday"]
  const Rule: string := "------------------------------"
  const Placeholder: string := "  (no exercises tracked)"

  function UpperAscii(c: char): char {
    if 'a' <= c <= 'z' then (c as int - 32) as char else c
  }

  /** `s.charAt(0).toUpperCase() + s.slice(1)` for an ASCII word. */
  function Capitalize(s: string): (r: string)
    ensures |r| == |s|
    ensures s != [] ==> r[0] == UpperAscii(s[0]) && r[1..] == s[1..]
  {
    if s == [] then [] else [UpperAscii(s[0])] + s[1..]
  }

  /** `s.replace(/-/g, ' ')`. */
  function HyphensToSpaces(s: string): (r: string)
    ensures |r| == |s|
    ensures forall i :: 0 <= i < |s| ==> r[i] == if s[i] == '-' then ' ' else s[i]
  {
    if s == [] then [] else [if s[0] == '-' then ' ' else s[0]] + HyphensToSpaces(s[1..])
  }

  function Mark(done: bool): string {
    if done then "[x]" else "[ ]"
  }

  /** `WEEK: <key>`, then ` (current)` exactly for the current week. */
  function HeaderLine(key: string, isCurrent: bool): (r: string)
    ensures |r| == 6 + |key| + (if isCurrent then 10 else 0)
    ensures r[..6] == "WEEK: " && r[6..6 + |key|] == key
    ensures r[6 + |key|..] == if isCurrent then " (current)" else ""
    ensures r == "WEEK: " + key + " (current)" <==> isCurrent
  {
    var r := "WEEK: " + key + (if isCurrent then " (current)" else "");
    assert r[6 + |key|..] == if isCurrent then " (current)" else "";
    r
  }

  function DayHeader(day: string): (r: string)
    ensures |r| == |day| + 3
  {
    "  " + Capitalize(day) + ":"
  }

  /** `'  ' + Day + ':'`: two spaces, the day with its first letter in upper case, a colon. */
  lemma DayHeaderShape(day: string)
    ensures var r := DayHeader(day);
      && r[..2] == "  " && r[0] == ' ' && r[|r| - 1] == ':'
      && (day != [] ==> r[2] == UpperAscii(day[0]) && r[3..|r| - 1] == day[1..])
  {
    var r := DayHeader(day);
    assert r[2..|r| - 1] == Capitalize(day);
  }

  /** Capitalisation keeps distinct lower-case words distinct. */
  lemma DayHeaderInjective(a: string, b: string)
    requires a != [] && b != [] && 'a' <= a[0] <= 'z' && 'a' <= b[0] <= 'z'
    requires DayHeader(a) == DayHeader(b)
    ensures a == b
  {
    var ha, hb := DayHeader(a), DayHeader(b);
    DayHeaderShape(a);
    DayHeaderShape(b);
    assert |a| == |b|;
    assert UpperAscii(a[0]) == ha[2] == hb[2] == UpperAscii(b[0]);
    forall k | 1 <= k < |a|
      ensures a[k] == b[k]
    {
      assert ha[3..|ha| - 1][k - 1] == a[k] && hb[3..|hb| - 1][k - 1] == b[k];
    }
  }

  /** One exercise: `[x]` exactly when its flag is set, then its id with hyphens as spaces. */
  function ExerciseLine(f: Flag): (r: string)
    ensures |r| == 8 + |f.id| && r[..4] == "    " && r[2] == ' ' && r[7] == ' '
    ensures r[4..7] == "[x]" <==> f.done
    ensures r[4..7] == "[ ]" <==> !f.done
    ensures r[8..] == HyphensToSpaces(f.id) && '-' !in r[8..]
  {
    var r := "    " + Mark(f.done) + " " + HyphensToSpaces(f.id);
    assert r[4..7] == Mark(f.done);
    assert r[8..] == HyphensToSpaces(f.id);
    r
  }

  function ExerciseLines(d: DayState): seq<string> {
    if d == [] then [] else ExerciseLines(d[..|d| - 1]) + [ExerciseLine(d[|d| - 1])]
  }

  function DayLines(day: string, d: DayState): seq<string> {
    [DayHeader(day)] + ExerciseLines(d)
  }

  /** The sections of the days of `days` that have a key in the week, in the order of `days`. */
  function SectionLines(data: WeekState, days: seq<string>): seq<string> {
    if days == [] then [] else SectionLines(data, days[..|days| - 1]) + DaySection(data, days[|days| - 1])
  }

  /** `if (data[day])`: a day with a key gets a section, even with no exercises. */
  function DaySection(data: WeekState, day: string): seq<string> {
    if day in data then DayLines(day, data[day]) else []
  }

  predicate AnyDay(data: WeekState, days: seq<string>) {
    exists i :: 0 <= i < |days| && days[i] in data
  }

  /** The lines of one week block. */
  function WeekLines(key: string, data: WeekState, isCurrent: bool): seq<string> {
    [HeaderLine(key, isCurrent), Rule]
    + SectionLines(data, Days)
    + (if AnyDay(data, Days) then [] else [Placeholder])
    + [""]
  }

  /** Each line followed by a newline. */
  function Unlines(ls: seq<string>): string {
    if ls == [] then "" else Unlines(ls[..|ls| - 1]) + ls[|ls| - 1] + "\n"
  }

  function WeekText(key: string, data: WeekState, isCurrent: bool): string {
    Unlines(WeekLines(key, data, isCurrent))
  }

  lemma {:induction false} UnlinesAppend(a: seq<string>, b: seq<string>)
    ensures Unlines(a + b) == Unlines(a) + Unlines(b)
    decreases |b|
  {
    if b == [] {
      assert a + b == a;
    } else {
      var c, last := b[..|b| - 1], b[|b| - 1];
      assert (a + b)[..|a + b| - 1] == a + c;
      assert (a + b)[|a + b| - 1] == last;
      calc {
        Unlines(a + b);
        Unlines(a + c) + last + "\n";
        { UnlinesAppend(a, c); }
        Unlines(a) + Unlines(c) + last + "\n";
        Unlines(a) + Unlines(b);
      }
    }
  }

  lemma UnlinesSnoc(ls: seq<string>, l: string)
    ensures Unlines(ls + [l]) == Unlines(ls) + l + "\n"
  {
    assert (ls + [l])[..|ls|] == ls;
  }

  lemma ExerciseLinesPrefix(d: DayState, k: int)
    requires 0 <= k < |d|
    ensures ExerciseLines(d[..k + 1]) == ExerciseLines(d[..k]) + [ExerciseLine(d[k])]
  {
    assert d[..k + 1][..k] == d[..k];
  }

  /** Every flag of a day gets exactly one line, in key order. */
  lemma {:induction false} ExerciseLinesIndex(d: DayState)
    ensures |ExerciseLines(d)| == |d|
    ensures forall k :: 0 <= k < |d| ==> ExerciseLines(d)[k] == ExerciseLine(d[k])
  {
    if d != [] {
      var init := d[..|d| - 1];
      ExerciseLinesIndex(init);
      assert forall k :: 0 <= k < |init| ==> init[k] == d[k];
    }
  }

  /** A header line followed by lines of its own. */
  lemma UnlinesCons(h: string, ls: seq<string>)
    ensures Unlines([h] + ls) == h + "\n" + Unlines(ls)
  {
    UnlinesAppend([h], ls);
    UnlinesSnoc([], h);
    assert [] + [h] == [h];
  }

  /** The section of one present day: its header, then one line per exercise in key order (lines 139-143). */
  method FormatDay(day: string, exercises: DayState) returns (text: string)
    ensures text == Unlines(DayLines(day, exercises))
  {
    var header := "  " + Capitalize(day) + ":";
    var lines := "";
    for k := 0 to |exercises|
      invariant lines == Unlines(ExerciseLines(exercises[..k]))
    {
      var mark := if exercises[k].done then "[x]" else "[ ]";
      var line := "    " + mark + " " + HyphensToSpaces(exercises[k].id);
      assert line == ExerciseLine(exercises[k]);
      ExerciseLinesPrefix(exercises, k);
      UnlinesSnoc(ExerciseLines(exercises[..k]), line);
      lines := lines + line + "\n";
    }
    assert exercises[..|exercises|] == exercises;
    UnlinesCons(DayHeader(day), ExerciseLines(exercises));
    text := header + "\n" + lines;
  }

  lemma SectionLinesPrefix(data: WeekState, days: seq<string>, i: int)
    requires 0 <= i < |days|
    ensures SectionLines(data, days[..i + 1]) == SectionLines(data, days[..i]) + DaySection(data, days[i])
  {
    assert days[..i + 1][..i] == days[..i];
  }

  lemma AnyDayPrefix(data: WeekState, days: seq<string>, i: int)
    requires 0 <= i < |days|
    ensures AnyDay(data, days[..i + 1]) <==> AnyDay(data, days[..i]) || days[i] in data
  {
    if AnyDay(data, days[..i]) {
      var j :| 0 <= j < i && days[..i][j] in data;
      assert days[..i + 1][j] in data;
    }
    if AnyDay(data, days[..i + 1]) {
      var j :| 0 <= j < i + 1 && days[..i + 1][j] in data;
      if j < i {
        assert days[..i][j] in data;
      }
    }
    if days[i] in data {
      assert days[..i + 1][i] in data;
    }
  }

  /** A present day adds its section to the text built so far. */
  lemma PresentDayStep(data: WeekState, days: seq<string>, i: int)
    requires 0 <= i < |days| && days[i] in data
    ensures Unlines(SectionLines(data, days[..i + 1]))
         == Unlines(SectionLines(data, days[..i])) + Unlines(DayLines(days[i], data[days[i]]))
  {
    SectionLinesPrefix(data, days, i);
    UnlinesAppend(SectionLines(data, days[..i]), DayLines(days[i], data[days[i]]));
  }

  /** The `days.forEach` loop of formatWeekText (lines 136-145): the present
      days' sections in the order of `days`, and whether any day was present. */
  method FormatSections(data: WeekState, days: seq<string>) returns (text: string, hasAny: bool)
    ensures text == Unlines(SectionLines(data, days))
    ensures hasAny <==> AnyDay(data, days)
  {
    text := "";
    hasAny := false;
    for i := 0 to |days|
      invariant text == Unlines(SectionLines(data, days[..i]))
      invariant hasAny <==> AnyDay(data, days[..i])
    {
      var day := days[i];
      AnyDayPrefix(data, days, i);
      SectionLinesPrefix(data, days, i);
      if day in data {
        hasAny := true;
        var section := FormatDay(day, data[day]);
        PresentDayStep(data, days, i);
        text := text + section;
      } else {
        assert SectionLines(data, days[..i + 1]) == SectionLines(data, days[..i]);
      }
    }
    assert days[..|days|] == days;
  }

  lemma UnlinesPair(a: string, b: string)
    ensures Unlines([a, b]) == a + "\n" + b + "\n"
  {
    UnlinesSnoc([], a);
    UnlinesSnoc([a], b);
    assert [a] + [b] == [a, b];
  }

  lemma UnlinesBlock(header: string, rule: string, sections: seq<string>, tail: seq<string>)
    ensures Unlines([header, rule] + sections + tail + [""])
         == header + "\n" + rule + "\n" + Unlines(sections) + Unlines(tail) + "\n"
  {
    var top := [header, rule];
    var t, s, x := Unlines(top), Unlines(sections), Unlines(tail);
    calc {
      Unlines(top + sections + tail + [""]);
      { UnlinesSnoc(top + sections + tail, ""); }
      Unlines(top + sections + tail) + "" + "\n";
      { assert Unlines(top + sections + tail) + "" == Unlines(top + sections + tail); }
      Unlines(top + sections + tail) + "\n";
      { UnlinesAppend(top + sections, tail); UnlinesAppend(top, sections); }
      t + s + x + "\n";
      { UnlinesPair(header, rule); }
      header + "\n" + rule + "\n" + s + x + "\n";
    }
  }

  /** A week block written out: header, rule, the day sections, the
      placeholder when no day is present, and a closing blank line. */
  lemma WeekTextSplit(key: string, data: WeekState, isCurrent: bool)
    ensures WeekText(key, data, isCurrent)
         == HeaderLine(key, isCurrent) + "\n" + Rule + "\n" + Unlines(SectionLines(data, Days))
            + (if AnyDay(data, Days) then "" else Placeholder + "\n") + "\n"
  {
    var tail: seq<string> := if AnyDay(data, Days) then [] else [Placeholder];
    UnlinesBlock(HeaderLine(key, isCurrent), Rule, SectionLines(data, Days), tail);
    UnlinesSnoc([], Placeholder);
  }

  /** formatWeekText (lines 130-153). */
  method FormatWeekText(weekKey: string, data: WeekState, isCurrent: bool) returns (text: string)
    ensures text == WeekText(weekKey, data, isCurrent)
  {
    var header := "WEEK: " + weekKey + (if isCurrent then " (current)" else "");
    var sections, hasAny := FormatSections(data, Days);
    var tail := if hasAny then "" else Placeholder + "\n";
    text := header + "\n" + Rule + "\n" + sections + tail + "\n";
    WeekTextSplit(weekKey, data, isCurrent);
  }

  // ---- What a week block says

  lemma AppendAssoc<T>(x: seq<T>, y: seq<T>, z: seq<T>)
    ensures (x + y) + z == x + (y + z)
  {
  }

  lemma InitOfAppend<T>(a: seq<T>, b: seq<T>)
    requires b != []
    ensures (a + b)[..|a + b| - 1] == a + b[..|b| - 1] && (a + b)[|a + b| - 1] == b[|b| - 1]
  {
  }

  lemma {:induction false} SectionLinesAppend(data: WeekState, a: seq<string>, b: seq<string>)
    ensures SectionLines(data, a + b) == SectionLines(data, a) + SectionLines(data, b)
    decreases |b|
  {
    if b == [] {
      assert a + b == a;
    } else {
      var c := b[..|b| - 1];
      InitOfAppend(a, b);
      SectionLinesAppend(data, a, c);
      var sa, sc, sl := SectionLines(data, a), SectionLines(data, c), DaySection(data, b[|b| - 1]);
      assert SectionLines(data, a + b) == (sa + sc) + sl;
      AppendAssoc(sa, sc, sl);
    }
  }

  /** Each present day of `days` contributes its header. */
  lemma {:induction false} PresentDayHeader(data: WeekState, days: seq<string>, i: int)
    requires 0 <= i < |days| && days[i] in data
    ensures DayHeader(days[i]) in SectionLines(data, days)
    decreases |days|
  {
    var n := |days| - 1;
    if i < n {
      PresentDayHeader(data, days[..n], i);
    } else {
      assert DayHeader(days[i]) == DayLines(days[i], data[days[i]])[0];
    }
  }

  /** Every line of the day sections is the header of a present day or the
      line of one of that day's exercises. */
  lemma {:induction false} SectionLineKinds(data: WeekState, days: seq<string>, l: string)
    requires l in SectionLines(data, days)
    ensures || (exists i :: 0 <= i < |days| && days[i] in data && l == DayHeader(days[i]))
            || (exists i, j :: 0 <= i < |days| && days[i] in data && 0 <= j < |data[days[i]]|
                  && l == ExerciseLine(data[days[i]][j]))
    decreases |days|
  {
    var n := |days| - 1;
    var day := days[n];
    if l in SectionLines(data, days[..n]) {
      SectionLineKinds(data, days[..n], l);
      if exists i :: 0 <= i < n && days[..n][i] in data && l == DayHeader(days[..n][i]) {
        var i :| 0 <= i < n && days[..n][i] in data && l == DayHeader(days[..n][i]);
        assert days[i] == days[..n][i];
      } else {
        var i, j :| 0 <= i < n && days[..n][i] in data && 0 <= j < |data[days[..n][i]]|
          && l == ExerciseLine(data[days[..n][i]][j]);
        assert days[i] == days[..n][i];
      }
    } else {
      assert day in data && l in DayLines(day, data[day]);
      DayLineKinds(day, data[day], l);
    }
  }

  lemma DayLineKinds(day: string, d: DayState, l: string)
    requires l in DayLines(day, d)
    ensures l == DayHeader(day) || exists j :: 0 <= j < |d| && l == ExerciseLine(d[j])
  {
    if l != DayHeader(day) {
      var j := ExerciseLinesShape(d, l);
    }
  }

  /** Every exercise line of a day is the line of one of its flags. */
  lemma {:induction false} ExerciseLinesShape(d: DayState, l: string) returns (j: int)
    requires l in ExerciseLines(d)
    ensures 0 <= j < |d| && l == ExerciseLine(d[j])
    decreases |d|
  {
    if l == ExerciseLine(d[|d| - 1]) {
      j := |d| - 1;
    } else {
      j := ExerciseLinesShape(d[..|d| - 1], l);
    }
  }

  lemma DaysAreWords()
    ensures forall i :: 0 <= i < |Days| ==> |Days[i]| >= 1 && 'a' <= Days[i][0] <= 'z'
  {
    assert Days[0][0] == 'm' && Days[1][0] == 't' && Days[2][0] == 'w';
    assert Days[3][0] == 't' && Days[4][0] == 'f';
  }

  /** The lines of a block, other than the day sections. */
  lemma WeekLinesMembers(key: string, data: WeekState, isCurrent: bool, l: string)
    ensures l in WeekLines(key, data, isCurrent)
        <==> (|| l == HeaderLine(key, isCurrent) || l == Rule || l in SectionLines(data, Days)
              || (!AnyDay(data, Days) && l == Placeholder) || l == "")
  {
  }

  /** The placeholder appears exactly when none of the five days has a key. */
  lemma PlaceholderIffNoDay(key: string, data: WeekState, isCurrent: bool)
    ensures Placeholder in WeekLines(key, data, isCurrent)
        <==> forall i :: 0 <= i < |Days| ==> Days[i] !in data
  {
    WeekLinesMembers(key, data, isCurrent, Placeholder);
    assert Placeholder[0] == ' ' && Placeholder[2] == '(';
    assert HeaderLine(key, isCurrent)[0] == 'W' && Rule[0] == '-';
    if Placeholder in SectionLines(data, Days) {
      SectionLineKinds(data, Days, Placeholder);
      DaysAreWords();
      if exists i :: 0 <= i < |Days| && Days[i] in data && Placeholder == DayHeader(Days[i]) {
        var i :| 0 <= i < |Days| && Days[i] in data && Placeholder == DayHeader(Days[i]);
        DayHeaderShape(Days[i]);
      }
      assert false;
    }
  }

  /** A day header is none of the lines that frame the sections. */
  lemma DayHeaderIsNoFrameLine(key: string, isCurrent: bool, day: string)
    requires day in Days
    ensures var dh := DayHeader(day);
      dh != HeaderLine(key, isCurrent) && dh != Rule && dh != Placeholder && dh != ""
  {
    DaysAreWords();
    var dh := DayHeader(day);
    DayHeaderShape(day);
    assert 'A' <= dh[2] <= 'Z';
    assert HeaderLine(key, isCurrent)[0] == 'W' && Rule[0] == '-' && Placeholder[2] == '(';
  }

  lemma DayHeaderInSections(data: WeekState, day: string)
    requires day in Days
    ensures DayHeader(day) in SectionLines(data, Days) <==> day in data
  {
    DaysAreWords();
    var dh := DayHeader(day);
    DayHeaderShape(day);
    var k :| 0 <= k < |Days| && Days[k] == day;
    if day in data {
      PresentDayHeader(data, Days, k);
    }
    if dh in SectionLines(data, Days) {
      SectionLineKinds(data, Days, dh);
      assert 'A' <= dh[2] <= 'Z';
      var i :| 0 <= i < |Days| && Days[i] in data && dh == DayHeader(Days[i]);
      DayHeaderInjective(day, Days[i]);
    }
  }

  /** A day's header appears exactly when that day has a key, even one with no exercises. */
  lemma DayHeaderIff(key: string, data: WeekState, isCurrent: bool, day: string)
    requires day in Days
    ensures DayHeader(day) in WeekLines(key, data, isCurrent) <==> day in data
  {
    WeekLinesMembers(key, data, isCurrent, DayHeader(day));
    DayHeaderIsNoFrameLine(key, isCurrent, day);
    DayHeaderInSections(data, day);
  }

  /** Day sections follow the fixed order monday..friday. */
  lemma DaySectionsInOrder(data: WeekState, i: int, j: int)
    requires 0 <= i < j < |Days| && Days[i] in data && Days[j] in data
    ensures SectionLines(data, Days)
         == SectionLines(data, Days[..i]) + DayLines(Days[i], data[Days[i]])
          + SectionLines(data, Days[i + 1..j]) + DayLines(Days[j], data[Days[j]])
          + SectionLines(data, Days[j + 1..])
  {
    assert Days == Days[..i] + [Days[i]] + Days[i + 1..j] + [Days[j]] + Days[j + 1..];
    SectionLinesAppend(data, Days[..i] + [Days[i]] + Days[i + 1..j] + [Days[j]], Days[j + 1..]);
    SectionLinesAppend(data, Days[..i] + [Days[i]] + Days[i + 1..j], [Days[j]]);
    SectionLinesAppend(data, Days[..i] + [Days[i]], Days[i + 1..j]);
    SectionLinesAppend(data, Days[..i], [Days[i]]);
    assert SectionLines(data, [Days[i]]) == DayLines(Days[i], data[Days[i]]);
    assert SectionLines(data, [Days[j]]) == DayLines(Days[j], data[Days[j]]);
  }

  lemma UnlinesEndsInNewline(ls: seq<string>)
    requires ls != []
    ensures var u := Unlines(ls); |u| >= 1 && u[|u| - 1] == '\n'
  {
  }

  /** Lines ending in a blank one give a text ending in two newlines. */
  lemma UnlinesBlankEnd(ls: seq<string>)
    requires |ls| >= 2 && ls[|ls| - 1] == ""
    ensures var u := Unlines(ls); |u| >= 2 && u[|u| - 2..] == "\n\n"
  {
    var body := ls[..|ls| - 1];
    assert ls == body + [""];
    UnlinesSnoc(body, "");
    UnlinesEndsInNewline(body);
  }

  lemma WeekTextEnd(key: string, data: WeekState, isCurrent: bool)
    ensures var t := WeekText(key, data, isCurrent); |t| >= 2 && t[|t| - 2..] == "\n\n"
  {
    UnlinesBlankEnd(WeekLines(key, data, isCurrent));
  }

  lemma WeekTextStart(key: string, data: WeekState, isCurrent: bool)
    ensures HeaderLine(key, isCurrent) + "\n" + Rule + "\n" <= WeekText(key, data, isCurrent)
  {
    var top := [HeaderLine(key, isCurrent), Rule];
    var rest := SectionLines(data, Days) + (if AnyDay(data, Days) then [] else [Placeholder]) + [""];
    assert WeekLines(key, data, isCurrent) == top + rest;
    UnlinesAppend(top, rest);
    UnlinesPair(HeaderLine(key, isCurrent), Rule);
  }

  /** A block opens with its header and rule and ends with a blank line. */
  lemma WeekTextFrame(key: string, data: WeekState, isCurrent: bool)
    ensures var t := WeekText(key, data, isCurrent);
      && HeaderLine(key, isCurrent) + "\n" + Rule + "\n" <= t
      && |t| >= 2 && t[|t| - 2..] == "\n\n"
  {
    WeekTextStart(key, data, isCurrent);
    WeekTextEnd(key, data, isCurrent);
  }

  // ---- The export (exportLog, lines 102-116)

  /** The title line as the script spells it: U+00E2 U+20AC U+201D, the
      UTF-8 bytes of an em dash read as Windows-1252. */
  const Title: string := "WINTER ARC \U{00E2}\U{20AC}\U{201D} Workout Log"
  const Separator: string := "=================================================="

  function ExportHeader(exportedAt: string): string {
    Title + "\n" + "Exported: " + exportedAt + "\n" + Separator + "\n\n"
  }

  /** The texts of `xs` under `f`, last element first. */
  function ReverseConcat<T>(f: T -> string, xs: seq<T>): string {
    if xs == [] then "" else ReverseConcat(f, xs[1..]) + f(xs[0])
  }

  /** The archived blocks, most recently archived first (lines 113-116). */
  function ArchiveBlocks(archive: seq<ArchiveEntry>): string {
    ReverseConcat(EntryText, archive)
  }

  /** The export text: header, current week, then the archive newest first. */
  function ExportText(exportedAt: string, currentWeekKey: string, currentData: WeekState,
                      archive: seq<ArchiveEntry>): string
  {
    ExportHeader(exportedAt) + WeekText(currentWeekKey, currentData, true) + ArchiveBlocks(archive)
  }

  /** The download name `winter-arc-log-<key>.txt` (line 123). */
  function ExportFileName(currentWeekKey: string): string {
    "winter-arc-log-" + currentWeekKey + ".txt"
  }

  function EntryText(e: ArchiveEntry): string {
    WeekText(e.week, e.data, false)
  }

  lemma ReverseConcatStep<T>(f: T -> string, xs: seq<T>, i: int)
    requires 0 <= i < |xs|
    ensures ReverseConcat(f, xs[i..]) == ReverseConcat(f, xs[i + 1..]) + f(xs[i])
  {
    assert xs[i..][1..] == xs[i + 1..];
  }

  /** One more entry, taken from the front, adds its block at the end. */
  lemma ArchiveBlocksStep(archive: seq<ArchiveEntry>, i: int)
    requires 0 <= i < |archive|
    ensures ArchiveBlocks(archive[i..]) == ArchiveBlocks(archive[i + 1..]) + EntryText(archive[i])
  {
    ReverseConcatStep(EntryText, archive, i);
  }

  /** The entries last to first, as `archive.slice().reverse()`. */
  function Reverse<T>(xs: seq<T>): (r: seq<T>)
    ensures |r| == |xs|
    ensures forall k :: 0 <= k < |xs| ==> r[k] == xs[|xs| - 1 - k]
  {
    if xs == [] then [] else Reverse(xs[1..]) + [xs[0]]
  }

  /** The texts of `xs` under `f`, in the order of `xs`, as a `forEach` appends them. */
  function ConcatMap<T>(f: T -> string, xs: seq<T>): string {
    if xs == [] then "" else f(xs[0]) + ConcatMap(f, xs[1..])
  }

  lemma {:induction false} ConcatMapSnoc<T>(f: T -> string, xs: seq<T>, x: T)
    ensures ConcatMap(f, xs + [x]) == ConcatMap(f, xs) + f(x)
    decreases |xs|
  {
    if xs != [] {
      assert (xs + [x])[1..] == xs[1..] + [x];
      ConcatMapSnoc(f, xs[1..], x);
      AppendAssoc(f(xs[0]), ConcatMap(f, xs[1..]), f(x));
    } else {
      assert [] + [x] == [x];
      assert ConcatMap(f, [x]) == f(x) + ConcatMap(f, []);
    }
  }

  /** Walking the entries from the back is formatting the reversed entries from the front. */
  lemma {:induction false} ReverseConcatIsConcatMapReverse<T>(f: T -> string, xs: seq<T>)
    ensures ReverseConcat(f, xs) == ConcatMap(f, Reverse(xs))
    decreases |xs|
  {
    if xs != [] {
      ReverseConcatIsConcatMapReverse(f, xs[1..]);
      ConcatMapSnoc(f, Reverse(xs[1..]), xs[0]);
    } else {
      assert Reverse(xs) == [];
    }
  }

  /** The archived blocks are the entries newest first, each formatted as not current. */
  lemma ArchiveBlocksNewestFirst(archive: seq<ArchiveEntry>)
    ensures ArchiveBlocks(archive) == ConcatMap(EntryText, Reverse(archive))
  {
    ReverseConcatIsConcatMapReverse(EntryText, archive);
  }
}
