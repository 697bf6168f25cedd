/**
 The date suffix of the default attachment name: `applyDateFormat` cuts fixed positions
 out of a `yyyy-MM-ddTHH:mm:ss` timestamp and joins them under one of six pattern names;
 `appendName` reads the pattern and the trigger's start time from the job-schedule
 descriptor and turns every failure into the sentinel text "null".
 */
module DateFormat {
  import opened Text

  /** What `appendName` returns when it could not compute a suffix. */
  const Sentinel: string := "null"

  /** The pattern names `applyDateFormat` recognises. */
  predicate Supported(pattern: string) {
    pattern in {"yyyy-MM-dd", "yyyyMMdd", "yyyyMMddHHmmss", "MM-dd-yyyy", "MM-dd-yy", "dd-MM-yyyy"}
  }

  /**
   `applyDateFormat(pattern, strDate)`. The seven substrings are taken before the pattern
   is looked at, so a timestamp shorter than 19 characters fails (None: the source throws)
   whatever the pattern; an unrecognised pattern gives "".
   */
  function ApplyDateFormat(pattern: string, strDate: string): (r: Option<string>)
    ensures r.Some? <==> |strDate| >= 19
    ensures r.Some? ==> |r.value| == (if Supported(pattern) then |pattern| else 0)
    ensures r.Some? ==> r.value != Sentinel
  {
    var year :- Substring(strDate, 0, 4);
    var shortYear :- Substring(strDate, 2, 4);
    var month :- Substring(strDate, 5, 7);
    var day :- Substring(strDate, 8, 10);
    var hour :- Substring(strDate, 11, 13);
    var minute :- Substring(strDate, 14, 16);
    var second :- Substring(strDate, 17, 19);
    Some(
      if pattern == "yyyy-MM-dd" then year + "-" + month + "-" + day
      else if pattern == "yyyyMMdd" then year + month + day
      else if pattern == "yyyyMMddHHmmss" then year + month + day + hour + minute + second
      else if pattern == "MM-dd-yyyy" then month + "-" + day + "-" + year
      else if pattern == "MM-dd-yy" then month + "-" + day + "-" + shortYear
      else if pattern == "dd-MM-yyyy" then day + "-" + month + "-" + year
      else "")
  }

  /** `pattern` holds two copies of `c` from position `k` on. */
  predicate RunAt(pattern: string, k: nat, c: char) {
    k + 2 <= |pattern| && pattern[k] == c && pattern[k + 1] == c
  }

  /**
   A generic reading of a pattern name, independent of the six hard-coded branches:
   each letter run `yyyy`, `yy`, `MM`, `dd`, `HH`, `mm`, `ss` stands for that field of the
   timestamp `d`, and every other character is copied as it is.
   */
  function Render(pattern: string, d: string): string
    requires |d| >= 19
  {
    RenderFrom(pattern, 0, d)
  }

  /** `Render` of the part of `pattern` from position `k` on, scanning left to right. */
  function RenderFrom(pattern: string, k: nat, d: string): string
    requires |d| >= 19 && k <= |pattern|
    decreases |pattern| - k
  {
    if k == |pattern| then []
    else if RunAt(pattern, k, 'y') && RunAt(pattern, k + 2, 'y') then d[0..4] + RenderFrom(pattern, k + 4, d)
    else if RunAt(pattern, k, 'y') then d[2..4] + RenderFrom(pattern, k + 2, d)
    else if RunAt(pattern, k, 'M') then d[5..7] + RenderFrom(pattern, k + 2, d)
    else if RunAt(pattern, k, 'd') then d[8..10] + RenderFrom(pattern, k + 2, d)
    else if RunAt(pattern, k, 'H') then d[11..13] + RenderFrom(pattern, k + 2, d)
    else if RunAt(pattern, k, 'm') then d[14..16] + RenderFrom(pattern, k + 2, d)
    else if RunAt(pattern, k, 's') then d[17..19] + RenderFrom(pattern, k + 2, d)
    else [pattern[k]] + RenderFrom(pattern, k + 1, d)
  }

  /** Each of the six hard-coded branches is the generic reading of its own pattern name. */
  lemma ApplyDateFormatRendersPattern(pattern: string, d: string)
    requires Supported(pattern) && |d| >= 19
    ensures ApplyDateFormat(pattern, d) == Some(Render(pattern, d))
  {
    if pattern == "yyyy-MM-dd" {
      RendersYearMonthDayDashed(pattern, d);
    } else if pattern == "yyyyMMdd" {
      RendersYearMonthDay(pattern, d);
    } else if pattern == "yyyyMMddHHmmss" {
      RendersFullStamp(pattern, d);
    } else if pattern == "MM-dd-yyyy" {
      RendersMonthDayYear(pattern, d);
    } else if pattern == "MM-dd-yy" {
      RendersMonthDayShortYear(pattern, d);
    } else if pattern == "dd-MM-yyyy" {
      RendersDayMonthYear(pattern, d);
    }
  }

  /** The letters whose doubled runs `Render` replaces by a field. */
  predicate FieldLetter(c: char) {
    c == 'y' || c == 'M' || c == 'd' || c == 'H' || c == 'm' || c == 's'
  }

  /** One step of `Render` at position `k`: a four-letter year run. */
  lemma YearAt(p: string, k: nat, d: string)
    requires |d| >= 19 && k + 4 <= |p|
    requires p[k] == 'y' && p[k + 1] == 'y' && p[k + 2] == 'y' && p[k + 3] == 'y'
    ensures RenderFrom(p, k, d) == d[0..4] + RenderFrom(p, k + 4, d)
  {
  }

  /** One step of `Render` at position `k`: a two-letter run of a field letter. */
  lemma FieldAt(p: string, k: nat, d: string)
    requires |d| >= 19 && k + 2 <= |p| && p[k] == p[k + 1] && FieldLetter(p[k])
    requires p[k] == 'y' ==> k + 2 == |p| || p[k + 2] != 'y'
    ensures RenderFrom(p, k, d) == FieldOf(p[k], d) + RenderFrom(p, k + 2, d)
  {
  }

  /** One step of `Render` at position `k`: a character that is not a field letter. */
  lemma LiteralAt(p: string, k: nat, d: string)
    requires |d| >= 19 && k < |p| && !FieldLetter(p[k])
    ensures RenderFrom(p, k, d) == [p[k]] + RenderFrom(p, k + 1, d)
  {
  }

  /** The timestamp field a doubled letter stands for. */
  function FieldOf(letter: char, d: string): string
    requires |d| >= 19
  {
    match letter
    case 'y' => d[2..4]
    case 'M' => d[5..7]
    case 'd' => d[8..10]
    case 'H' => d[11..13]
    case 'm' => d[14..16]
    case _ => d[17..19]
  }

  /** `Render` on a pattern spelling "yyyy-MM-dd". */
  lemma RendersYearMonthDayDashed(p: string, d: string)
    requires |d| >= 19 && |p| == 10
    requires p[0] == 'y' && p[1] == 'y' && p[2] == 'y' && p[3] == 'y' && p[4] == '-' && p[5] == 'M' && p[6] == 'M' && p[7] == '-' && p[8] == 'd' && p[9] == 'd'
    ensures Render(p, d) == d[0..4] + "-" + d[5..7] + "-" + d[8..10]
  {
    calc {
      Render(p, d);
    ==
      RenderFrom(p, 0, d);
    ==  { YearAt(p, 0, d); }
      d[0..4] + RenderFrom(p, 4, d);
    ==  { LiteralAt(p, 4, d); }
      d[0..4] + "-" + RenderFrom(p, 5, d);
    ==  { FieldAt(p, 5, d); }
      d[0..4] + "-" + d[5..7] + RenderFrom(p, 7, d);
    ==  { LiteralAt(p, 7, d); }
      d[0..4] + "-" + d[5..7] + "-" + RenderFrom(p, 8, d);
    ==  { FieldAt(p, 8, d); }
      d[0..4] + "-" + d[5..7] + "-" + d[8..10];
    }
  }

  /** `Render` on a pattern spelling "yyyyMMdd". */
  lemma RendersYearMonthDay(p: string, d: string)
    requires |d| >= 19 && |p| == 8
    requires p[0] == 'y' && p[1] == 'y' && p[2] == 'y' && p[3] == 'y' && p[4] == 'M' && p[5] == 'M' && p[6] == 'd' && p[7] == 'd'
    ensures Render(p, d) == d[0..4] + d[5..7] + d[8..10]
  {
    calc {
      Render(p, d);
    ==
      RenderFrom(p, 0, d);
    ==  { YearAt(p, 0, d); }
      d[0..4] + RenderFrom(p, 4, d);
    ==  { FieldAt(p, 4, d); }
      d[0..4] + d[5..7] + RenderFrom(p, 6, d);
    ==  { FieldAt(p, 6, d); }
      d[0..4] + d[5..7] + d[8..10];
    }
  }

  /** `Render` on a pattern spelling "yyyyMMddHHmmss". */
  lemma RendersFullStamp(p: string, d: string)
    requires |d| >= 19 && |p| == 14
    requires p[0] == 'y' && p[1] == 'y' && p[2] == 'y' && p[3] == 'y' && p[4] == 'M' && p[5] == 'M' && p[6] == 'd' && p[7] == 'd' && p[8] == 'H' && p[9] == 'H' && p[10] == 'm' && p[11] == 'm' && p[12] == 's' && p[13] == 's'
    ensures Render(p, d) == d[0..4] + d[5..7] + d[8..10] + d[11..13] + d[14..16] + d[17..19]
  {
    calc {
      Render(p, d);
    ==
      RenderFrom(p, 0, d);
    ==  { YearAt(p, 0, d); }
      d[0..4] + RenderFrom(p, 4, d);
    ==  { FieldAt(p, 4, d); }
      d[0..4] + d[5..7] + RenderFrom(p, 6, d);
    ==  { FieldAt(p, 6, d); }
      d[0..4] + d[5..7] + d[8..10] + RenderFrom(p, 8, d);
    ==  { FieldAt(p, 8, d); }
      d[0..4] + d[5..7] + d[8..10] + d[11..13] + RenderFrom(p, 10, d);
    ==  { FieldAt(p, 10, d); }
      d[0..4] + d[5..7] + d[8..10] + d[11..13] + d[14..16] + RenderFrom(p, 12, d);
    ==  { FieldAt(p, 12, d); }
      d[0..4] + d[5..7] + d[8..10] + d[11..13] + d[14..16] + d[17..19];
    }
  }

  /** `Render` on a pattern spelling "MM-dd-yyyy". */
  lemma RendersMonthDayYear(p: string, d: string)
    requires |d| >= 19 && |p| == 10
    requires p[0] == 'M' && p[1] == 'M' && p[2] == '-' && p[3] == 'd' && p[4] == 'd' && p[5] == '-' && p[6] == 'y' && p[7] == 'y' && p[8] == 'y' && p[9] == 'y'
    ensures Render(p, d) == d[5..7] + "-" + d[8..10] + "-" + d[0..4]
  {
    calc {
      Render(p, d);
    ==
      RenderFrom(p, 0, d);
    ==  { FieldAt(p, 0, d); }
      d[5..7] + RenderFrom(p, 2, d);
    ==  { LiteralAt(p, 2, d); }
      d[5..7] + "-" + RenderFrom(p, 3, d);
    ==  { FieldAt(p, 3, d); }
      d[5..7] + "-" + d[8..10] + RenderFrom(p, 5, d);
    ==  { LiteralAt(p, 5, d); }
      d[5..7] + "-" + d[8..10] + "-" + RenderFrom(p, 6, d);
    ==  { YearAt(p, 6, d); }
      d[5..7] + "-" + d[8..10] + "-" + d[0..4];
    }
  }

  /** `Render` on a pattern spelling "MM-dd-yy". */
  lemma RendersMonthDayShortYear(p: string, d: string)
    requires |d| >= 19 && |p| == 8
    requires p[0] == 'M' && p[1] == 'M' && p[2] == '-' && p[3] == 'd' && p[4] == 'd' && p[5] == '-' && p[6] == 'y' && p[7] == 'y'
    ensures Render(p, d) == d[5..7] + "-" + d[8..10] + "-" + d[2..4]
  {
    calc {
      Render(p, d);
    ==
      RenderFrom(p, 0, d);
    ==  { FieldAt(p, 0, d); }
      d[5..7] + RenderFrom(p, 2, d);
    ==  { LiteralAt(p, 2, d); }
      d[5..7] + "-" + RenderFrom(p, 3, d);
    ==  { FieldAt(p, 3, d); }
      d[5..7] + "-" + d[8..10] + RenderFrom(p, 5, d);
    ==  { LiteralAt(p, 5, d); }
      d[5..7] + "-" + d[8..10] + "-" + RenderFrom(p, 6, d);
    ==  { FieldAt(p, 6, d); }
      d[5..7] + "-" + d[8..10] + "-" + d[2..4];
    }
  }

  /** `Render` on a pattern spelling "dd-MM-yyyy". */
  lemma RendersDayMonthYear(p: string, d: string)
    requires |d| >= 19 && |p| == 10
    requires p[0] == 'd' && p[1] == 'd' && p[2] == '-' && p[3] == 'M' && p[4] == 'M' && p[5] == '-' && p[6] == 'y' && p[7] == 'y' && p[8] == 'y' && p[9] == 'y'
    ensures Render(p, d) == d[8..10] + "-" + d[5..7] + "-" + d[0..4]
  {
    calc {
      Render(p, d);
    ==
      RenderFrom(p, 0, d);
    ==  { FieldAt(p, 0, d); }
      d[8..10] + RenderFrom(p, 2, d);
    ==  { LiteralAt(p, 2, d); }
      d[8..10] + "-" + RenderFrom(p, 3, d);
    ==  { FieldAt(p, 3, d); }
      d[8..10] + "-" + d[5..7] + RenderFrom(p, 5, d);
    ==  { LiteralAt(p, 5, d); }
      d[8..10] + "-" + d[5..7] + "-" + RenderFrom(p, 6, d);
    ==  { YearAt(p, 6, d); }
      d[8..10] + "-" + d[5..7] + "-" + d[0..4];
    }
  }

  /** A start time laid out as `yyyy-MM-ddTHH:mm:ss` (the separators in place). */
  predicate IsoTimestamp(d: string) {
    |d| >= 19 && d[4] == '-' && d[7] == '-' && d[10] == 'T' && d[13] == ':' && d[16] == ':'
  }

  /** On such a timestamp `yyyy-MM-dd` keeps exactly its date part. */
  lemma IsoDatePattern(d: string)
    requires IsoTimestamp(d)
    ensures ApplyDateFormat("yyyy-MM-dd", d) == Some(d[..10])
  {
    assert d[..10] == d[0..4] + [d[4]] + d[5..7] + [d[7]] + d[8..10];
  }

  /**
   The job-schedule descriptor as `appendName` and `layout` read it. `jobName` is the
   string value of the `jobName` member (None: absent or not a JSON string);
   `appendDateFormat` and `startTime` are the JSON text of those members (a string value
   keeps its quotes), None when the member is absent; `simpleJobTrigger` is None when that
   member is absent or not a JSON object.
   */
  datatype Trigger = Trigger(startTime: Option<string>)
  datatype JobSchedule = JobSchedule(
    jobName: Option<string>,
    appendDateFormat: Option<string>,
    simpleJobTrigger: Option<Trigger>)

  /** `String.valueOf` of a JSON member: "null" for a missing one. */
  function ValueOf(member: Option<string>): string {
    member.GetOr("null")
  }

  /** The start time `appendName` hands to `applyDateFormat`. */
  function StartTimeText(t: Trigger): string {
    RemoveAll(ValueOf(t.startTime), '"')
  }

  /** `appendName()`: the date suffix, or the sentinel when anything fails. */
  function AppendName(js: JobSchedule): string {
    if js.simpleJobTrigger.None? then Sentinel
    else
      var pattern := RemoveAll(ValueOf(js.appendDateFormat), '"');
      match ApplyDateFormat(pattern, StartTimeText(js.simpleJobTrigger.value))
      case None => Sentinel
      case Some(suffix) => suffix
  }

  /**
   The suffix is the sentinel exactly when there is no trigger or the unquoted start time
   is too short; otherwise it is the unquoted pattern applied to the unquoted start time.
   */
  lemma AppendNameMeaning(js: JobSchedule)
    ensures AppendName(js) == Sentinel <==>
      js.simpleJobTrigger.None? || |StartTimeText(js.simpleJobTrigger.value)| < 19
    ensures AppendName(js) != Sentinel ==>
      Some(AppendName(js))
      == ApplyDateFormat(RemoveAll(ValueOf(js.appendDateFormat), '"'), StartTimeText(js.simpleJobTrigger.value))
  {
  }

  /** The JSON text of a string value without quotes inside it loses exactly its quotes. */
  lemma {:induction false} UnquoteJsonString(x: string)
    requires '"' !in x
    ensures RemoveAll("\"" + x + "\"", '"') == x
  {
    RemoveAllAppend("\"" + x, "\"", '"');
    RemoveAllAppend("\"", x, '"');
    assert RemoveAll("\"", '"') == "" by {
      assert "\""[1..] == "";
    }
  }

  /** A trigger without `startTime` reads as the four letters "null", too short: no suffix. */
  lemma MissingStartTime(js: JobSchedule)
    requires js.simpleJobTrigger.Some? && js.simpleJobTrigger.value.startTime.None?
    ensures AppendName(js) == Sentinel
  {
    assert |ValueOf(js.simpleJobTrigger.value.startTime)| == 4;
    AppendNameMeaning(js);
  }

  /**
   A missing `appendDateFormat` reads as the pattern "null", which is not recognised:
   with a usable start time the suffix is empty, not the sentinel.
   */
  lemma MissingPattern(js: JobSchedule)
    requires js.appendDateFormat.None? && js.simpleJobTrigger.Some?
    requires |StartTimeText(js.simpleJobTrigger.value)| >= 19
    ensures AppendName(js) == ""
  {
    assert RemoveAll("null", '"') == "null";
    assert !Supported("null");
    AppendNameMeaning(js);
  }

  /** A quoted pattern and a quoted start time give the pattern applied to the start time. */
  lemma {:induction false} AppendNameOfQuotedValues(js: JobSchedule, pattern: string, start: string)
    requires '"' !in pattern && '"' !in start && |start| >= 19
    requires js.appendDateFormat == Some("\"" + pattern + "\"")
    requires js.simpleJobTrigger == Some(Trigger(Some("\"" + start + "\"")))
    ensures Some(AppendName(js)) == ApplyDateFormat(pattern, start)
  {
    UnquoteJsonString(pattern);
    UnquoteJsonString(start);
    AppendNameMeaning(js);
  }
}
