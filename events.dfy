/** The event pipeline of meetingbuilder.py: raw timetable records are reshaped (`parse_events`),
    grouped by course (`events_to_courses`), and each course's events grouped again by weekly slot
    (`course_to_meetings`); `json_to_courses` chains the three. Each stage removes keys from the
    event records, so each stage has its own record type. */
module Events {
  import opened Wrappers
  import opened Calendar
  import opened Grouping
  import Text

  /** A decoded JSON object; only string values are modelled. */
  type RawEvent = map<string, string>

  /** The tuple `split_room` returns: the building, then the room code when the label has a colon. */
  type RoomLabel = s: seq<string> | 1 <= |s| <= 2 witness [""]

  /** An event after `parse_events`: exactly the keys room, course, start, end and date. */
  datatype ParsedEvent = ParsedEvent(room: RoomLabel, course: string, start: Time, end: Time, date: Date)

  /** An event after `events_to_courses` popped its `course`. */
  datatype CourseEvent = CourseEvent(room: RoomLabel, start: Time, end: Time, date: Date)

  /** The weekly-slot key `(weekday, start, end)` of `course_to_meetings` (`MeetingT`). */
  datatype Slot = Slot(weekday: int, start: Time, end: Time)

  /** An event after `course_to_meetings` popped its `start` and `end`. */
  datatype InstanceEvent = InstanceEvent(room: RoomLabel, date: Date)

  /** What `json_to_courses` returns: course name to slot to instances, in first-appearance order. */
  type Courses = seq<(string, Groups<Slot, InstanceEvent>)>

  /** The opaque library parsers `make_time` and `make_date`: None where they would raise. */
  type TimeParser = string -> Option<Time>
  type DateParser = string -> Option<Date>

  /** `split_room`: split the label on its first colon only. */
  function SplitRoom(val: string): (r: RoomLabel)
    ensures r[0] + (if |r| == 2 then [':'] + r[1] else "") == val
    ensures ':' !in r[0]
    ensures |r| == 1 <==> ':' !in val
  {
    Text.SplitOnce(val, ':')
  }

  /** The dictionary comprehension of `parse_events` for one event, its transforms applied key by key
      in the order room, course, start, end, date; the first missing key or failing parser raises. */
  function ParseEvent(raw: RawEvent, makeTime: TimeParser, makeDate: DateParser): (r: Result<ParsedEvent, Error>)
    ensures r.Ok? ==> EventKeys <= raw.Keys
    ensures "room" !in raw ==> r == Err(MissingKey("room"))
    ensures r.Err? ==> match r.error
      case MissingKey(k) => k in EventKeys && k !in raw
      case BadTime(t) => makeTime(t).None? && (("start" in raw && raw["start"] == t) || ("end" in raw && raw["end"] == t))
      case BadDate(t) => "date" in raw && raw["date"] == t && makeDate(t).None?
      case _ => false
  {
    if "room" !in raw then Err(MissingKey("room"))
    else if "course" !in raw then Err(MissingKey("course"))
    else if "start" !in raw then Err(MissingKey("start"))
    else if makeTime(raw["start"]).None? then Err(BadTime(raw["start"]))
    else if "end" !in raw then Err(MissingKey("end"))
    else if makeTime(raw["end"]).None? then Err(BadTime(raw["end"]))
    else if "date" !in raw then Err(MissingKey("date"))
    else if makeDate(raw["date"]).None? then Err(BadDate(raw["date"]))
    else Ok(ParsedEvent(SplitRoom(raw["room"]), raw["course"], makeTime(raw["start"]).value,
                        makeTime(raw["end"]).value, makeDate(raw["date"]).value))
  }

  const EventKeys: set<string> := {"room", "course", "start", "end", "date"}

  /** A raw event parses exactly when it has the five keys and both parsers accept its values; the
      parsed event is made of those five values alone. */
  lemma ParseEventFields(raw: RawEvent, makeTime: TimeParser, makeDate: DateParser)
    ensures ParseEvent(raw, makeTime, makeDate).Ok? <==>
      EventKeys <= raw.Keys && makeTime(raw["start"]).Some? && makeTime(raw["end"]).Some?
      && makeDate(raw["date"]).Some?
    ensures ParseEvent(raw, makeTime, makeDate).Ok? ==>
      ParseEvent(raw, makeTime, makeDate).value
        == ParsedEvent(SplitRoom(raw["room"]), raw["course"], makeTime(raw["start"]).value,
                       makeTime(raw["end"]).value, makeDate(raw["date"]).value)
  {
  }

  /** Any other key, such as a lecturer, is dropped: events that agree on the five keys parse alike. */
  lemma ParseEventIgnoresOtherKeys(raw: RawEvent, raw': RawEvent, makeTime: TimeParser, makeDate: DateParser)
    requires forall k :: k in EventKeys ==> (k in raw <==> k in raw') && (k in raw ==> raw[k] == raw'[k])
    ensures ParseEvent(raw, makeTime, makeDate) == ParseEvent(raw', makeTime, makeDate)
  {
    assert "room" in EventKeys && "course" in EventKeys && "start" in EventKeys;
    assert "end" in EventKeys && "date" in EventKeys;
  }

  /** `parse_events`: one parsed event per input, in order, or the first event's exception. */
  function ParsedEvents(raws: seq<RawEvent>, makeTime: TimeParser, makeDate: DateParser): (r: Result<seq<ParsedEvent>, Error>)
    ensures r.Ok? <==> forall i :: 0 <= i < |raws| ==> ParseEvent(raws[i], makeTime, makeDate).Ok?
    ensures r.Ok? ==> (|r.value| == |raws|
      && forall i :: 0 <= i < |raws| ==> ParseEvent(raws[i], makeTime, makeDate) == Ok(r.value[i]))
    ensures r.Err? ==> exists i :: (0 <= i < |raws| && ParseEvent(raws[i], makeTime, makeDate) == Err(r.error)
      && forall j :: 0 <= j < i ==> ParseEvent(raws[j], makeTime, makeDate).Ok?)
  {
    if |raws| == 0 then Ok([])
    else
      var init := raws[..|raws| - 1];
      assert forall i :: 0 <= i < |init| ==> init[i] == raws[i];
      match ParsedEvents(init, makeTime, makeDate)
      case Err(e) => Err(e)
      case Ok(ps) =>
        match ParseEvent(raws[|raws| - 1], makeTime, makeDate)
        case Err(e) => Err(e)
        case Ok(p) => Ok(ps + [p])
  }

  /** The loop of `parse_events`. */
  method ParseEvents(raws: seq<RawEvent>, makeTime: TimeParser, makeDate: DateParser) returns (r: Result<seq<ParsedEvent>, Error>)
    ensures r == ParsedEvents(raws, makeTime, makeDate)
  {
    var parsed: seq<ParsedEvent> := [];
    var i := 0;
    while i < |raws|
      invariant 0 <= i <= |raws|
      invariant ParsedEvents(raws[..i], makeTime, makeDate) == Ok(parsed)
    {
      assert raws[..i + 1][..i] == raws[..i];
      var event := ParseEvent(raws[i], makeTime, makeDate);
      if event.Err? {
        r := Err(event.error);
        ParsedEventsStopsAt(raws, i + 1, makeTime, makeDate);
        return;
      }
      parsed := parsed + [event.value];
      i := i + 1;
    }
    assert raws[..i] == raws;
    r := Ok(parsed);
  }

  /** Once a prefix has failed, the whole run fails the same way. */
  lemma {:induction false} ParsedEventsStopsAt(raws: seq<RawEvent>, n: nat, makeTime: TimeParser, makeDate: DateParser)
    requires n <= |raws|
    requires ParsedEvents(raws[..n], makeTime, makeDate).Err?
    ensures ParsedEvents(raws, makeTime, makeDate) == ParsedEvents(raws[..n], makeTime, makeDate)
    decreases |raws| - n
  {
    if n < |raws| {
      assert raws[..n + 1][..n] == raws[..n];
      ParsedEventsStopsAt(raws, n + 1, makeTime, makeDate);
    } else {
      assert raws[..n] == raws;
    }
  }

  function DropCourse(e: ParsedEvent): CourseEvent
  {
    CourseEvent(e.room, e.start, e.end, e.date)
  }

  /** The `(course, event)` appends of `events_to_courses`, in input order. */
  function CoursePairs(events: seq<ParsedEvent>): seq<(string, CourseEvent)>
  {
    seq(|events|, i requires 0 <= i < |events| => (events[i].course, DropCourse(events[i])))
  }

  /** `events_to_courses`: pop each event's course and append the rest to that course's list. */
  method EventsToCourses(events: seq<ParsedEvent>) returns (byCourse: Groups<string, CourseEvent>)
    ensures byCourse == GroupBy(CoursePairs(events))
    ensures IsGrouping(CoursePairs(events), byCourse)
    ensures multiset(Pairs(byCourse)) == multiset(CoursePairs(events))
  {
    byCourse := [];
    var i := 0;
    ghost var ps := CoursePairs(events);
    while i < |events|
      invariant 0 <= i <= |events|
      invariant byCourse == GroupBy(ps[..i])
    {
      assert ps[..i + 1][..i] == ps[..i];
      var course := events[i].course;
      byCourse := Append(byCourse, course, DropCourse(events[i]));
      i := i + 1;
    }
    assert ps[..i] == ps;
    GroupByIsGrouping(ps);
    GroupByPairs(ps);
  }

  function SlotOf(e: CourseEvent): Slot
  {
    Slot(Weekday(e.date), e.start, e.end)
  }

  function DropTimes(e: CourseEvent): InstanceEvent
  {
    InstanceEvent(e.room, e.date)
  }

  /** The `((weekday, start, end), event)` appends of `course_to_meetings`, in input order. */
  function SlotPairs(events: seq<CourseEvent>): seq<(Slot, InstanceEvent)>
  {
    seq(|events|, i requires 0 <= i < |events| => (SlotOf(events[i]), DropTimes(events[i])))
  }

  /** Every instance filed under a slot falls on that slot's weekday. */
  predicate SlotsConsistent(g: Groups<Slot, InstanceEvent>)
  {
    forall i, x :: 0 <= i < |g| && x in g[i].1 ==> Weekday(x.date) == g[i].0.weekday
  }

  lemma SlotGroupingConsistent(events: seq<CourseEvent>, g: Groups<Slot, InstanceEvent>)
    requires IsGrouping(SlotPairs(events), g)
    ensures SlotsConsistent(g)
  {
    var ps := SlotPairs(events);
    forall i, x | 0 <= i < |g| && x in g[i].1 ensures Weekday(x.date) == g[i].0.weekday {
      SelectMember(ps, g[i].0, x);
      var j :| 0 <= j < |ps| && ps[j] == (g[i].0, x);
      assert ps[j] == (SlotOf(events[j]), DropTimes(events[j]));
    }
  }

  /** `course_to_meetings`: pop each event's start and end and append the rest under its weekly slot. */
  method CourseToMeetings(events: seq<CourseEvent>) returns (bySlot: Groups<Slot, InstanceEvent>)
    ensures bySlot == GroupBy(SlotPairs(events))
    ensures IsGrouping(SlotPairs(events), bySlot)
    ensures multiset(Pairs(bySlot)) == multiset(SlotPairs(events))
    ensures SlotsConsistent(bySlot)
  {
    bySlot := [];
    var i := 0;
    ghost var ps := SlotPairs(events);
    while i < |events|
      invariant 0 <= i <= |events|
      invariant bySlot == GroupBy(ps[..i])
    {
      assert ps[..i + 1][..i] == ps[..i];
      var weekday := Weekday(events[i].date);
      var slot := Slot(weekday, events[i].start, events[i].end);
      bySlot := Append(bySlot, slot, DropTimes(events[i]));
      i := i + 1;
    }
    assert ps[..i] == ps;
    GroupByIsGrouping(ps);
    GroupByPairs(ps);
    SlotGroupingConsistent(events, bySlot);
  }

  /** The second grouping applied to every course's events, keys and order unchanged. */
  function WithSlots(byCourse: Groups<string, CourseEvent>): Courses
  {
    seq(|byCourse|, i requires 0 <= i < |byCourse| => (byCourse[i].0, GroupBy(SlotPairs(byCourse[i].1))))
  }

  /** What `json_to_courses` computes. */
  function CoursesOf(raws: seq<RawEvent>, makeTime: TimeParser, makeDate: DateParser): Result<Courses, Error>
  {
    match ParsedEvents(raws, makeTime, makeDate)
    case Err(e) => Err(e)
    case Ok(events) => Ok(WithSlots(GroupBy(CoursePairs(events))))
  }

  /** Every instance of every course lies on the weekday of the slot it is filed under. */
  predicate CoursesConsistent(c: Courses)
  {
    forall i :: 0 <= i < |c| ==> SlotsConsistent(c[i].1)
  }

  /** Grouping every course's events by slot keeps the course keys and files every instance under its weekday. */
  lemma WithSlotsConsistent(byCourse: Groups<string, CourseEvent>)
    ensures DistinctKeys(byCourse) ==> DistinctKeys(WithSlots(byCourse))
    ensures CoursesConsistent(WithSlots(byCourse))
  {
    var c := WithSlots(byCourse);
    forall i | 0 <= i < |c| ensures SlotsConsistent(c[i].1) {
      GroupByIsGrouping(SlotPairs(byCourse[i].1));
      SlotGroupingConsistent(byCourse[i].1, c[i].1);
    }
  }

  /** The loop of `json_to_courses` replacing each course's event list by its slot grouping. */
  method GroupCourses(byCourse: Groups<string, CourseEvent>) returns (courses: Courses)
    ensures courses == WithSlots(byCourse)
  {
    ghost var target := WithSlots(byCourse);
    courses := [];
    var i := 0;
    while i < |byCourse|
      invariant 0 <= i <= |byCourse|
      invariant courses == target[..i]
    {
      var meetings := CourseToMeetings(byCourse[i].1);
      assert target[..i + 1] == target[..i] + [(byCourse[i].0, meetings)];
      courses := courses + [(byCourse[i].0, meetings)];
      i := i + 1;
    }
    assert target[..i] == target;
  }

  /** `json_to_courses`: parse, group by course, then group each course by slot, keeping the courses in order. */
  method JsonToCourses(raws: seq<RawEvent>, makeTime: TimeParser, makeDate: DateParser) returns (r: Result<Courses, Error>)
    ensures r == CoursesOf(raws, makeTime, makeDate)
    ensures r.Ok? ==> CoursesConsistent(r.value) && DistinctKeys(r.value)
  {
    var parsed := ParseEvents(raws, makeTime, makeDate);
    if parsed.Err? {
      return Err(parsed.error);
    }
    var byCourse := EventsToCourses(parsed.value);
    var courses := GroupCourses(byCourse);
    WithSlotsConsistent(byCourse);
    r := Ok(courses);
  }
}
