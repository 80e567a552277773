/** `get_or_create_meetings` of meetingbuilder.py: merge a student's parsed timetable into the store.
    For every course it gets or creates the Class and enrols the student; for every weekly slot it gets
    or creates the Meeting and reactivates it; for every instance it gets or creates the Building, the
    Room and the MeetingInstance. Afterwards every meeting of the student's classes that the pass did
    not touch is flagged inactive and returned. The first exception stops the pass and leaves the
    store as far as it got: nothing runs the pass in a transaction. */
module Reconciler {
  import opened Wrappers
  import opened Calendar
  import opened Grouping
  import opened Events
  import opened Store

  /** The store after a run of store operations, and the exception that stopped it, if any. */
  datatype Run = Run(store: StoreState, failure: Option<Error>)

  /** A `for` loop over `xs` whose body is `step`, stopped by the first failing iteration. */
  function Fold<T>(st: StoreState, step: (StoreState, T) -> Run, xs: seq<T>): Run
    decreases |xs|
  {
    if |xs| == 0 then Run(st, None)
    else
      var r := Fold(st, step, xs[..|xs| - 1]);
      if r.failure.Some? then r else step(r.store, xs[|xs| - 1])
  }

  /** Once an iteration has failed, the later ones never run. */
  lemma {:induction false} FoldStopsAt<T>(st: StoreState, step: (StoreState, T) -> Run, xs: seq<T>, n: nat)
    requires n <= |xs|
    requires Fold(st, step, xs[..n]).failure.Some?
    ensures Fold(st, step, xs) == Fold(st, step, xs[..n])
    decreases |xs| - n
  {
    if n < |xs| {
      assert xs[..n + 1][..n] == xs[..n];
      FoldStopsAt(st, step, xs, n + 1);
    } else {
      assert xs[..n] == xs;
    }
  }

  /** The Meeting a weekly slot of course `code` stands for. */
  function KeyOf(code: string, slot: Slot): MeetingKey
  {
    MeetingKey(slot.start, slot.end, slot.weekday, code)
  }

  /** The body of the innermost loop: the building, then `instance['room'][1]`, then the room, then
      the instance. The building is stored even when the label has no room code. */
  function InstanceStep(st: StoreState, key: MeetingKey, x: InstanceEvent): (r: Run)
    ensures x.room[0] in r.store.buildings
    ensures |x.room| < 2 ==> r.failure == Some(NoRoomCode(x.room[0]))
    ensures r.failure.None? ==> |x.room| == 2 && x.room[1] in r.store.rooms && r.store.rooms[x.room[1]] == x.room[0]
                                && InstanceKey(x.date, x.room[1], key) in r.store.instances
    ensures r.store.classes == st.classes && r.store.enrolled == st.enrolled && r.store.meetings == st.meetings
  {
    var st1 := st.GetOrCreateBuilding(x.room[0]);
    if |x.room| < 2 then Run(st1, Some(NoRoomCode(x.room[0])))
    else match st1.GetOrCreateRoom(x.room[0], x.room[1])
      case Err(e) => Run(st1, Some(e))
      case Ok(st2) =>
        match st2.GetOrCreateInstance(InstanceKey(x.date, x.room[1], key))
        case Err(e) => Run(st2, Some(e))
        case Ok(st3) => Run(st3, None)
  }

  function InstanceSteps(key: MeetingKey): (StoreState, InstanceEvent) -> Run
  {
    (st: StoreState, x: InstanceEvent) => InstanceStep(st, key, x)
  }

  /** The body of the middle loop: get or create the meeting, reactivate a found inactive one, then
      store its instances. */
  function MeetingStep(st: StoreState, code: string, m: (Slot, seq<InstanceEvent>)): Run
  {
    var key := KeyOf(code, m.0);
    var (st1, created) := st.GetOrCreateMeeting(key);
    var st2 := if !created && !st1.meetings[key] then st1.SetActive(key, true) else st1;
    Fold(st2, InstanceSteps(key), m.1)
  }

  function MeetingSteps(code: string): (StoreState, (Slot, seq<InstanceEvent>)) -> Run
  {
    (st: StoreState, m: (Slot, seq<InstanceEvent>)) => MeetingStep(st, code, m)
  }

  /** The body of the outer loop: get or create the class, enrol the student unless already a member,
      then store the course's meetings. */
  function CourseStep(st: StoreState, student: StudentId, c: (string, Groups<Slot, InstanceEvent>)): Run
  {
    var st1 := st.GetOrCreateClass(c.0);
    var st2 := if !st1.IsMember(student, c.0) then st1.AddStudent(student, c.0) else st1;
    Fold(st2, MeetingSteps(c.0), c.1)
  }

  function CourseSteps(student: StudentId): (StoreState, (string, Groups<Slot, InstanceEvent>)) -> Run
  {
    (st: StoreState, c: (string, Groups<Slot, InstanceEvent>)) => CourseStep(st, student, c)
  }

  /** The meetings named by the slots of one course. */
  function SlotKeys(code: string, g: Groups<Slot, InstanceEvent>): set<MeetingKey>
  {
    if |g| == 0 then {} else SlotKeys(code, g[..|g| - 1]) + {KeyOf(code, g[|g| - 1].0)}
  }

  /** `active_meeting_pks`: the meetings named by all slots of all courses. */
  function Touched(c: Courses): set<MeetingKey>
  {
    if |c| == 0 then {} else Touched(c[..|c| - 1]) + SlotKeys(c[|c| - 1].0, c[|c| - 1].1)
  }

  /** The store after the call, and the inactive meetings it returns or the exception it raises. */
  datatype Outcome = Outcome(store: StoreState, result: Result<set<MeetingKey>, Error>)

  /** The three loops, then the inactive meetings: those of the student's classes left untouched. */
  function Reconcile(st: StoreState, student: StudentId, c: Courses): (r: Outcome)
    ensures r.result.Ok? ==> forall k :: k in r.result.value ==>
      k in r.store.meetings && !r.store.meetings[k] && k !in Touched(c) && r.store.IsMember(student, k.classCode)
  {
    var r := Fold(st, CourseSteps(student), c);
    if r.failure.Some? then Outcome(r.store, Err(r.failure.value))
    else
      var inactive := r.store.StudentMeetings(student) - Touched(c);
      Outcome(r.store.Deactivate(inactive), Ok(inactive))
  }

  /** `get_or_create_meetings(json_data, student)`: `json_to_courses`, then the merge. */
  function GetOrCreateMeetings(st: StoreState, student: StudentId, raws: seq<RawEvent>,
                               makeTime: TimeParser, makeDate: DateParser): (r: Outcome)
    ensures CoursesOf(raws, makeTime, makeDate).Err? ==> r.store == st && r.result.Err?
    ensures r.result.Ok? ==> forall k :: k in r.result.value ==>
      k in r.store.meetings && !r.store.meetings[k] && r.store.IsMember(student, k.classCode)
  {
    match CoursesOf(raws, makeTime, makeDate)
    case Err(e) => Outcome(st, Err(e))
    case Ok(c) => Reconcile(st, student, c)
  }

  /** One iteration of the innermost loop on the database. */
  method StoreInstance(db: Db, key: MeetingKey, x: InstanceEvent) returns (failure: Option<Error>)
    modifies db
    ensures Run(db.State(), failure) == InstanceStep(old(db.State()), key, x)
  {
    db.GetOrCreateBuilding(x.room[0]);
    if |x.room| < 2 {
      return Some(NoRoomCode(x.room[0]));
    }
    failure := db.GetOrCreateRoom(x.room[0], x.room[1]);
    if failure.Some? {
      return;
    }
    failure := db.GetOrCreateInstance(InstanceKey(x.date, x.room[1], key));
  }

  /** `for instance in instances: ...` */
  method StoreInstances(db: Db, key: MeetingKey, xs: seq<InstanceEvent>) returns (failure: Option<Error>)
    modifies db
    ensures Run(db.State(), failure) == Fold(old(db.State()), InstanceSteps(key), xs)
  {
    var i := 0;
    while i < |xs|
      invariant 0 <= i <= |xs|
      invariant Fold(old(db.State()), InstanceSteps(key), xs[..i]) == Run(db.State(), None)
    {
      assert xs[..i + 1][..i] == xs[..i];
      failure := StoreInstance(db, key, xs[i]);
      if failure.Some? {
        FoldStopsAt(old(db.State()), InstanceSteps(key), xs, i + 1);
        return;
      }
      i := i + 1;
    }
    assert xs[..i] == xs;
    failure := None;
  }

  /** One iteration of the middle loop; `key` is the pk appended to `active_meeting_pks`. */
  method StoreMeeting(db: Db, code: string, m: (Slot, seq<InstanceEvent>)) returns (failure: Option<Error>, key: MeetingKey)
    modifies db
    ensures Run(db.State(), failure) == MeetingStep(old(db.State()), code, m)
    ensures key == KeyOf(code, m.0)
  {
    key := KeyOf(code, m.0);
    var created := db.GetOrCreateMeeting(key);
    if !created && !db.meetings[key] {
      db.SetActive(key, true);
    }
    failure := StoreInstances(db, key, m.1);
  }

  /** `for meeting, instances in meetings.items(): ...`, collecting the touched meetings. */
  method StoreMeetings(db: Db, code: string, g: Groups<Slot, InstanceEvent>) returns (failure: Option<Error>, touched: set<MeetingKey>)
    modifies db
    ensures Run(db.State(), failure) == Fold(old(db.State()), MeetingSteps(code), g)
    ensures failure.None? ==> touched == SlotKeys(code, g)
  {
    touched := {};
    var i := 0;
    while i < |g|
      invariant 0 <= i <= |g|
      invariant Fold(old(db.State()), MeetingSteps(code), g[..i]) == Run(db.State(), None)
      invariant touched == SlotKeys(code, g[..i])
    {
      assert g[..i + 1][..i] == g[..i];
      var key;
      failure, key := StoreMeeting(db, code, g[i]);
      touched := touched + {key};
      if failure.Some? {
        FoldStopsAt(old(db.State()), MeetingSteps(code), g, i + 1);
        return;
      }
      i := i + 1;
    }
    assert g[..i] == g;
    failure := None;
  }

  /** One iteration of the outer loop. */
  method StoreCourse(db: Db, student: StudentId, c: (string, Groups<Slot, InstanceEvent>)) returns (failure: Option<Error>, touched: set<MeetingKey>)
    modifies db
    ensures Run(db.State(), failure) == CourseStep(old(db.State()), student, c)
    ensures failure.None? ==> touched == SlotKeys(c.0, c.1)
  {
    db.GetOrCreateClass(c.0);
    db.AddStudentIfAbsent(student, c.0);
    failure, touched := StoreMeetings(db, c.0, c.1);
  }

  /** `for course_name, meetings in courses.items(): ...` */
  method StoreCourses(db: Db, student: StudentId, c: Courses) returns (failure: Option<Error>, touched: set<MeetingKey>)
    modifies db
    ensures Run(db.State(), failure) == Fold(old(db.State()), CourseSteps(student), c)
    ensures failure.None? ==> touched == Touched(c)
  {
    touched := {};
    var i := 0;
    while i < |c|
      invariant 0 <= i <= |c|
      invariant Fold(old(db.State()), CourseSteps(student), c[..i]) == Run(db.State(), None)
      invariant touched == Touched(c[..i])
    {
      assert c[..i + 1][..i] == c[..i];
      var keys;
      failure, keys := StoreCourse(db, student, c[i]);
      if failure.Some? {
        FoldStopsAt(old(db.State()), CourseSteps(student), c, i + 1);
        return;
      }
      touched := touched + keys;
      i := i + 1;
    }
    assert c[..i] == c;
    failure := None;
  }

  /** `get_or_create_meetings` on the database. */
  method GetOrCreateMeetingsIn(db: Db, student: StudentId, raws: seq<RawEvent>,
                               makeTime: TimeParser, makeDate: DateParser) returns (r: Result<set<MeetingKey>, Error>)
    modifies db
    ensures Outcome(db.State(), r) == GetOrCreateMeetings(old(db.State()), student, raws, makeTime, makeDate)
  {
    var courses := JsonToCourses(raws, makeTime, makeDate);
    if courses.Err? {
      return Err(courses.error);
    }
    var failure, touched := StoreCourses(db, student, courses.value);
    if failure.Some? {
      return Err(failure.value);
    }
    var inactive := db.State().StudentMeetings(student) - touched;
    db.Deactivate(inactive);
    r := Ok(inactive);
  }
}
