/** What `get_or_create_meetings` does to the store, proved about the model in `Reconcile`. The records
    one input names are collected in a `Delta`; a successful run adds exactly those records, ends with
    every touched meeting active, and returns and deactivates exactly the untouched meetings of the
    student's classes. A second run on its own result changes nothing. */
module ReconcilerProps {
  import opened Wrappers
  import opened Calendar
  import opened Grouping
  import opened Events
  import opened Store
  import opened Reconciler

  /** Sets of records, one per table; rooms as (code, building) pairs. */
  datatype Delta = Delta(classes: set<string>, enrolled: set<Enrolment>, meetings: set<MeetingKey>,
                         buildings: set<string>, rooms: set<(string, string)>, instances: set<InstanceKey>)

  const NoDelta: Delta := Delta({}, {}, {}, {}, {}, {})

  function Union(a: Delta, b: Delta): Delta
  {
    Delta(a.classes + b.classes, a.enrolled + b.enrolled, a.meetings + b.meetings,
          a.buildings + b.buildings, a.rooms + b.rooms, a.instances + b.instances)
  }

  /** Every record of `a` is in `b`. */
  predicate Within(a: Delta, b: Delta)
  {
    a.classes <= b.classes && a.enrolled <= b.enrolled && a.meetings <= b.meetings
    && a.buildings <= b.buildings && a.rooms <= b.rooms && a.instances <= b.instances
  }

  /** The rooms table as (code, building) pairs. */
  function RoomPairs(m: map<string, string>): (r: set<(string, string)>)
    ensures forall c, b :: (c, b) in r <==> c in m && m[c] == b
  {
    set c | c in m :: (c, m[c])
  }

  /** `b` is `a` with the records of `d` added, the meetings of `d` active and nothing else changed. */
  predicate Extends(a: StoreState, b: StoreState, d: Delta)
  {
    && b.classes == a.classes + d.classes
    && b.enrolled == a.enrolled + d.enrolled
    && b.meetings.Keys == a.meetings.Keys + d.meetings
    && (forall k :: k in d.meetings ==> b.meetings[k])
    && (forall k :: k in a.meetings && k !in d.meetings ==> b.meetings[k] == a.meetings[k])
    && b.buildings == a.buildings + d.buildings
    && RoomPairs(b.rooms) == RoomPairs(a.rooms) + d.rooms
    && b.instances == a.instances + d.instances
    && b.beacons == a.beacons && b.shuffledIds == a.shuffledIds
  }

  /** `s` already holds every record of `d`, with the meetings of `d` active. */
  predicate Covers(s: StoreState, d: Delta)
  {
    && d.classes <= s.classes && d.enrolled <= s.enrolled
    && (forall k :: k in d.meetings ==> k in s.meetings && s.meetings[k])
    && d.buildings <= s.buildings && d.rooms <= RoomPairs(s.rooms) && d.instances <= s.instances
  }

  lemma ExtendsCompose(a: StoreState, b: StoreState, c: StoreState, d1: Delta, d2: Delta)
    requires Extends(a, b, d1) && Extends(b, c, d2)
    ensures Extends(a, c, Union(d1, d2))
  {
    var d := Union(d1, d2);
    forall k | k in a.meetings && k !in d.meetings ensures c.meetings[k] == a.meetings[k] {
      assert k in b.meetings;
    }
  }

  lemma CoversWithin(s: StoreState, a: Delta, b: Delta)
    requires Covers(s, b) && Within(a, b)
    ensures Covers(s, a)
  {
  }

  /** The union of the deltas of a loop's items. */
  function Deltas<T>(D: T -> Delta, xs: seq<T>): Delta
  {
    if |xs| == 0 then NoDelta else Union(Deltas(D, xs[..|xs| - 1]), D(xs[|xs| - 1]))
  }

  lemma {:induction false} DeltasContain<T>(D: T -> Delta, xs: seq<T>, i: int)
    requires 0 <= i < |xs|
    ensures Within(D(xs[i]), Deltas(D, xs))
  {
    if i < |xs| - 1 {
      assert xs[..|xs| - 1][i] == xs[i];
      DeltasContain(D, xs[..|xs| - 1], i);
    }
  }

  /** A loop whose every successful iteration adds its item's delta adds, when it completes, the union
      of the deltas. */
  lemma {:induction false} FoldExtends<T>(st: StoreState, step: (StoreState, T) -> Run, D: T -> Delta, xs: seq<T>)
    requires forall s, x :: step(s, x).failure.None? ==> Extends(s, step(s, x).store, D(x))
    ensures Fold(st, step, xs).failure.None? ==> Extends(st, Fold(st, step, xs).store, Deltas(D, xs))
  {
    if |xs| > 0 {
      var init := xs[..|xs| - 1];
      FoldExtends(st, step, D, init);
      var r := Fold(st, step, init);
      if r.failure.None? && step(r.store, xs[|xs| - 1]).failure.None? {
        ExtendsCompose(st, r.store, step(r.store, xs[|xs| - 1]).store, Deltas(D, init), D(xs[|xs| - 1]));
      }
    } else {
      assert Extends(st, st, NoDelta);
    }
  }

  /** A loop whose iterations keep `P` and, on items meeting `A`, fail only with errors meeting `Q`,
      keeps `P` and fails only that way. */
  lemma {:induction false} FoldFailures<T>(st: StoreState, step: (StoreState, T) -> Run, xs: seq<T>,
                                           P: StoreState -> bool, A: T -> bool, Q: Error -> bool)
    requires forall s, x :: P(s) && A(x) ==> P(step(s, x).store)
    requires forall s, x :: P(s) && A(x) && step(s, x).failure.Some? ==> Q(step(s, x).failure.value)
    requires P(st) && forall i :: 0 <= i < |xs| ==> A(xs[i])
    ensures P(Fold(st, step, xs).store)
    ensures Fold(st, step, xs).failure.Some? ==> Q(Fold(st, step, xs).failure.value)
  {
    if |xs| > 0 {
      var init := xs[..|xs| - 1];
      assert forall i :: 0 <= i < |init| ==> init[i] == xs[i];
      FoldFailures(st, step, init, P, A, Q);
    }
  }

  /** A loop that completes ran every iteration successfully, so every item met `G` when each
      successful iteration needs it. */
  lemma {:induction false} FoldGood<T>(st: StoreState, step: (StoreState, T) -> Run, xs: seq<T>, G: T -> bool)
    requires forall s, x :: step(s, x).failure.None? ==> G(x)
    requires Fold(st, step, xs).failure.None?
    ensures forall i :: 0 <= i < |xs| ==> G(xs[i])
  {
    if |xs| > 0 {
      var init := xs[..|xs| - 1];
      assert Fold(st, step, init).failure.None?;
      FoldGood(st, step, init, G);
      forall i | 0 <= i < |xs| ensures G(xs[i]) {
        if i < |init| {
          assert init[i] == xs[i];
        }
      }
    }
  }

  /** A loop whose iterations change nothing on a store that already holds their records changes
      nothing. */
  lemma {:induction false} FoldFixed<T>(st: StoreState, step: (StoreState, T) -> Run, xs: seq<T>, D: T -> Delta, G: T -> bool)
    requires forall s, x :: G(x) && Covers(s, D(x)) ==> step(s, x) == Run(s, None)
    requires forall i :: 0 <= i < |xs| ==> G(xs[i]) && Covers(st, D(xs[i]))
    ensures Fold(st, step, xs) == Run(st, None)
  {
    if |xs| > 0 {
      var init := xs[..|xs| - 1];
      assert forall i :: 0 <= i < |init| ==> init[i] == xs[i];
      FoldFixed(st, step, init, D, G);
    }
  }

  // ----- The records each loop body names -----

  function InstanceDelta(key: MeetingKey, x: InstanceEvent): Delta
  {
    if |x.room| < 2 then Delta({}, {}, {}, {x.room[0]}, {}, {})
    else Delta({}, {}, {}, {x.room[0]}, {(x.room[1], x.room[0])}, {InstanceKey(x.date, x.room[1], key)})
  }

  function InstanceDeltas(key: MeetingKey): InstanceEvent -> Delta
  {
    (x: InstanceEvent) => InstanceDelta(key, x)
  }

  function MeetingDelta(code: string, m: (Slot, seq<InstanceEvent>)): Delta
  {
    var key := KeyOf(code, m.0);
    Union(Delta({}, {}, {key}, {}, {}, {}), Deltas(InstanceDeltas(key), m.1))
  }

  function MeetingDeltas(code: string): ((Slot, seq<InstanceEvent>)) -> Delta
  {
    (m: (Slot, seq<InstanceEvent>)) => MeetingDelta(code, m)
  }

  function CourseDelta(student: StudentId, c: (string, Groups<Slot, InstanceEvent>)): Delta
  {
    Union(Delta({c.0}, {Enrolment(student, c.0)}, {}, {}, {}, {}), Deltas(MeetingDeltas(c.0), c.1))
  }

  function CourseDeltas(student: StudentId): ((string, Groups<Slot, InstanceEvent>)) -> Delta
  {
    (c: (string, Groups<Slot, InstanceEvent>)) => CourseDelta(student, c)
  }

  /** Every record a run over courses `c` for `student` gets or creates. */
  function Named(student: StudentId, c: Courses): Delta
  {
    Deltas(CourseDeltas(student), c)
  }

  /** The course names of `c`. */
  function Codes(c: Courses): set<string>
  {
    if |c| == 0 then {} else Codes(c[..|c| - 1]) + {c[|c| - 1].0}
  }

  /** Instance labels have a room code. */
  predicate GoodInstance(x: InstanceEvent)
  {
    |x.room| == 2
  }

  predicate GoodMeeting(m: (Slot, seq<InstanceEvent>))
  {
    forall l :: 0 <= l < |m.1| ==> GoodInstance(m.1[l])
  }

  predicate GoodCourse(c: (string, Groups<Slot, InstanceEvent>))
  {
    forall j :: 0 <= j < |c.1| ==> GoodMeeting(c.1[j])
  }

  // ----- The innermost loop -----

  lemma RoomPairsUpdate(m: map<string, string>, c: string, b: string)
    requires c !in m
    ensures RoomPairs(m[c := b]) == RoomPairs(m) + {(c, b)}
  {
  }

  lemma InstanceStepExtends(s: StoreState, key: MeetingKey, x: InstanceEvent)
    requires InstanceStep(s, key, x).failure.None?
    ensures Extends(s, InstanceStep(s, key, x).store, InstanceDelta(key, x))
    ensures GoodInstance(x)
  {
    var st1 := s.GetOrCreateBuilding(x.room[0]);
    if x.room[1] !in st1.rooms {
      RoomPairsUpdate(st1.rooms, x.room[1], x.room[0]);
    }
  }

  lemma InstanceStepFixed(s: StoreState, key: MeetingKey, x: InstanceEvent)
    requires GoodInstance(x) && Covers(s, InstanceDelta(key, x))
    ensures InstanceStep(s, key, x) == Run(s, None)
  {
    assert (x.room[1], x.room[0]) in RoomPairs(s.rooms);
  }

  /** On a meeting in the store and an instance on the meeting's weekday, the only possible failures
      are a label without a room code and a room code taken by another building. */
  lemma InstanceStepFailures(s: StoreState, key: MeetingKey, x: InstanceEvent)
    requires key in s.meetings && Weekday(x.date) == key.dayOfWeek
    ensures key in InstanceStep(s, key, x).store.meetings
    ensures InstanceStep(s, key, x).failure.Some? ==> RoomError(InstanceStep(s, key, x).failure.value)
  {
  }

  lemma InstanceStepValid(s: StoreState, key: MeetingKey, x: InstanceEvent)
    requires Valid(s)
    ensures Valid(InstanceStep(s, key, x).store)
  {
    GetOrCreatePreservesValid(s, x.room[0], if |x.room| == 2 then x.room[1] else "", InstanceKey(x.date, if |x.room| == 2 then x.room[1] else "", key));
    var st1 := s.GetOrCreateBuilding(x.room[0]);
    if |x.room| == 2 && st1.GetOrCreateRoom(x.room[0], x.room[1]).Ok? {
      GetOrCreatePreservesValid(st1, x.room[0], x.room[1], InstanceKey(x.date, x.room[1], key));
      var st2 := st1.GetOrCreateRoom(x.room[0], x.room[1]).value;
      GetOrCreatePreservesValid(st2, x.room[0], x.room[1], InstanceKey(x.date, x.room[1], key));
    }
  }

  /** The failures a timetable can cause once it has parsed. */
  predicate RoomError(e: Error)
  {
    e.NoRoomCode? || e.RoomCodeTaken?
  }

  // ----- The middle loop -----

  /** Getting or creating a meeting and reactivating it leaves it in the store and active. */
  function Activated(s: StoreState, key: MeetingKey): (r: StoreState)
    ensures Extends(s, r, Delta({}, {}, {key}, {}, {}, {}))
  {
    var (st1, created) := s.GetOrCreateMeeting(key);
    if !created && !st1.meetings[key] then st1.SetActive(key, true) else st1
  }

  lemma MeetingStepIsFold(s: StoreState, code: string, m: (Slot, seq<InstanceEvent>))
    ensures MeetingStep(s, code, m) == Fold(Activated(s, KeyOf(code, m.0)), InstanceSteps(KeyOf(code, m.0)), m.1)
  {
  }

  lemma MeetingStepExtends(s: StoreState, code: string, m: (Slot, seq<InstanceEvent>))
    requires MeetingStep(s, code, m).failure.None?
    ensures Extends(s, MeetingStep(s, code, m).store, MeetingDelta(code, m))
    ensures GoodMeeting(m)
  {
    var key := KeyOf(code, m.0);
    var st2 := Activated(s, key);
    MeetingStepIsFold(s, code, m);
    forall s', x | InstanceSteps(key)(s', x).failure.None?
      ensures Extends(s', InstanceSteps(key)(s', x).store, InstanceDeltas(key)(x))
    {
      InstanceStepExtends(s', key, x);
    }
    FoldExtends(st2, InstanceSteps(key), InstanceDeltas(key), m.1);
    ExtendsCompose(s, st2, MeetingStep(s, code, m).store, Delta({}, {}, {key}, {}, {}, {}), Deltas(InstanceDeltas(key), m.1));
    forall s', x | InstanceSteps(key)(s', x).failure.None? ensures GoodInstance(x) {
      InstanceStepExtends(s', key, x);
    }
    FoldGood(st2, InstanceSteps(key), m.1, GoodInstance);
  }

  lemma MeetingStepFixed(s: StoreState, code: string, m: (Slot, seq<InstanceEvent>))
    requires GoodMeeting(m) && Covers(s, MeetingDelta(code, m))
    ensures MeetingStep(s, code, m) == Run(s, None)
  {
    var key := KeyOf(code, m.0);
    assert key in MeetingDelta(code, m).meetings;
    assert Activated(s, key) == s;
    MeetingStepIsFold(s, code, m);
    forall s', x | GoodInstance(x) && Covers(s', InstanceDeltas(key)(x))
      ensures InstanceSteps(key)(s', x) == Run(s', None)
    {
      InstanceStepFixed(s', key, x);
    }
    forall l | 0 <= l < |m.1| ensures Covers(s, InstanceDeltas(key)(m.1[l])) {
      DeltasContain(InstanceDeltas(key), m.1, l);
      CoversWithin(s, InstanceDeltas(key)(m.1[l]), MeetingDelta(code, m));
    }
    FoldFixed(s, InstanceSteps(key), m.1, InstanceDeltas(key), GoodInstance);
  }

  /** Every instance of a slot on the slot's weekday. */
  predicate OnWeekday(m: (Slot, seq<InstanceEvent>))
  {
    forall l :: 0 <= l < |m.1| ==> Weekday(m.1[l].date) == m.0.weekday
  }

  lemma MeetingStepFailures(s: StoreState, code: string, m: (Slot, seq<InstanceEvent>))
    requires OnWeekday(m)
    ensures MeetingStep(s, code, m).failure.Some? ==> RoomError(MeetingStep(s, code, m).failure.value)
  {
    var key := KeyOf(code, m.0);
    MeetingStepIsFold(s, code, m);
    var P := (s': StoreState) => key in s'.meetings;
    var A := (x: InstanceEvent) => Weekday(x.date) == key.dayOfWeek;
    forall s', x | P(s') && A(x) ensures P(InstanceSteps(key)(s', x).store)
      && (InstanceSteps(key)(s', x).failure.Some? ==> RoomError(InstanceSteps(key)(s', x).failure.value))
    {
      InstanceStepFailures(s', key, x);
    }
    FoldFailures(Activated(s, key), InstanceSteps(key), m.1, P, A, RoomError);
  }

  /** A valid store holding class `code`. */
  function ValidWith(code: string): StoreState -> bool
  {
    (s: StoreState) => Valid(s) && code in s.classes
  }

  lemma InstanceStepsValid(key: MeetingKey, code: string)
    ensures forall s, x :: ValidWith(code)(s) ==> ValidWith(code)(InstanceSteps(key)(s, x).store)
  {
    forall s, x | ValidWith(code)(s) ensures ValidWith(code)(InstanceSteps(key)(s, x).store) {
      InstanceStepValid(s, key, x);
    }
  }

  lemma ActivatedValid(s: StoreState, key: MeetingKey)
    requires Valid(s) && key.classCode in s.classes
    ensures Valid(Activated(s, key))
  {
    MeetingOperationsPreserveValid(s, 0, key, {});
    MeetingOperationsPreserveValid(s.GetOrCreateMeeting(key).0, 0, key, {});
  }

  lemma MeetingStepValid(s: StoreState, code: string, m: (Slot, seq<InstanceEvent>))
    requires Valid(s) && code in s.classes
    ensures Valid(MeetingStep(s, code, m).store) && code in MeetingStep(s, code, m).store.classes
  {
    var key := KeyOf(code, m.0);
    MeetingStepIsFold(s, code, m);
    ActivatedValid(s, key);
    InstanceStepsValid(key, code);
    FoldFailures(Activated(s, key), InstanceSteps(key), m.1, ValidWith(code), (x: InstanceEvent) => true, (e: Error) => true);
  }

  // ----- The outer loop -----

  /** Getting or creating the class and enrolling the student. */
  function Enrolled(s: StoreState, student: StudentId, code: string): (r: StoreState)
    ensures Extends(s, r, Delta({code}, {Enrolment(student, code)}, {}, {}, {}, {}))
  {
    var st1 := s.GetOrCreateClass(code);
    if !st1.IsMember(student, code) then st1.AddStudent(student, code) else st1
  }

  lemma CourseStepIsFold(s: StoreState, student: StudentId, c: (string, Groups<Slot, InstanceEvent>))
    ensures CourseStep(s, student, c) == Fold(Enrolled(s, student, c.0), MeetingSteps(c.0), c.1)
  {
  }

  lemma CourseStepExtends(s: StoreState, student: StudentId, c: (string, Groups<Slot, InstanceEvent>))
    requires CourseStep(s, student, c).failure.None?
    ensures Extends(s, CourseStep(s, student, c).store, CourseDelta(student, c))
    ensures GoodCourse(c)
  {
    var code := c.0;
    var st2 := Enrolled(s, student, code);
    CourseStepIsFold(s, student, c);
    forall s', m | MeetingSteps(code)(s', m).failure.None?
      ensures Extends(s', MeetingSteps(code)(s', m).store, MeetingDeltas(code)(m)) && GoodMeeting(m)
    {
      MeetingStepExtends(s', code, m);
    }
    FoldExtends(st2, MeetingSteps(code), MeetingDeltas(code), c.1);
    ExtendsCompose(s, st2, CourseStep(s, student, c).store, Delta({code}, {Enrolment(student, code)}, {}, {}, {}, {}),
                   Deltas(MeetingDeltas(code), c.1));
    FoldGood(st2, MeetingSteps(code), c.1, GoodMeeting);
  }

  lemma CourseStepFixed(s: StoreState, student: StudentId, c: (string, Groups<Slot, InstanceEvent>))
    requires GoodCourse(c) && Covers(s, CourseDelta(student, c))
    ensures CourseStep(s, student, c) == Run(s, None)
  {
    var code := c.0;
    assert Enrolled(s, student, code) == s;
    CourseStepIsFold(s, student, c);
    forall s', m | GoodMeeting(m) && Covers(s', MeetingDeltas(code)(m))
      ensures MeetingSteps(code)(s', m) == Run(s', None)
    {
      MeetingStepFixed(s', code, m);
    }
    forall j | 0 <= j < |c.1| ensures Covers(s, MeetingDeltas(code)(c.1[j])) {
      DeltasContain(MeetingDeltas(code), c.1, j);
      CoversWithin(s, MeetingDeltas(code)(c.1[j]), CourseDelta(student, c));
    }
    FoldFixed(s, MeetingSteps(code), c.1, MeetingDeltas(code), GoodMeeting);
  }

  lemma CourseStepFailures(s: StoreState, student: StudentId, c: (string, Groups<Slot, InstanceEvent>))
    requires SlotsConsistent(c.1)
    ensures CourseStep(s, student, c).failure.Some? ==> RoomError(CourseStep(s, student, c).failure.value)
  {
    var code := c.0;
    CourseStepIsFold(s, student, c);
    forall s', m | OnWeekday(m)
      ensures MeetingSteps(code)(s', m).failure.Some? ==> RoomError(MeetingSteps(code)(s', m).failure.value)
    {
      MeetingStepFailures(s', code, m);
    }
    forall j | 0 <= j < |c.1| ensures OnWeekday(c.1[j]) {
      forall l | 0 <= l < |c.1[j].1| ensures Weekday(c.1[j].1[l].date) == c.1[j].0.weekday {
        assert c.1[j].1[l] in c.1[j].1;
      }
    }
    FoldFailures(Enrolled(s, student, code), MeetingSteps(code), c.1, (s': StoreState) => true, OnWeekday, RoomError);
  }

  lemma MeetingStepsValid(code: string)
    ensures forall s, m :: ValidWith(code)(s) ==> ValidWith(code)(MeetingSteps(code)(s, m).store)
  {
    forall s, m | ValidWith(code)(s) ensures ValidWith(code)(MeetingSteps(code)(s, m).store) {
      MeetingStepValid(s, code, m);
    }
  }

  lemma EnrolledValid(s: StoreState, student: StudentId, code: string)
    requires Valid(s)
    ensures ValidWith(code)(Enrolled(s, student, code))
  {
    GetOrCreatePreservesValid(s, code, "", InstanceKey(Ymd(1, 1, 1), "", MeetingKey(Time(0, 0, 0), Time(0, 0, 0), 0, code)));
    MeetingOperationsPreserveValid(s.GetOrCreateClass(code), student, MeetingKey(Time(0, 0, 0), Time(0, 0, 0), 0, code), {});
  }

  lemma CourseStepValid(s: StoreState, student: StudentId, c: (string, Groups<Slot, InstanceEvent>))
    requires Valid(s)
    ensures Valid(CourseStep(s, student, c).store)
  {
    CourseStepIsFold(s, student, c);
    EnrolledValid(s, student, c.0);
    MeetingStepsValid(c.0);
    FoldFailures(Enrolled(s, student, c.0), MeetingSteps(c.0), c.1, ValidWith(c.0), (m: (Slot, seq<InstanceEvent>)) => true, (e: Error) => true);
  }

  // ----- The whole pass -----

  /** A completed pass adds exactly the records the courses name, and every label it met had a room code. */
  lemma RunExtends(st: StoreState, student: StudentId, c: Courses)
    requires Fold(st, CourseSteps(student), c).failure.None?
    ensures Extends(st, Fold(st, CourseSteps(student), c).store, Named(student, c))
    ensures forall i :: 0 <= i < |c| ==> GoodCourse(c[i])
  {
    forall s', x | CourseSteps(student)(s', x).failure.None?
      ensures Extends(s', CourseSteps(student)(s', x).store, CourseDeltas(student)(x)) && GoodCourse(x)
    {
      CourseStepExtends(s', student, x);
    }
    FoldExtends(st, CourseSteps(student), CourseDeltas(student), c);
    FoldGood(st, CourseSteps(student), c, GoodCourse);
  }

  lemma {:induction false} InstanceDeltasShape(key: MeetingKey, xs: seq<InstanceEvent>)
    ensures var d := Deltas(InstanceDeltas(key), xs); d.classes == {} && d.enrolled == {} && d.meetings == {}
  {
    if |xs| > 0 {
      InstanceDeltasShape(key, xs[..|xs| - 1]);
    }
  }

  lemma {:induction false} SlotDeltasShape(code: string, g: Groups<Slot, InstanceEvent>)
    ensures var d := Deltas(MeetingDeltas(code), g); d.classes == {} && d.enrolled == {} && d.meetings == SlotKeys(code, g)
    ensures forall k :: k in SlotKeys(code, g) ==> k.classCode == code
  {
    if |g| > 0 {
      SlotDeltasShape(code, g[..|g| - 1]);
      InstanceDeltasShape(KeyOf(code, g[|g| - 1].0), g[|g| - 1].1);
    }
  }

  /** The classes, enrolments and meetings a pass names: one class and one enrolment per course, and
      the touched meetings, each of a course's class. */
  lemma {:induction false} NamedShape(student: StudentId, c: Courses)
    ensures Named(student, c).classes == Codes(c) && Named(student, c).meetings == Touched(c)
    ensures forall e :: e in Named(student, c).enrolled <==> e.student == student && e.classCode in Codes(c)
    ensures forall k :: k in Touched(c) ==> k.classCode in Codes(c)
  {
    if |c| > 0 {
      NamedShape(student, c[..|c| - 1]);
      SlotDeltasShape(c[|c| - 1].0, c[|c| - 1].1);
    }
  }

  /** The meetings a successful pass returns and how it leaves the `active` flags: the untouched
      meetings of the student's classes (old classes and the courses' classes) are returned and
      flagged inactive, touched meetings exist and are active, and no other flag changes. */
  lemma ReconcileMeetings(st: StoreState, student: StudentId, c: Courses)
    requires Reconcile(st, student, c).result.Ok?
    ensures var out := Reconcile(st, student, c); var inactive := out.result.value;
      && (forall k :: k in inactive <==>
            (k in st.meetings && k !in Touched(c) && (st.IsMember(student, k.classCode) || k.classCode in Codes(c))))
      && out.store.meetings.Keys == st.meetings.Keys + Touched(c)
      && (forall k :: k in Touched(c) ==> out.store.meetings[k])
      && (forall k :: k in inactive ==> !out.store.meetings[k])
      && (forall k :: k in st.meetings && k !in Touched(c) && k !in inactive ==> out.store.meetings[k] == st.meetings[k])
  {
    var f := Fold(st, CourseSteps(student), c);
    RunExtends(st, student, c);
    NamedShape(student, c);
  }

  /** The other tables after a successful pass: the courses' classes, the student's enrolment in each,
      and the buildings, rooms and instances the timetable names are added; beacons are untouched. */
  lemma ReconcileTables(st: StoreState, student: StudentId, c: Courses)
    requires Reconcile(st, student, c).result.Ok?
    ensures var out := Reconcile(st, student, c);
      && out.store.classes == st.classes + Codes(c)
      && (forall e :: e in out.store.enrolled <==> e in st.enrolled || (e.student == student && e.classCode in Codes(c)))
      && out.store.buildings == st.buildings + Named(student, c).buildings
      && RoomPairs(out.store.rooms) == RoomPairs(st.rooms) + Named(student, c).rooms
      && out.store.instances == st.instances + Named(student, c).instances
      && out.store.beacons == st.beacons && out.store.shuffledIds == st.shuffledIds
  {
    RunExtends(st, student, c);
    NamedShape(student, c);
  }

  /** A store that already holds every record the courses name, with their meetings active, is left
      as it is by the three loops. */
  lemma CoveredPassFixed(s: StoreState, student: StudentId, c: Courses)
    requires Covers(s, Named(student, c))
    requires forall i :: 0 <= i < |c| ==> GoodCourse(c[i])
    ensures Fold(s, CourseSteps(student), c) == Run(s, None)
  {
    forall s', x | GoodCourse(x) && Covers(s', CourseDeltas(student)(x))
      ensures CourseSteps(student)(s', x) == Run(s', None)
    {
      CourseStepFixed(s', student, x);
    }
    forall i | 0 <= i < |c| ensures Covers(s, CourseDeltas(student)(c[i])) {
      DeltasContain(CourseDeltas(student), c, i);
      CoversWithin(s, CourseDeltas(student)(c[i]), Named(student, c));
    }
    FoldFixed(s, CourseSteps(student), c, CourseDeltas(student), GoodCourse);
  }

  /** A second pass over the same courses, on the store the first one left, creates nothing, changes
      nothing and returns the same inactive meetings. */
  lemma ReconcileIdempotent(st: StoreState, student: StudentId, c: Courses)
    requires Reconcile(st, student, c).result.Ok?
    ensures Reconcile(Reconcile(st, student, c).store, student, c) == Reconcile(st, student, c)
  {
    var f := Fold(st, CourseSteps(student), c).store;
    var inactive := f.StudentMeetings(student) - Touched(c);
    var out := f.Deactivate(inactive);
    RunExtends(st, student, c);
    NamedShape(student, c);
    assert Covers(out, Named(student, c));
    CoveredPassFixed(out, student, c);
    assert out.StudentMeetings(student) == f.StudentMeetings(student);
    assert out.Deactivate(inactive).meetings == out.meetings;
  }

  lemma CourseStepsValid(student: StudentId)
    ensures forall s, x :: Valid(s) ==> Valid(CourseSteps(student)(s, x).store)
  {
    forall s, x | Valid(s) ensures Valid(CourseSteps(student)(s, x).store) {
      CourseStepValid(s, student, x);
    }
  }

  /** Every pass, complete or stopped by an exception, leaves a valid store valid: in particular every
      stored instance falls on its meeting's weekday. */
  lemma ReconcileValid(st: StoreState, student: StudentId, c: Courses)
    requires Valid(st)
    ensures Valid(Reconcile(st, student, c).store)
  {
    CourseStepsValid(student);
    FoldFailures(st, CourseSteps(student), c, Valid, (x: (string, Groups<Slot, InstanceEvent>)) => true, (e: Error) => true);
    var f := Fold(st, CourseSteps(student), c).store;
    MeetingOperationsPreserveValid(f, student, MeetingKey(Time(0, 0, 0), Time(0, 0, 0), 0, ""), f.StudentMeetings(student) - Touched(c));
  }

  /** Courses grouped by weekday never make the save-time weekday check fire: a pass over them fails
      only on a room label without a code or on a room code taken by another building. */
  lemma ReconcileFailures(st: StoreState, student: StudentId, c: Courses)
    requires CoursesConsistent(c)
    ensures Reconcile(st, student, c).result.Err? ==> RoomError(Reconcile(st, student, c).result.error)
  {
    forall s': StoreState, x: (string, Groups<Slot, InstanceEvent>) | SlotsConsistent(x.1)
      ensures CourseSteps(student)(s', x).failure.Some? ==> RoomError(CourseSteps(student)(s', x).failure.value)
    {
      CourseStepFailures(s', student, x);
    }
    FoldFailures(st, CourseSteps(student), c, (s': StoreState) => true,
                 (x: (string, Groups<Slot, InstanceEvent>)) => SlotsConsistent(x.1), RoomError);
  }

  /** Every label of a completed pass had a room code. */
  lemma LabelsHaveCodes(st: StoreState, student: StudentId, c: Courses, i: int, j: int, l: int)
    requires Fold(st, CourseSteps(student), c).failure.None?
    requires 0 <= i < |c| && 0 <= j < |c[i].1| && 0 <= l < |c[i].1[j].1|
    ensures |c[i].1[j].1[l].room| == 2
  {
    RunExtends(st, student, c);
    assert GoodCourse(c[i]);
    assert GoodMeeting(c[i].1[j]);
  }

  /** `split_room` left a label without a colon as one part, so `instance['room'][1]` stops the pass. */
  lemma MissingRoomCodeFails(st: StoreState, student: StudentId, c: Courses, i: int, j: int, l: int)
    requires 0 <= i < |c| && 0 <= j < |c[i].1| && 0 <= l < |c[i].1[j].1|
    requires |c[i].1[j].1[l].room| < 2
    ensures Reconcile(st, student, c).result.Err?
  {
    if Fold(st, CourseSteps(student), c).failure.None? {
      LabelsHaveCodes(st, student, c, i, j, l);
      assert false;
    }
  }

  /** After a completed pass every room a label names is stored under the label's building, and every
      room stored before keeps its building. */
  lemma RoomsStored(st: StoreState, student: StudentId, c: Courses, i: int, j: int, l: int)
    requires Fold(st, CourseSteps(student), c).failure.None?
    requires 0 <= i < |c| && 0 <= j < |c[i].1| && 0 <= l < |c[i].1[j].1|
    ensures var f := Fold(st, CourseSteps(student), c).store; var x := c[i].1[j].1[l];
      && |x.room| == 2 && x.room[1] in f.rooms && f.rooms[x.room[1]] == x.room[0]
      && (x.room[1] in st.rooms ==> f.rooms[x.room[1]] == st.rooms[x.room[1]])
  {
    var f := Fold(st, CourseSteps(student), c).store;
    LabelsHaveCodes(st, student, c, i, j, l);
    RunExtends(st, student, c);
    var code := c[i].0;
    var m := c[i].1[j];
    var x := m.1[l];
    var key := KeyOf(code, m.0);
    DeltasContain(InstanceDeltas(key), m.1, l);
    DeltasContain(MeetingDeltas(code), c[i].1, j);
    DeltasContain(CourseDeltas(student), c, i);
    assert (x.room[1], x.room[0]) in Named(student, c).rooms;
    if x.room[1] in st.rooms {
      assert (x.room[1], st.rooms[x.room[1]]) in RoomPairs(f.rooms);
    }
  }

  /** A room code already stored under another building can never be got or created under this one,
      so a timetable naming it stops the pass. */
  lemma RoomConflictFails(st: StoreState, student: StudentId, c: Courses, i: int, j: int, l: int)
    requires 0 <= i < |c| && 0 <= j < |c[i].1| && 0 <= l < |c[i].1[j].1|
    requires var x := c[i].1[j].1[l]; |x.room| == 2 && x.room[1] in st.rooms && st.rooms[x.room[1]] != x.room[0]
    ensures Reconcile(st, student, c).result.Err?
  {
    if Fold(st, CourseSteps(student), c).failure.None? {
      RoomsStored(st, student, c, i, j, l);
      assert false;
    }
  }

  /** An empty timetable touches nothing: every meeting of the student's classes is returned and
      flagged inactive. */
  lemma EmptyTimetable(st: StoreState, student: StudentId)
    ensures Reconcile(st, student, []) == Outcome(st.Deactivate(st.StudentMeetings(student)), Ok(st.StudentMeetings(student)))
  {
    assert st.StudentMeetings(student) - Touched([]) == st.StudentMeetings(student);
  }

  /** A pass whose parse fails stores nothing; otherwise it fails only as `ReconcileFailures` allows. */
  lemma GetOrCreateMeetingsFailures(st: StoreState, student: StudentId, raws: seq<RawEvent>,
                                    makeTime: TimeParser, makeDate: DateParser)
    ensures var out := GetOrCreateMeetings(st, student, raws, makeTime, makeDate);
      out.result.Err? ==>
        || (out.store == st && (out.result.error.MissingKey? || out.result.error.BadTime? || out.result.error.BadDate?))
        || RoomError(out.result.error)
  {
    var parsed := ParsedEvents(raws, makeTime, makeDate);
    if parsed.Err? {
      var i :| 0 <= i < |raws| && ParseEvent(raws[i], makeTime, makeDate) == Err(parsed.error);
    } else {
      var c := CoursesOf(raws, makeTime, makeDate);
      WithSlotsConsistent(GroupBy(CoursePairs(parsed.value)));
      ReconcileFailures(st, student, c.value);
    }
  }

  /** `get_or_create_meetings` called twice with the same timetable: the second call, on the store the
      first one left, changes nothing and returns the same inactive meetings as the first. */
  lemma GetOrCreateMeetingsIdempotent(st: StoreState, student: StudentId, raws: seq<RawEvent>,
                                      makeTime: TimeParser, makeDate: DateParser)
    ensures var first := GetOrCreateMeetings(st, student, raws, makeTime, makeDate);
      first.result.Ok? ==> GetOrCreateMeetings(first.store, student, raws, makeTime, makeDate) == first
  {
    var c := CoursesOf(raws, makeTime, makeDate);
    if c.Ok? && Reconcile(st, student, c.value).result.Ok? {
      ReconcileIdempotent(st, student, c.value);
    }
  }

  /** A successful pass gives no room a beacon and takes none away. */
  lemma ReconcileKeepsBeacons(st: StoreState, student: StudentId, c: Courses, code: string)
    requires Reconcile(st, student, c).result.Ok?
    ensures Reconcile(st, student, c).store.HasBeacon(code) <==> st.HasBeacon(code)
  {
    ReconcileTables(st, student, c);
  }

  /** The first scenario of tests.py: on a store with no meetings, a complete pass returns none. */
  lemma FreshStoreNothingInactive(st: StoreState, student: StudentId, c: Courses)
    requires st.meetings == map[]
    requires Reconcile(st, student, c).result.Ok?
    ensures Reconcile(st, student, c).result.value == {}
  {
    ReconcileMeetings(st, student, c);
  }

  /** The second scenario of tests.py: a student of class ABC with one stored meeting, Mondays 9:00 to
      10:00, and a timetable without course ABC: the pass returns exactly that meeting. */
  lemma StaleMeetingInactive(student: StudentId, c: Courses)
    requires "ABC" !in Codes(c)
    ensures var m0 := MeetingKey(Time(9, 0, 0), Time(10, 0, 0), 0, "ABC");
      var st := Empty.(classes := {"ABC"}, enrolled := {Enrolment(student, "ABC")}, meetings := map[m0 := true]);
      Reconcile(st, student, c).result.Ok? ==> Reconcile(st, student, c).result.value == {m0}
  {
    var m0 := MeetingKey(Time(9, 0, 0), Time(10, 0, 0), 0, "ABC");
    var st := Empty.(classes := {"ABC"}, enrolled := {Enrolment(student, "ABC")}, meetings := map[m0 := true]);
    if Reconcile(st, student, c).result.Ok? {
      ReconcileMeetings(st, student, c);
      NamedShape(student, c);
      assert m0 !in Touched(c);
      assert st.IsMember(student, m0.classCode);
    }
  }
}
