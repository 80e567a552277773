/** The records of models.py and the get-or-create operations the timetable reconciler performs on
    them, over an abstract store: one set or map per table, keyed by the table's uniqueness key, so
    a key stands for the one record it names. `Db` is the same store as an object whose methods
    update its tables in place. */
module Store {
  import opened Wrappers
  import opened Calendar

  /** A `Student` primary key. */
  type StudentId = nat

  /** A row of the `Student.classes` many-to-many table. */
  datatype Enrolment = Enrolment(student: StudentId, classCode: string)

  /** The lookup of `Meeting.objects.get_or_create`: times, weekday and the class's unique code. */
  datatype MeetingKey = MeetingKey(start: Time, end: Time, dayOfWeek: int, classCode: string)

  /** The lookup of `MeetingInstance.objects.get_or_create`; the room is named by its unique code. */
  datatype InstanceKey = InstanceKey(date: Date, roomCode: string, meeting: MeetingKey)

  /** The unique triple `(uuid, major, minor)` of a Beacon or of a ShuffledID. */
  datatype BeaconKey = BeaconKey(uuid: nat, major: int, minor: int)

  /** A ShuffledID row: the beacon it stands for and its expiry time (seconds). */
  datatype ShuffledId = ShuffledId(beacon: BeaconKey, validUntil: int)

  /** The `active` value a newly created Meeting gets. The field is read and written by the
      reconciler but not declared in models.py; a default of True is assumed. */
  const DefaultActive: bool := true

  /** `MeetingInstance.clean`: the date's weekday must be the meeting's `day_of_week`; otherwise a
      ValidationError naming both days, which itself raises IndexError when `Meeting.weekday` cannot
      name the meeting's day. */
  function Clean(date: Date, dayOfWeek: int): (r: Result<(), Error>)
    ensures r.Ok? <==> Weekday(date) == dayOfWeek
    ensures r.Err? && -7 <= dayOfWeek < 7 ==>
      r.error == WeekdayMismatch(DayNames[Weekday(date)], DayName(dayOfWeek).value)
    ensures r.Err? && !(-7 <= dayOfWeek < 7) ==> r.error == IndexOutOfRange
  {
    if Weekday(date) == dayOfWeek then Ok(())
    else match MeetingWeekday(Some(dayOfWeek))
      case Err(e) => Err(e)
      case Ok(name) => Err(WeekdayMismatch(DayName(Weekday(date)).value, name))
  }

  /** `Meeting.weekday`: the day name of `day_of_week` (Monday for 0), "" when it is None. */
  function MeetingWeekday(dayOfWeek: Option<int>): (r: Result<string, Error>)
    ensures dayOfWeek.None? ==> r == Ok("")
    ensures dayOfWeek.Some? && 0 <= dayOfWeek.value < 7 ==> r == Ok(DayNames[dayOfWeek.value])
    ensures dayOfWeek.Some? ==> (r.Ok? <==> -7 <= dayOfWeek.value < 7)
    ensures r.Err? ==> r.error == IndexOutOfRange
  {
    match dayOfWeek
    case None => Ok("")
    case Some(i) =>
      match DayName(i)
      case None => Err(IndexOutOfRange)
      case Some(name) => Ok(name)
  }

  /** The tables: class codes, enrolments, meetings with their `active` flag, building names, room code
      to building name, meeting instances, beacon triple to room code, shuffled triple to record. */
  datatype StoreState = StoreState(
    classes: set<string>,
    enrolled: set<Enrolment>,
    meetings: map<MeetingKey, bool>,
    buildings: set<string>,
    rooms: map<string, string>,
    instances: set<InstanceKey>,
    beacons: map<BeaconKey, string>,
    shuffledIds: map<BeaconKey, ShuffledId>)
  {
    /** `Class.objects.get_or_create(class_code=code)`. */
    function GetOrCreateClass(code: string): (r: StoreState)
      ensures r.classes == classes + {code}
      ensures r.(classes := classes) == this
      ensures code in classes ==> r == this
    {
      this.(classes := classes + {code})
    }

    /** `class_.student_set.filter(pk=student.pk).exists()`. */
    predicate IsMember(student: StudentId, code: string)
      ensures Valid(this) && IsMember(student, code) ==> code in classes
    {
      Enrolment(student, code) in enrolled
    }

    /** `class_.student_set.add(student)`. */
    function AddStudent(student: StudentId, code: string): (r: StoreState)
      ensures r.IsMember(student, code)
      ensures r.enrolled == enrolled + {Enrolment(student, code)}
      ensures r.(enrolled := enrolled) == this
    {
      this.(enrolled := enrolled + {Enrolment(student, code)})
    }

    /** `Meeting.objects.get_or_create(...)`: the store afterwards and whether a meeting was created. */
    function GetOrCreateMeeting(key: MeetingKey): (r: (StoreState, bool))
      ensures r.1 <==> key !in meetings
      ensures key in r.0.meetings && r.0.meetings.Keys == meetings.Keys + {key}
      ensures r.1 ==> r.0 == this.(meetings := meetings[key := DefaultActive])
      ensures !r.1 ==> r.0 == this
    {
      if key in meetings then (this, false)
      else (this.(meetings := meetings[key := DefaultActive]), true)
    }

    /** `meeting.active = value; meeting.save()`. */
    function SetActive(key: MeetingKey, value: bool): (r: StoreState)
      requires key in meetings
      ensures r.meetings.Keys == meetings.Keys && r.meetings[key] == value
      ensures forall k :: k in meetings && k != key ==> r.meetings[k] == meetings[k]
      ensures r.(meetings := meetings) == this
    {
      this.(meetings := meetings[key := value])
    }

    /** `Building.objects.get_or_create(building_name=name)`. */
    function GetOrCreateBuilding(name: string): (r: StoreState)
      ensures r.buildings == buildings + {name}
      ensures r.(buildings := buildings) == this
      ensures name in buildings ==> r == this
    {
      this.(buildings := buildings + {name})
    }

    /** `Room.objects.get_or_create(building=building, room_code=code)`. The lookup matches only a room
        with both values; creating one fails when the globally unique code is already in another
        building, and the retried lookup fails again, so the IntegrityError escapes. */
    function GetOrCreateRoom(building: string, code: string): (r: Result<StoreState, Error>)
      ensures r.Err? <==> code in rooms && rooms[code] != building
      ensures r.Err? ==> r.error == RoomCodeTaken(code)
      ensures r.Ok? ==> code in r.value.rooms && r.value.rooms[code] == building
      ensures r.Ok? ==> r.value == this.(rooms := rooms[code := building])
      ensures r.Ok? && code in rooms ==> r.value == this
    {
      if code in rooms then
        if rooms[code] == building then Ok(this) else Err(RoomCodeTaken(code))
      else Ok(this.(rooms := rooms[code := building]))
    }

    /** `MeetingInstance.save`: `full_clean` first, so the weekday check runs before anything is
        stored; both foreign keys must name stored records. */
    function SaveInstance(key: InstanceKey): (r: Result<StoreState, Error>)
      ensures r.Ok? <==> key.meeting in meetings && key.roomCode in rooms
                          && Weekday(key.date) == key.meeting.dayOfWeek
      ensures r.Ok? ==> r.value == this.(instances := instances + {key})
      ensures key.meeting in meetings && key.roomCode in rooms && r.Err? ==>
        r.error == Clean(key.date, key.meeting.dayOfWeek).error
    {
      if key.meeting !in meetings || key.roomCode !in rooms then Err(MissingRecord)
      else match Clean(key.date, key.meeting.dayOfWeek)
        case Err(e) => Err(e)
        case Ok(_) => Ok(this.(instances := instances + {key}))
    }

    /** `MeetingInstance.objects.get_or_create(date=..., room=..., meeting=...)`: a stored instance is
        returned untouched, a new one goes through `SaveInstance`. */
    function GetOrCreateInstance(key: InstanceKey): (r: Result<StoreState, Error>)
      ensures r.Ok? <==> key in instances
                          || (key.meeting in meetings && key.roomCode in rooms && Weekday(key.date) == key.meeting.dayOfWeek)
      ensures r.Ok? ==> key in r.value.instances && r.value == this.(instances := instances + {key})
      ensures key in instances ==> r == Ok(this)
    {
      if key in instances then Ok(this) else SaveInstance(key)
    }

    /** `Meeting.objects.filter(class_rel__student=student)`: the meetings of the student's classes. */
    function StudentMeetings(student: StudentId): (r: set<MeetingKey>)
      ensures forall k :: k in r <==> k in meetings && IsMember(student, k.classCode)
      ensures Valid(this) ==> forall k :: k in r ==> k.classCode in classes
    {
      set k | k in meetings && IsMember(student, k.classCode)
    }

    /** `queryset.update(active=False)` on the meetings `ks`. */
    function Deactivate(ks: set<MeetingKey>): (r: StoreState)
      ensures r.meetings.Keys == meetings.Keys
      ensures forall k :: k in meetings ==> r.meetings[k] == (k !in ks && meetings[k])
      ensures r.(meetings := meetings) == this
    {
      this.(meetings := map k | k in meetings :: k !in ks && meetings[k])
    }

    /** `Room.has_beacon`: some beacon's `room` foreign key names the room. */
    predicate HasBeacon(code: string)
      ensures Valid(this) && HasBeacon(code) ==> code in rooms
    {
      exists b :: b in beacons && beacons[b] == code
    }

    /** Storing a Beacon: its triple is unique and its room must exist. */
    function CreateBeacon(key: BeaconKey, roomCode: string): (r: Result<StoreState, Error>)
      ensures r.Ok? <==> key !in beacons && roomCode in rooms
      ensures key in beacons ==> r == Err(DuplicateKey)
      ensures r.Ok? ==> r.value == this.(beacons := beacons[key := roomCode])
    {
      if key in beacons then Err(DuplicateKey)
      else if roomCode !in rooms then Err(MissingRecord)
      else Ok(this.(beacons := beacons[key := roomCode]))
    }

    /** Storing a ShuffledID: its triple is unique and its beacon must exist. */
    function CreateShuffledId(key: BeaconKey, record: ShuffledId): (r: Result<StoreState, Error>)
      ensures r.Ok? <==> key !in shuffledIds && record.beacon in beacons
      ensures key in shuffledIds ==> r == Err(DuplicateKey)
      ensures r.Ok? ==> r.value == this.(shuffledIds := shuffledIds[key := record])
    {
      if key in shuffledIds then Err(DuplicateKey)
      else if record.beacon !in beacons then Err(MissingRecord)
      else Ok(this.(shuffledIds := shuffledIds[key := record]))
    }
  }

  /** Referential integrity of the tables, and the weekday check on every stored instance. */
  predicate Valid(st: StoreState)
  {
    && (forall e :: e in st.enrolled ==> e.classCode in st.classes)
    && (forall k :: k in st.meetings ==> k.classCode in st.classes)
    && (forall c :: c in st.rooms ==> st.rooms[c] in st.buildings)
    && (forall i :: i in st.instances ==>
          i.meeting in st.meetings && i.roomCode in st.rooms && Weekday(i.date) == i.meeting.dayOfWeek)
    && (forall b :: b in st.beacons ==> st.beacons[b] in st.rooms)
    && (forall s :: s in st.shuffledIds ==> st.shuffledIds[s].beacon in st.beacons)
  }

  /** The empty database. */
  const Empty: StoreState := StoreState({}, {}, map[], {}, map[], {}, map[], map[])

  lemma EmptyValid()
    ensures Valid(Empty)
  {
  }

  /** Get-or-create of a class, a building or (successfully) a room, and storing an instance, keep the
      store valid; so does a room get-or-create whose building is stored. */
  lemma GetOrCreatePreservesValid(st: StoreState, name: string, code: string, key: InstanceKey)
    requires Valid(st)
    ensures Valid(st.GetOrCreateClass(name)) && Valid(st.GetOrCreateBuilding(name))
    ensures name in st.buildings && st.GetOrCreateRoom(name, code).Ok? ==> Valid(st.GetOrCreateRoom(name, code).value)
    ensures st.GetOrCreateInstance(key).Ok? ==> Valid(st.GetOrCreateInstance(key).value)
  {
  }

  /** Enrolling in a stored class and getting or creating a meeting of a stored class keep the store
      valid, and so do the `active` updates, which touch no key. */
  lemma MeetingOperationsPreserveValid(st: StoreState, student: StudentId, key: MeetingKey, ks: set<MeetingKey>)
    requires Valid(st)
    ensures key.classCode in st.classes ==> Valid(st.AddStudent(student, key.classCode))
    ensures key.classCode in st.classes ==> Valid(st.GetOrCreateMeeting(key).0)
    ensures key in st.meetings ==> Valid(st.SetActive(key, false)) && Valid(st.SetActive(key, true))
    ensures Valid(st.Deactivate(ks))
  {
    var d := st.Deactivate(ks);
    assert forall i :: i in d.instances ==> i.meeting in d.meetings;
  }

  /** Storing a Beacon or a ShuffledID keeps the store valid. */
  lemma CreatePreservesValid(st: StoreState, key: BeaconKey, roomCode: string, record: ShuffledId)
    requires Valid(st)
    ensures st.CreateBeacon(key, roomCode).Ok? ==> Valid(st.CreateBeacon(key, roomCode).value)
    ensures st.CreateShuffledId(key, record).Ok? ==> Valid(st.CreateShuffledId(key, record).value)
  {
  }

  /** The uniqueness keys make every get-or-create idempotent: a second identical call finds the
      record the first one stored and changes nothing. */
  lemma GetOrCreateIdempotent(st: StoreState, name: string, code: string, mkey: MeetingKey, ikey: InstanceKey)
    ensures var s := st.GetOrCreateClass(name); s.GetOrCreateClass(name) == s
    ensures var s := st.GetOrCreateBuilding(name); s.GetOrCreateBuilding(name) == s
    ensures var s := st.GetOrCreateMeeting(mkey).0; s.GetOrCreateMeeting(mkey) == (s, false)
    ensures var r := st.GetOrCreateRoom(name, code); r.Ok? ==> r.value.GetOrCreateRoom(name, code) == r
    ensures var r := st.GetOrCreateInstance(ikey); r.Ok? ==> r.value.GetOrCreateInstance(ikey) == r
  {
  }

  /** A second Beacon or ShuffledID with a stored triple is refused. */
  lemma CreateTwiceRefused(st: StoreState, key: BeaconKey, roomCode: string, roomCode': string, record: ShuffledId, record': ShuffledId)
    ensures var r := st.CreateBeacon(key, roomCode); r.Ok? ==> r.value.CreateBeacon(key, roomCode') == Err(DuplicateKey)
    ensures var r := st.CreateShuffledId(key, record); r.Ok? ==> r.value.CreateShuffledId(key, record') == Err(DuplicateKey)
  {
  }

  /** Enrolling a student in class `code` adds exactly that class's meetings to the student's meetings
      and leaves every other student's meetings as they were. */
  lemma StudentMeetingsAfterAdd(st: StoreState, student: StudentId, code: string, other: StudentId)
    ensures st.AddStudent(student, code).StudentMeetings(student)
         == st.StudentMeetings(student) + (set k | k in st.meetings && k.classCode == code)
    ensures other != student ==>
      st.AddStudent(student, code).StudentMeetings(other) == st.StudentMeetings(other)
  {
    var r := st.AddStudent(student, code);
    assert forall k :: k in r.StudentMeetings(student) <==>
      k in st.StudentMeetings(student) || (k in st.meetings && k.classCode == code);
    if other != student {
      assert forall k :: k in r.StudentMeetings(other) <==> k in st.StudentMeetings(other);
    }
  }

  /** A stored beacon gives its room a beacon and changes no other room's answer. */
  lemma HasBeaconAfterCreate(st: StoreState, key: BeaconKey, roomCode: string, other: string)
    requires st.CreateBeacon(key, roomCode).Ok?
    ensures st.CreateBeacon(key, roomCode).value.HasBeacon(roomCode)
    ensures other != roomCode ==> (st.CreateBeacon(key, roomCode).value.HasBeacon(other) <==> st.HasBeacon(other))
  {
    var r := st.CreateBeacon(key, roomCode).value;
    assert key in r.beacons && r.beacons[key] == roomCode;
    if other != roomCode && r.HasBeacon(other) {
      var b :| b in r.beacons && r.beacons[b] == other;
      assert b in st.beacons && st.beacons[b] == other;
    }
    if st.HasBeacon(other) {
      var b :| b in st.beacons && st.beacons[b] == other;
      assert b in r.beacons && r.beacons[b] == other;
    }
  }

  /** The same store as an object: one field per table, each method updating only the tables it
      writes and stating the result through the `StoreState` operation it performs. */
  class Db {
    var classes: set<string>
    var enrolled: set<Enrolment>
    var meetings: map<MeetingKey, bool>
    var buildings: set<string>
    var rooms: map<string, string>
    var instances: set<InstanceKey>
    var beacons: map<BeaconKey, string>
    var shuffledIds: map<BeaconKey, ShuffledId>

    function State(): StoreState
      reads this
    {
      StoreState(classes, enrolled, meetings, buildings, rooms, instances, beacons, shuffledIds)
    }

    constructor(st: StoreState)
      ensures State() == st
    {
      classes, enrolled, meetings, buildings := st.classes, st.enrolled, st.meetings, st.buildings;
      rooms, instances, beacons, shuffledIds := st.rooms, st.instances, st.beacons, st.shuffledIds;
    }

    method GetOrCreateClass(code: string)
      modifies this
      ensures State() == old(State()).GetOrCreateClass(code)
    {
      if code !in classes {
        classes := classes + {code};
      }
    }

    method AddStudentIfAbsent(student: StudentId, code: string)
      modifies this
      ensures State() == (if old(State()).IsMember(student, code) then old(State()) else old(State()).AddStudent(student, code))
    {
      if Enrolment(student, code) !in enrolled {
        enrolled := enrolled + {Enrolment(student, code)};
      }
    }

    method GetOrCreateMeeting(key: MeetingKey) returns (created: bool)
      modifies this
      ensures (State(), created) == old(State()).GetOrCreateMeeting(key)
    {
      created := key !in meetings;
      if created {
        meetings := meetings[key := DefaultActive];
      }
    }

    method SetActive(key: MeetingKey, value: bool)
      requires key in meetings
      modifies this
      ensures State() == old(State()).SetActive(key, value)
    {
      meetings := meetings[key := value];
    }

    method GetOrCreateBuilding(name: string)
      modifies this
      ensures State() == old(State()).GetOrCreateBuilding(name)
    {
      if name !in buildings {
        buildings := buildings + {name};
      }
    }

    method GetOrCreateRoom(building: string, code: string) returns (failure: Option<Error>)
      modifies this
      ensures var r := old(State()).GetOrCreateRoom(building, code);
        if r.Ok? then failure.None? && State() == r.value else failure == Some(r.error) && State() == old(State())
    {
      if code in rooms {
        if rooms[code] != building {
          return Some(RoomCodeTaken(code));
        }
        return None;
      }
      rooms := rooms[code := building];
      return None;
    }

    method GetOrCreateInstance(key: InstanceKey) returns (failure: Option<Error>)
      modifies this
      ensures var r := old(State()).GetOrCreateInstance(key);
        if r.Ok? then failure.None? && State() == r.value else failure == Some(r.error) && State() == old(State())
    {
      if key in instances {
        return None;
      }
      if key.meeting !in meetings || key.roomCode !in rooms {
        return Some(MissingRecord);
      }
      var clean := Clean(key.date, key.meeting.dayOfWeek);
      if clean.Err? {
        return Some(clean.error);
      }
      instances := instances + {key};
      return None;
    }

    method Deactivate(ks: set<MeetingKey>)
      modifies this
      ensures State() == old(State()).Deactivate(ks)
    {
      meetings := map k | k in meetings :: k !in ks && meetings[k];
    }
  }
}
