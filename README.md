# Beacon registration server: timetable reconciliation, record invariants, streaks and padding

This project models the core of the beacon registration server (a Django application) and proves
properties of the model. It covers four parts.

- **Timetable reconciliation** (`meetingbuilder.py`).
  - Raw timetable events are reshaped.
  - They are grouped by course, then each course by weekly slot `(weekday, start, end)`.
  - The result is merged into the database.
    - For each course, `Class` is got or created and the student enrolled if not already a member.
    - For each slot, `Meeting` is got or created and reactivated.
    - For each instance, `Building`, `Room` and `MeetingInstance` are got or created.
  - At the end, the meetings of the student's classes that were not touched are flagged inactive and returned.
- **Record invariants** (`models.py`). These are the weekday check `MeetingInstance.save` runs, `Meeting.weekday`, `Room.has_beacon` and the uniqueness keys of the tables.
- **The `Streak` value** (`utils.py`). It has a length in days and an ISO 8601 time-interval text `start/end`, with the solidus separator of section 4.4 of ISO 8601:2004.
- **PKCS #7 padding** (`crypto.py`). This is block padding for block size 16, as in section 6.3 of RFC 5652 and section 10.3 of RFC 2315. The module also splits Django's stored password string `algorithm$iterations$salt$hash`.

## Files

| file | module | content |
|---|---|---|
| `wrappers.dfy` | `Wrappers` | `Option` and `Result`. `Error` has one constructor per exception the modelled code raises. |
| `text.dfy` | `Text` | `str.split(sep)`, `str.split(sep, 1)`, `join`, and zero-padded decimals with their parser. |
| `calendar.dfy` | `Calendar` | Proleptic Gregorian dates, `toordinal`, `weekday()` (Monday = 0), `.days`, ISO text and `calendar.day_name`. |
| `grouping.dfy` | `Grouping` | A `defaultdict(list)` filled by appends, as an association list in first-appearance order. The reference definition of each group is `Select`. |
| `events.dfy` | `Events` | `split_room`, `parse_events`, `events_to_courses`, `course_to_meetings` and `json_to_courses`. |
| `store.dfy` | `Store` | The tables as sets and maps keyed by their uniqueness keys (`StoreState`), the get-or-create operations, `clean`/`save`, `has_beacon`, and `Db`, the same store as an object updated in place. |
| `reconcile.dfy` | `Reconciler` | `get_or_create_meetings`. A specification by folds mirrors the three nested loops. The loops themselves are methods of the module that take the database object `Db` as a parameter, each proved equal to its fold. |
| `reconcile_props.dfy` | `ReconcilerProps` | The effect of a pass on every table, idempotence, validity, failure cases and the two test scenarios. |
| `streaks.dfy` | `Streaks` | `Streak`. |
| `crypto.dfy` | `PasswordCrypto` | `_pkcs7_pad`, `_pkcs7_unpad` and `split_password`. |

## Modelling decisions

- **The database.** It is a value `StoreState`.
  - Classes, buildings and instances are sets of their keys. `MeetingInstance` declares no uniqueness constraint, so this set assumes at most one row per `(date, room, meeting)`; see "Left out".
  - Meetings map their key to `active`.
  - Rooms map the room code to the building name, because `room_code` is unique on its own (models.py:37).
  - Beacons and shuffled ids map their `(uuid, major, minor)` triple to the rest of the record.
  - A key stands for the one record it names, so a primary key is identified with the uniqueness key (for `Meeting` and `MeetingInstance`, with the lookup fields `get_or_create` uses). A meeting's key is `(start, end, day_of_week, class code)`.
  - `Db` holds the same tables as fields. Each of its methods is stated as the `StoreState` operation it performs.
- **Meeting `active`.** The reconciler reads `active` (meetingbuilder.py:87-89) and updates it (meetingbuilder.py:101), and the admin lists it (admin.py:21). The field is not declared on `Meeting` in models.py:78-102. The model gives `Meeting` the flag, and a created meeting gets `Store.DefaultActive`, assumed `True`.
- **Timestamp parsing.** `make_time` uses `strptime` with the locale's `%X`, and `make_date` uses `dateutil`. Both are parameters, `TimeParser` and `DateParser`, that return `None` where the library would raise.
- **Exceptions** are `Err` values. A failing pass returns the store as far as it got, since the pass runs outside a transaction.
- **Mutated dicts.** The event dicts that `events_to_courses` and `course_to_meetings` `pop` keys from are modelled as new records per stage: `ParsedEvent`, then `CourseEvent`, then `InstanceEvent`.
- **`len()`.** `Streak.__len__` can be negative. The builtin `len()` refuses that with ValueError, so both `DunderLen` and `Len` are modelled.
- **Padding values.** `_pkcs7_pad` works on the code points of a `str` and `_pkcs7_unpad` on bytes. Both become sequences of naturals.
- **Only what the code does.** Attendance percentages, beacon eligibility and streak construction do not appear in the code. Only the `Streak` record exists (utils.py:5-18), so none of them is modelled.

## Model

| member | source | states |
|---|---|---|
| `Text.SplitOnce` | beacon_registration/beacon_app/meetingbuilder.py:19 | At most two parts, two exactly when the separator occurs. The first part has no separator. The parts joined by the separator give the input back. |
| `Text.Split` | beacon_registration/beacon_app/crypto.py:36 | One more field than there are separators, and no field contains the separator. |
| `Text.SplitJoin` | beacon_registration/beacon_app/crypto.py:36 | Splitting a join of separator-free fields gives the fields back. |
| `Text.JoinSplit` | beacon_registration/beacon_app/crypto.py:36 | Joining the fields of a split gives the text back. |
| `Events.SplitRoom` | beacon_registration/beacon_app/meetingbuilder.py:18-19 | The label splits at its first colon only: building before it, room code (colons allowed) after it. One part exactly when the label has no colon. |
| `Events.ParseEventFields` | beacon_registration/beacon_app/meetingbuilder.py:27-32 | An event parses iff it has room, course, start, end and date and both parsers accept their values. The result is built from those five values only. |
| `Events.ParseEvent` | beacon_registration/beacon_app/meetingbuilder.py:27-32 | A missing `room` is reported first. When the parse succeeds, all five keys are present. Every error names one of the five keys missing, or a `start`/`end`/`date` value its parser rejects. |
| `Events.ParseEventIgnoresOtherKeys` | beacon_registration/beacon_app/meetingbuilder.py:27-32 | Two raw events that agree on the five keys parse alike, so other keys such as a lecturer are dropped. |
| `Events.ParsedEvents` | beacon_registration/beacon_app/meetingbuilder.py:30-36 | Succeeds iff every event parses, giving one parsed event per input in input order. Otherwise it fails with the error of the first failing event. |
| `Events.ParseEvents` | beacon_registration/beacon_app/meetingbuilder.py:14-36 | The loop computes `ParsedEvents`, stopping at the first failure. |
| `Events.EventsToCourses` | beacon_registration/beacon_app/meetingbuilder.py:39-46 | A grouping by course that keeps events in order and drops `course`. Each group holds exactly its course's events. The pairs are a permutation of the input. |
| `Events.CourseToMeetings` | beacon_registration/beacon_app/meetingbuilder.py:49-59 | A grouping by `(weekday, start, end)` that drops start and end. Every event filed under a slot has that weekday. Events are neither lost nor duplicated. |
| `Events.GroupCourses` | beacon_registration/beacon_app/meetingbuilder.py:66-67 | Each course's list is replaced by its slot grouping, with course names and their order unchanged. |
| `Events.JsonToCourses` | beacon_registration/beacon_app/meetingbuilder.py:62-69 | Parse, group, group again. On success the course names are distinct and every instance lies on the weekday of its slot. |
| `Events.WithSlotsConsistent` | beacon_registration/beacon_app/meetingbuilder.py:52-67 | After the second grouping, every instance of every course lies on its slot's weekday, and distinct course names stay distinct. |
| `Events.SlotGroupingConsistent` | beacon_registration/beacon_app/meetingbuilder.py:53-57 | Any grouping of slot pairs files each instance under a slot with the instance's weekday. |
| `Grouping.GroupByIsGrouping` | beacon_registration/beacon_app/meetingbuilder.py:40-46 | The `defaultdict` fill has one non-empty group per distinct key and a group for every input key. Each group equals the input's values for that key, in order. |
| `Grouping.GroupByPairs` | beacon_registration/beacon_app/meetingbuilder.py:42-44 | The groups together hold exactly the input pairs, as a multiset: every item lands in exactly one group. |
| `Grouping.SelectMember` | beacon_registration/beacon_app/meetingbuilder.py:52-57 | Every value in a group came from an input pair with that key. |
| `Grouping.FindKey` | beacon_registration/beacon_app/meetingbuilder.py:44 | The dictionary lookup finds the key's position exactly when the key has a group. |
| `Store.Clean` | beacon_registration/beacon_app/models.py:67-71 | Passes iff the date's weekday is the meeting's `day_of_week`. Otherwise it reports the two day names, or IndexError when the meeting's day has no name. |
| `Store.MeetingWeekday` | beacon_registration/beacon_app/models.py:90-94 | Day name of `day_of_week`, with 0 for Monday. Empty text for None, and IndexError outside -7..6. |
| `Store.StoreState.SaveInstance` | beacon_registration/beacon_app/models.py:73-75 | Stores the instance iff its references exist and the weekday check passes. On a failed check it stores nothing and reports the check's error. |
| `Store.StoreState.GetOrCreateInstance` | beacon_registration/beacon_app/meetingbuilder.py:97 | Succeeds iff the instance is already stored, or both its references exist and its date falls on its meeting's weekday. On success the instance is stored and no other table changes. A stored instance leaves the store as it was. |
| `Store.StoreState.GetOrCreateClass` | beacon_registration/beacon_app/models.py:50 | At most one class per code: afterwards the code is stored. A stored code changes nothing, and no other table changes. |
| `Store.StoreState.GetOrCreateBuilding` | beacon_registration/beacon_app/models.py:29 | At most one building per name: afterwards the name is stored. A stored name changes nothing, and no other table changes. |
| `Store.StoreState.GetOrCreateRoom` | beacon_registration/beacon_app/meetingbuilder.py:95 | Fails iff the code is stored under another building, because the code is globally unique (models.py:37). Otherwise the code names this building afterwards. |
| `Store.StoreState.GetOrCreateMeeting` | beacon_registration/beacon_app/meetingbuilder.py:83-85 | Created iff the key is new. The key is stored afterwards, and a found meeting is left as it was. |
| `Store.StoreState.SetActive` | beacon_registration/beacon_app/meetingbuilder.py:87-89 | Sets one meeting's flag. Every other meeting and every other table is left unchanged. |
| `Store.StoreState.AddStudent` | beacon_registration/beacon_app/meetingbuilder.py:79-80 | Afterwards the student is a member of the class. Exactly that enrolment is added, and no other table changes. |
| `Store.StoreState.StudentMeetings` | beacon_registration/beacon_app/meetingbuilder.py:99 | Exactly the stored meetings of the student's classes. In a valid store each of them belongs to a stored class. |
| `Store.StudentMeetingsAfterAdd` | beacon_registration/beacon_app/meetingbuilder.py:79-99 | Enrolling a student adds exactly that class's stored meetings to the student's meetings. Every other student's meetings are unchanged. |
| `Store.StoreState.IsMember` | beacon_registration/beacon_app/meetingbuilder.py:79 | In a valid store, a student is only ever a member of a stored class. |
| `Store.StoreState.Deactivate` | beacon_registration/beacon_app/meetingbuilder.py:100-101 | Clears the flag of the given meetings, keeps every other flag, and changes no other table. |
| `Store.StoreState.CreateBeacon` | beacon_registration/beacon_app/models.py:15-22 | Stored iff its `(uuid, major, minor)` is new and its room exists. A second beacon with the same triple fails. |
| `Store.StoreState.CreateShuffledId` | beacon_registration/beacon_app/models.py:114-122 | Stored iff its triple is new and its beacon exists. |
| `Store.HasBeaconAfterCreate` | beacon_registration/beacon_app/models.py:42-43 | After a beacon is stored, its room has a beacon and no other room's answer changes. |
| `Store.StoreState.HasBeacon` | beacon_registration/beacon_app/models.py:42-43 | In a valid store, only a stored room can have a beacon. The answer before and after storing a beacon is given by `HasBeaconAfterCreate`. |
| `Store.GetOrCreateIdempotent` | beacon_registration/beacon_app/meetingbuilder.py:77-97 | Repeating any get-or-create finds the record the first call stored and changes nothing. |
| `Store.CreateTwiceRefused` | beacon_registration/beacon_app/models.py:122 | A second Beacon or ShuffledID with a stored triple fails with a duplicate key. |
| `Store.GetOrCreatePreservesValid` | beacon_registration/beacon_app/models.py:67-75 | The class, building, room and instance operations keep referential integrity. Every stored instance stays on its meeting's weekday. |
| `Store.MeetingOperationsPreserveValid` | beacon_registration/beacon_app/meetingbuilder.py:80-101 | Enrolling, creating a meeting of a stored class, and flag updates keep the store valid. |
| `Store.CreatePreservesValid` | beacon_registration/beacon_app/models.py:19 | Storing a beacon or a shuffled id keeps every foreign key valid. |
| `Store.Db.GetOrCreateRoom` | beacon_registration/beacon_app/meetingbuilder.py:95 | The in-place room get-or-create performs `StoreState.GetOrCreateRoom`, and changes nothing when it fails. |
| `Store.Db.GetOrCreateInstance` | beacon_registration/beacon_app/meetingbuilder.py:97 | The in-place instance get-or-create performs `StoreState.GetOrCreateInstance`. |
| `Store.Db.GetOrCreateClass` | beacon_registration/beacon_app/meetingbuilder.py:77 | The in-place class get-or-create performs `StoreState.GetOrCreateClass`. |
| `Store.Db.AddStudentIfAbsent` | beacon_registration/beacon_app/meetingbuilder.py:79-80 | Enrols the student only when not yet a member, as `StoreState.AddStudent` does. |
| `Store.Db.GetOrCreateMeeting` | beacon_registration/beacon_app/meetingbuilder.py:83-85 | The in-place meeting get-or-create performs `StoreState.GetOrCreateMeeting` and returns its `created` flag. |
| `Store.Db.SetActive` | beacon_registration/beacon_app/meetingbuilder.py:87-89 | The in-place `meeting.active = value; meeting.save()` performs `StoreState.SetActive`. |
| `Store.Db.GetOrCreateBuilding` | beacon_registration/beacon_app/meetingbuilder.py:94 | The in-place building get-or-create performs `StoreState.GetOrCreateBuilding`. |
| `Store.Db.Deactivate` | beacon_registration/beacon_app/meetingbuilder.py:100-101 | The in-place `update(active=False)` performs `StoreState.Deactivate`. |
| `Reconciler.FoldStopsAt` | beacon_registration/beacon_app/meetingbuilder.py:76-97 | Once a loop iteration has raised, the later iterations never run. |
| `Reconciler.InstanceStep` | beacon_registration/beacon_app/meetingbuilder.py:94-97 | The building is stored in every case, and a label without a room code fails with NoRoomCode. On success the room is stored under the label's building and the instance is stored. Classes, enrolments and meetings are left unchanged. |
| `Reconciler.StoreInstance` | beacon_registration/beacon_app/meetingbuilder.py:94-97 | One iteration of the instance loop on the database performs `InstanceStep`. |
| `Reconciler.StoreInstances` | beacon_registration/beacon_app/meetingbuilder.py:93-97 | The instance loop on the database performs the fold of `InstanceStep`: building, then room code, then room, then instance, stopping at the first error. |
| `ReconcilerProps.MeetingStepExtends` | beacon_registration/beacon_app/meetingbuilder.py:83-97 | A successful slot iteration stores its meeting, leaves it active, and adds exactly the buildings, rooms and instances of its instances. Nothing else changes. |
| `Reconciler.StoreMeeting` | beacon_registration/beacon_app/meetingbuilder.py:83-97 | One iteration of the slot loop on the database performs `MeetingStep` and yields the meeting's key, the pk appended at line 91. |
| `Reconciler.StoreMeetings` | beacon_registration/beacon_app/meetingbuilder.py:82-97 | The slot loop performs the fold of `MeetingStep`. On success it touched exactly the slots' meetings. |
| `ReconcilerProps.CourseStepExtends` | beacon_registration/beacon_app/meetingbuilder.py:77-97 | A successful course iteration adds exactly its class, the student's enrolment in it, and what its slots add. |
| `Reconciler.StoreCourse` | beacon_registration/beacon_app/meetingbuilder.py:77-97 | One iteration of the course loop on the database performs `CourseStep`, touching exactly its slots' meetings. |
| `Reconciler.StoreCourses` | beacon_registration/beacon_app/meetingbuilder.py:76-97 | The course loop performs the fold of `CourseStep`. On success it touched exactly `Touched`. |
| `Reconciler.Reconcile` | beacon_registration/beacon_app/meetingbuilder.py:76-103 | After a complete pass, every returned meeting is stored and now inactive. None of them was touched by the pass, and each belongs to a class the student is a member of. |
| `Reconciler.GetOrCreateMeetings` | beacon_registration/beacon_app/meetingbuilder.py:72-103 | A timetable that fails to parse leaves the store as it was and raises. A successful call returns only stored, now inactive meetings of the student's classes. |
| `Reconciler.GetOrCreateMeetingsIn` | beacon_registration/beacon_app/meetingbuilder.py:72-103 | The whole call on the database performs the `GetOrCreateMeetings` specification: new store and returned meetings or exception. |
| `ReconcilerProps.ReconcileMeetings` | beacon_registration/beacon_app/meetingbuilder.py:83-103 | After a successful pass, the returned meetings are exactly the untouched meetings of the student's old classes and the courses' classes, and all of them are inactive. Touched meetings exist and are active. No other flag changes. |
| `ReconcilerProps.ReconcileTables` | beacon_registration/beacon_app/meetingbuilder.py:77-97 | A successful pass adds exactly the courses' classes, the student's enrolments, and the buildings, rooms and instances the timetable names. Beacons are untouched. |
| `ReconcilerProps.ReconcileIdempotent` | beacon_registration/beacon_app/meetingbuilder.py:72-103 | Rerunning on the resulting store creates nothing, changes nothing and returns the same meetings. |
| `ReconcilerProps.GetOrCreateMeetingsIdempotent` | beacon_registration/beacon_app/meetingbuilder.py:72-103 | Calling `get_or_create_meetings` again with the same raw timetable, on the store the first call left, changes nothing. It returns the same inactive meetings, because they are still untouched meetings of the student's classes. |
| `ReconcilerProps.ReconcileKeepsBeacons` | beacon_registration/beacon_app/models.py:42-43 | A successful pass changes no room's `has_beacon` answer. |
| `ReconcilerProps.ReconcileValid` | beacon_registration/beacon_app/models.py:67-75 | Every pass, complete or stopped, keeps a valid store valid. |
| `ReconcilerProps.ReconcileFailures` | beacon_registration/beacon_app/meetingbuilder.py:93-97 | On weekday-grouped courses the save-time check never fires. The only failures are a label without a room code and a room code taken by another building. |
| `ReconcilerProps.GetOrCreateMeetingsFailures` | beacon_registration/beacon_app/meetingbuilder.py:72-73 | A parse failure leaves the store unchanged. Every other failure is a room failure. |
| `ReconcilerProps.MissingRoomCodeFails` | beacon_registration/beacon_app/meetingbuilder.py:94-95 | Any label without a colon stops the pass. |
| `ReconcilerProps.RoomConflictFails` | beacon_registration/beacon_app/models.py:37-40 | A label naming a room code stored under another building stops the pass. |
| `ReconcilerProps.RoomsStored` | beacon_registration/beacon_app/meetingbuilder.py:94-95 | After a complete pass, every named room is stored under its label's building, and rooms stored before keep their building. |
| `ReconcilerProps.LabelsHaveCodes` | beacon_registration/beacon_app/meetingbuilder.py:95 | A complete pass met only labels with a room code. |
| `ReconcilerProps.NamedShape` | beacon_registration/beacon_app/meetingbuilder.py:77-91 | A pass names one class and one enrolment per course, plus the touched meetings, each of a course's class. |
| `ReconcilerProps.EmptyTimetable` | beacon_registration/beacon_app/meetingbuilder.py:99-103 | An empty timetable returns, and deactivates, all of the student's meetings. |
| `ReconcilerProps.FreshStoreNothingInactive` | beacon_registration/beacon_app/tests.py:17-26 | On a store without meetings, a complete pass returns no inactive meetings. |
| `ReconcilerProps.StaleMeetingInactive` | beacon_registration/beacon_app/tests.py:28-45 | A student of class ABC with one Monday 9:00-10:00 meeting, and a timetable without ABC: exactly that meeting is returned. |
| `ReconcilerProps.FoldExtends` | beacon_registration/beacon_app/meetingbuilder.py:76-97 | A completed loop adds the union of its iterations' records. |
| `ReconcilerProps.FoldFixed` | beacon_registration/beacon_app/meetingbuilder.py:76-97 | A loop over records the store already holds changes nothing. |
| `Calendar.Ordinal` | beacon_registration/beacon_app/utils.py:11 | `toordinal()` is at least 1 (0001-01-01 is day 1) and falls within the days of the date's own year. `OrdinalSucc` shows that consecutive dates get consecutive ordinals. |
| `Calendar.NextDay` | beacon_registration/beacon_app/utils.py:11 | `d + timedelta(days=1)` is a later date; 9999-12-31 has no successor. |
| `Calendar.OrdinalSucc` | beacon_registration/beacon_app/utils.py:11 | The day after a date has the next ordinal, across month and year ends. |
| `Calendar.NextDayOneApart` | beacon_registration/beacon_app/utils.py:10-11 | A date and the next day are one day apart, and the weekday advances by one modulo 7. |
| `Calendar.DaysBetween` | beacon_registration/beacon_app/utils.py:11 | `(b - a).days` is positive, zero or negative exactly when a is before, equal to or after b. It is 1 from a date to the next day (`NextDayOneApart`). |
| `Calendar.Weekday` | beacon_registration/beacon_app/meetingbuilder.py:53 | `date.weekday()` lies in 0..6. |
| `Calendar.MondayIsZero` | beacon_registration/beacon_app/models.py:79-81 | Weekday 0 is Monday (0001-01-01 and 2024-01-01 are Mondays). |
| `Calendar.DayName` | beacon_registration/beacon_app/models.py:92 | `calendar.day_name[i]` is defined exactly for -7..6. Where defined it is the name at `i mod 7`, so negative indices count from the end. |
| `Calendar.IsoFormat` | beacon_registration/beacon_app/utils.py:15 | `str(date)` is 10 characters `YYYY-MM-DD`: digits with hyphens at positions 4 and 7. |
| `Calendar.IsoRoundTrip` | beacon_registration/beacon_app/utils.py:15 | The ISO text of a date reads back as the date. |
| `Streaks.DunderLen` | beacon_registration/beacon_app/utils.py:10-11 | `__len__` is positive, zero or negative exactly as the start is before, equal to or after the end. |
| `Streaks.Len` | beacon_registration/beacon_app/utils.py:10-11 | `len()` is defined iff the end is not before the start. It is then the day difference, else ValueError. |
| `Streaks.ToText` | beacon_registration/beacon_app/utils.py:13-15 | 21 characters: the ISO start date, `/` at index 10, the ISO end date. |
| `Streaks.Repr` | beacon_registration/beacon_app/utils.py:17-18 | `repr` is the interval text of `str` (21 characters, solidus at index 10), and it reads back as the same streak. |
| `Streaks.SplitText` | beacon_registration/beacon_app/utils.py:15 | Splitting the text on `/` gives exactly the two ISO dates. |
| `Streaks.TextRoundTrip` | beacon_registration/beacon_app/utils.py:13-15 | The text determines the streak: it reads back as the same start and end. |
| `Streaks.Example` | beacon_registration/beacon_app/utils.py:10-15 | 2024-01-01 to 2024-01-15 lasts 14 days and prints `2024-01-01/2024-01-15`. The reverse streak has no `len()`. |
| `PasswordCrypto.Pad` | beacon_registration/beacon_app/crypto.py:21-24 | Appends k = 16 - len mod 16 copies of k, with 1 <= k <= 16 and the input kept as a prefix. The length becomes a multiple of 16 and strictly grows. |
| `PasswordCrypto.SliceTo` | beacon_registration/beacon_app/crypto.py:28 | Python's `s[:j]` is always a prefix of `s`. For -len <= j < 0 it drops the last -j elements. For j = 0 or j < -len it is empty. |
| `PasswordCrypto.Unpad` | beacon_registration/beacon_app/crypto.py:27-28 | Fails with IndexError exactly on the empty input. Otherwise the result is a strict prefix of the input. |
| `PasswordCrypto.UnpadCases` | beacon_registration/beacon_app/crypto.py:27-28 | Drops as many elements as the last value says, unchecked. A last value of 0, or of at least the length, gives the empty result. An empty input fails. |
| `PasswordCrypto.UnpadPad` | beacon_registration/beacon_app/crypto.py:21-28 | Unpadding a padded sequence gives it back. |
| `PasswordCrypto.PadWellPadded` | beacon_registration/beacon_app/crypto.py:21-24 | Padding always yields well-formed PKCS #7 blocks. |
| `PasswordCrypto.PadUnpad` | beacon_registration/beacon_app/crypto.py:21-28 | On well-formed blocks, unpad then pad is the identity. |
| `PasswordCrypto.SplitPasswordFields` | beacon_registration/beacon_app/crypto.py:30-37 | Succeeds iff the password has at least three `$`. It yields the first four fields and ignores the rest; fewer fields raise IndexError. |
| `PasswordCrypto.SplitPassword` | beacon_registration/beacon_app/crypto.py:30-37 | Succeeds iff the password has at least three `$`, else IndexError. The four fields it returns contain no `$`. |
| `PasswordCrypto.SplitPasswordJoin` | beacon_registration/beacon_app/crypto.py:36-37 | A password joined from `$`-free fields splits back into its first four. |

## Left out

- Timestamp parsing (meetingbuilder.py:21-25) is library parsing that depends on the locale. It enters as the parameters `TimeParser` and `DateParser`.
- AES-CBC encryption and decryption, the random IV, base64 and key derivation (crypto.py:14-18, 39-49) are foreign library calls. Only padding and the password split are modelled.
- `Store.Clean` and `Calendar.DayNames`: the day names are those of the English locale; `calendar.day_name` follows the process locale.
- `Store.StoreState.GetOrCreateMeeting`: `Meeting` has no uniqueness constraint. Rows created elsewhere can duplicate a key, and `get_or_create` then raises MultipleObjectsReturned. Keying meetings by their lookup rules duplicates out.
- `Store.StoreState.GetOrCreateInstance`: `MeetingInstance` (models.py:59-65) has no uniqueness constraint. Two rows with the same date, room and meeting (from the admin or a plain `create`) make `get_or_create` at meetingbuilder.py:97 raise MultipleObjectsReturned. Instances are a set of keys, which cannot hold such duplicates.
- Raw JSON values are modelled as strings only (`Events.RawEvent`). A numeric or null `room` raises AttributeError in `split_room` (meetingbuilder.py:19). A non-string `start`, `end` or `date` goes to the library parsers unchanged. A numeric `course` becomes a class code as it is. None of these is modelled.
- `ReconcilerProps.ReconcileKeepsBeacons` is stated for a successful pass only. A failed pass also never writes beacons, but that is not proved.
- `Meeting.students` (models.py:83) and `AttendanceRecord` are not read by the reconciler and are not modelled.
- `Store.StoreState.SaveInstance` models only the weekday part of `full_clean` and the two foreign keys. Field validation of dates and times belongs to the parsers.
- Django runtime details are not modelled: lazy querysets (the returned queryset is modelled by its set of meetings), transactions, and the exact IntegrityError types.
- In-place updates of the event dicts and their aliasing between stages are not modelled. Each stage builds new records, which is what callers observe.
- The fake-data command, token authentication, serializers, views, URLs, permissions and admin wiring are left out: random test-data generation, a wall-clock hook and framework glue.
- Attendance percentages, beacon eligibility and streak construction do not appear in the code, where only the `Streak` record exists (utils.py:5-18), so they are not modelled.

