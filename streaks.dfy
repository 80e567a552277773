/** The `Streak` value of utils.py: a start and an end date, a length in days and the ISO 8601
    time-interval text `start/end` (section 4.4 of ISO 8601:2004, solidus separator). */
module Streaks {
  import opened Wrappers
  import opened Calendar
  import Text

  datatype Streak = Streak(start: Date, end: Date)

  /** `Streak.__len__`: `(end - start).days`; nothing orders the two dates. */
  function DunderLen(s: Streak): (n: int)
    ensures n > 0 <==> Before(s.start, s.end)
    ensures n == 0 <==> s.start == s.end
    ensures n < 0 <==> Before(s.end, s.start)
  {
    DaysBetween(s.start, s.end)
  }

  /** The builtin `len(streak)`: Python refuses a negative `__len__` with ValueError. */
  function Len(s: Streak): (r: Result<nat, Error>)
    ensures r.Ok? <==> !Before(s.end, s.start)
    ensures r.Ok? ==> r.value == DaysBetween(s.start, s.end)
    ensures r.Err? ==> r.error == NegativeLength
  {
    var n := DunderLen(s);
    if n < 0 then Err(NegativeLength) else Ok(n)
  }

  /** `Streak.__str__`: the ISO start date, a solidus, the ISO end date. */
  function ToText(s: Streak): (t: string)
    ensures |t| == 21 && t[10] == '/'
    ensures t[..10] == IsoFormat(s.start) && t[11..] == IsoFormat(s.end)
  {
    IsoFormat(s.start) + "/" + IsoFormat(s.end)
  }

  /** `Streak.__repr__` returns `str(self)`, so it too names the streak without ambiguity. */
  function Repr(s: Streak): (t: string)
    ensures |t| == 21 && t[10] == '/'
    ensures ParseStreak(t) == Some(s)
  {
    TextRoundTrip(s);
    ToText(s)
  }

  /** Reads an interval text back: split on the solidus, then read both dates. */
  function ParseStreak(t: string): Option<Streak>
  {
    var parts := Text.Split(t, '/');
    if |parts| != 2 then None
    else match (ParseIso(parts[0]), ParseIso(parts[1]))
      case (Some(a), Some(b)) => Some(Streak(a, b))
      case _ => None
  }

  lemma NoSolidusInIso(d: Date)
    ensures '/' !in IsoFormat(d)
  {
    var s := IsoFormat(d);
    forall i | 0 <= i < |s| ensures s[i] != '/' {
      if i != 4 && i != 7 {
        assert Text.IsDigit(s[i]);
      }
    }
  }

  /** Splitting the text on `/` gives exactly the two ISO dates. */
  lemma SplitText(s: Streak)
    ensures Text.Split(ToText(s), '/') == [IsoFormat(s.start), IsoFormat(s.end)]
  {
    NoSolidusInIso(s.start);
    NoSolidusInIso(s.end);
    var parts := [IsoFormat(s.start), IsoFormat(s.end)];
    assert Text.Join(parts, '/') == ToText(s) by {
      assert Text.Join(parts[1..], '/') == IsoFormat(s.end);
    }
    Text.SplitJoin(parts, '/');
  }

  /** The text of a streak determines the streak. */
  lemma TextRoundTrip(s: Streak)
    ensures ParseStreak(ToText(s)) == Some(s)
  {
    SplitText(s);
    IsoRoundTrip(s.start);
    IsoRoundTrip(s.end);
  }

  /** A streak from 2024-01-01 to 2024-01-15 lasts 14 days; the reverse streak has no `len()`. */
  lemma Example()
    ensures DunderLen(Streak(Ymd(2024, 1, 1), Ymd(2024, 1, 15))) == 14
    ensures Len(Streak(Ymd(2024, 1, 15), Ymd(2024, 1, 1))) == Err(NegativeLength)
    ensures ToText(Streak(Ymd(2024, 1, 1), Ymd(2024, 1, 15))) == "2024-01-01/2024-01-15"
  {
  }
}
