/**
 The operating-hours state of the collection-point register pages: a
 record of seven days, each `{isOpen, openTime, closeTime}`, whose entries
 are enumerated monday to sunday (the key order of the record literal,
 which spreading it into a new object keeps).
 */
module Schedule {
  import opened Wrappers
  import opened Text

  datatype Day = Monday | Tuesday | Wednesday | Thursday | Friday | Saturday | Sunday

  datatype DayHours = DayHours(isOpen: bool, openTime: string, closeTime: string)

  datatype Week = Week(
    monday: DayHours, tuesday: DayHours, wednesday: DayHours, thursday: DayHours,
    friday: DayHours, saturday: DayHours, sunday: DayHours)

  /** The order in which `Object.entries`/`Object.values` visit the record. */
  const RecordOrder: seq<Day> := [Monday, Tuesday, Wednesday, Thursday, Friday, Saturday, Sunday]

  function Rank(d: Day): (k: nat)
    ensures k < |RecordOrder| && RecordOrder[k] == d
  {
    match d
    case Monday => 0
    case Tuesday => 1
    case Wednesday => 2
    case Thursday => 3
    case Friday => 4
    case Saturday => 5
    case Sunday => 6
  }

  /** The record's key for a day. */
  function DayKey(d: Day): string {
    match d
    case Monday => "monday"
    case Tuesday => "tuesday"
    case Wednesday => "wednesday"
    case Thursday => "thursday"
    case Friday => "friday"
    case Saturday => "saturday"
    case Sunday => "sunday"
  }

  /** The backend's day flag for a day. */
  function DayCode(d: Day): string {
    match d
    case Monday => "SEG"
    case Tuesday => "TER"
    case Wednesday => "QUA"
    case Thursday => "QUI"
    case Friday => "SEX"
    case Saturday => "SAB"
    case Sunday => "DOM"
  }

  /** Reading a record key back. */
  function DayOfKey(key: string): (r: Option<Day>)
    ensures r.Some? ==> DayKey(r.value) == key
    ensures r.None? ==> forall d :: DayKey(d) != key
  {
    if key == "monday" then Some(Monday)
    else if key == "tuesday" then Some(Tuesday)
    else if key == "wednesday" then Some(Wednesday)
    else if key == "thursday" then Some(Thursday)
    else if key == "friday" then Some(Friday)
    else if key == "saturday" then Some(Saturday)
    else if key == "sunday" then Some(Sunday)
    else None
  }

  /** Reading a day flag back. */
  function DayOfCode(code: string): (r: Option<Day>)
    ensures r.Some? ==> DayCode(r.value) == code
    ensures r.None? ==> forall d :: DayCode(d) != code
  {
    if code == "SEG" then Some(Monday)
    else if code == "TER" then Some(Tuesday)
    else if code == "QUA" then Some(Wednesday)
    else if code == "QUI" then Some(Thursday)
    else if code == "SEX" then Some(Friday)
    else if code == "SAB" then Some(Saturday)
    else if code == "DOM" then Some(Sunday)
    else None
  }

  /** Both tables are injective: each key and each flag names one day. */
  lemma DayTablesInvert(d: Day)
    ensures DayOfKey(DayKey(d)) == Some(d)
    ensures DayOfCode(DayCode(d)) == Some(d)
  {
  }

  lemma RecordOrderIsEnumeration()
    ensures |RecordOrder| == 7
    ensures forall d :: d in RecordOrder
    ensures forall i, j :: 0 <= i < j < |RecordOrder| ==> RecordOrder[i] != RecordOrder[j]
  {
    forall d ensures d in RecordOrder {
      assert RecordOrder[Rank(d)] == d;
    }
  }

  function Get(w: Week, d: Day): DayHours {
    match d
    case Monday => w.monday
    case Tuesday => w.tuesday
    case Wednesday => w.wednesday
    case Thursday => w.thursday
    case Friday => w.friday
    case Saturday => w.saturday
    case Sunday => w.sunday
  }

  /** `{...prev, [day]: h}`. */
  function Put(w: Week, d: Day, h: DayHours): (r: Week)
    ensures Get(r, d) == h
    ensures forall e :: e != d ==> Get(r, e) == Get(w, e)
  {
    match d
    case Monday => w.(monday := h)
    case Tuesday => w.(tuesday := h)
    case Wednesday => w.(wednesday := h)
    case Thursday => w.(thursday := h)
    case Friday => w.(friday := h)
    case Saturday => w.(saturday := h)
    case Sunday => w.(sunday := h)
  }

  /** The initial state: every day closed, weekdays 08:00-18:00, weekends 09:00-16:00. */
  const InitialWeek := Week(
    DayHours(false, "08:00", "18:00"), DayHours(false, "08:00", "18:00"),
    DayHours(false, "08:00", "18:00"), DayHours(false, "08:00", "18:00"),
    DayHours(false, "08:00", "18:00"), DayHours(false, "09:00", "16:00"),
    DayHours(false, "09:00", "16:00"))

  /** The three fields a day's controls can change, with the value they set. */
  datatype HoursEdit = SetOpen(open: bool) | SetOpenTime(openTime: string) | SetCloseTime(closeTime: string)

  /**
   `handleOperatingHoursChange(day, field, value)` as a state update: the
   edited field of `day` takes the value; every other field of `day` and
   every other day is kept.
   */
  function ChangeHours(w: Week, day: Day, edit: HoursEdit): (r: Week)
    ensures forall d :: d != day ==> Get(r, d) == Get(w, d)
    ensures Get(r, day).isOpen == (if edit.SetOpen? then edit.open else Get(w, day).isOpen)
    ensures Get(r, day).openTime == (if edit.SetOpenTime? then edit.openTime else Get(w, day).openTime)
    ensures Get(r, day).closeTime == (if edit.SetCloseTime? then edit.closeTime else Get(w, day).closeTime)
  {
    var h := Get(w, day);
    var h' := match edit
      case SetOpen(b) => h.(isOpen := b)
      case SetOpenTime(t) => h.(openTime := t)
      case SetCloseTime(t) => h.(closeTime := t)
    ;
    Put(w, day, h')
  }

  /** The days of `days` that are open, in the order given. */
  function OpenAmong(w: Week, days: seq<Day>): (r: seq<Day>)
    ensures |r| <= |days|
    ensures forall d :: d in r <==> d in days && Get(w, d).isOpen
  {
    if days == [] then []
    else if Get(w, days[0]).isOpen then [days[0]] + OpenAmong(w, days[1..])
    else OpenAmong(w, days[1..])
  }

  /** A run of days listed in record order. */
  predicate InRecordOrder(days: seq<Day>) {
    forall i, j :: 0 <= i < j < |days| ==> Rank(days[i]) < Rank(days[j])
  }

  lemma {:induction false} OpenAmongKeepsOrder(w: Week, days: seq<Day>)
    requires InRecordOrder(days)
    ensures InRecordOrder(OpenAmong(w, days))
  {
    if days != [] {
      OpenAmongKeepsOrder(w, days[1..]);
      var rest := OpenAmong(w, days[1..]);
      forall d | d in rest ensures Rank(days[0]) < Rank(d) {
        var j :| 0 <= j < |days[1..]| && days[1..][j] == d;
        assert days[j + 1] == d;
      }
    }
  }

  /**
   The days `Object.entries(operatingHours).filter(([_, v]) => v.isOpen)`
   keeps: exactly the days whose `isOpen` is set, each listed once, monday first.
   */
  function OpenDays(w: Week): (r: seq<Day>)
    ensures forall d :: d in r <==> Get(w, d).isOpen
    ensures InRecordOrder(r)
  {
    RecordOrderIsEnumeration();
    OpenAmongKeepsOrder(w, RecordOrder);
    OpenAmong(w, RecordOrder)
  }

  /** Some entry of the record is open exactly when some day is, exactly when a day is listed as open. */
  lemma SomeEntryOpen(w: Week)
    ensures (exists i :: 0 <= i < |RecordOrder| && Get(w, RecordOrder[i]).isOpen) <==> exists d :: Get(w, d).isOpen
    ensures |OpenDays(w)| > 0 <==> exists d :: Get(w, d).isOpen
  {
    if exists d :: Get(w, d).isOpen {
      var d :| Get(w, d).isOpen;
      assert RecordOrder[Rank(d)] == d;
      assert d in OpenDays(w);
    }
    if |OpenDays(w)| > 0 {
      assert OpenDays(w)[0] in OpenDays(w);
    }
  }

  /** `Object.values(operatingHours).some(d => d.isOpen)`. */
  function AnyOpen(w: Week): (r: bool)
    ensures r <==> exists d :: Get(w, d).isOpen
  {
    SomeEntryOpen(w);
    exists i :: 0 <= i < |RecordOrder| && Get(w, RecordOrder[i]).isOpen
  }

  /** The value of an `<input type="time">`: zero-padded `HH:MM`, 00:00 to 23:59. */
  predicate IsClockTime(t: string) {
    && |t| == 5
    && IsDigit(t[0]) && IsDigit(t[1]) && t[2] == ':' && IsDigit(t[3]) && IsDigit(t[4])
    && DigitValue(t[0]) * 10 + DigitValue(t[1]) <= 23
    && DigitValue(t[3]) <= 5
  }

  /** Minutes since midnight of a clock time. */
  function Minutes(t: string): int
    requires IsClockTime(t)
  {
    (DigitValue(t[0]) * 10 + DigitValue(t[1])) * 60 + DigitValue(t[3]) * 10 + DigitValue(t[4])
  }

  /**
   Comparing two clock times as strings, as `openTime >= closeTime` does,
   agrees with comparing them as times of day.
   */
  lemma ClockOrderIsTimeOrder(a: string, b: string)
    requires IsClockTime(a) && IsClockTime(b)
    ensures Below(a, b) <==> Minutes(a) < Minutes(b)
  {
    BelowStep(a, b);
    BelowStep(a[1..], b[1..]);
    BelowStep(a[2..], b[2..]);
    BelowStep(a[3..], b[3..]);
    BelowStep(a[4..], b[4..]);
    assert a[1..][1..] == a[2..] && b[1..][1..] == b[2..];
    assert a[2..][1..] == a[3..] && b[2..][1..] == b[3..];
    assert a[3..][1..] == a[4..] && b[3..][1..] == b[4..];
    assert a[4..][1..] == [] && b[4..][1..] == [];
    var lex := LexLess([a[0], a[1], a[3], a[4]], [b[0], b[1], b[3], b[4]]);
    assert Below(a, b) <==> lex;
    DigitOrder(a[0], b[0]);
    DigitOrder(a[1], b[1]);
    DigitOrder(a[3], b[3]);
    DigitOrder(a[4], b[4]);
  }
}
