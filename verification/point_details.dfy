/**
 The collection-point details page: the accepted-materials list and the
 operating-hours rows it renders from the backend's `diasPontoColeta`
 object, whose times arrive as `HHMM`.
 */
module PointDetails {
  import opened Wrappers
  import opened Text
  import opened Schedule
  import opened WasteTypes
  import AuthPointRegister

  /** One value of `diasPontoColeta`. */
  datatype Horario = Horario(open: string, close: string)

  /** One rendered row: the day as received and the `open - close` text. */
  datatype ScheduleRow = ScheduleRow(day: string, hours: string)

  /** `s.slice(0, 2) + ":" + s.slice(2)`. */
  function RenderTime(s: string): (r: string)
    ensures |r| == |s| + 1
    ensures |s| >= 2 ==> r[..2] == s[..2] && r[2] == ':' && r[3..] == s[2..]
    ensures |s| < 2 ==> r == s + ":"
  {
    Slice(s, 0, 2) + ":" + SliceFrom(s, 2)
  }

  /** Rendering a four-character `HHMM` gives `HH:MM`, and dropping that colon gives `HHMM` back. */
  lemma RenderTimeOfCompact(s: string)
    requires |s| == 4 && ':' !in s[..2]
    ensures |RenderTime(s)| == 5 && RenderTime(s)[2] == ':'
    ensures RemoveFirst(RenderTime(s), ':') == s
  {
    var r := RenderTime(s);
    assert r[..2] == s[..2];
    RemoveFirstAt(r, ':', 2);
    assert s == s[..2] + s[2..];
  }

  /**
   The register page stores `HH:MM` with its colon removed; the details page
   puts it back in the same place.
   */
  lemma TimeRoundTrip(t: string)
    requires IsClockTime(t)
    ensures RenderTime(AuthPointRegister.CompactTime(t)) == t
  {
    var s := AuthPointRegister.CompactTime(t);
    assert s[..2] == t[..2] && s[2..] == t[3..];
    var r := RenderTime(s);
    assert r[..2] == t[..2] && r[2] == t[2] && r[3..] == t[3..];
    assert t == t[..2] + [t[2]] + t[3..];
    assert r == r[..2] + [r[2]] + r[3..];
  }

  /**
   A time without a colon, such as the `""` of a cleared time field, which the
   register page sends without checking, is stored as it is and shown one
   character longer than entered: `""` is shown as a lone `:`.
   */
  lemma ColonlessTimeRendersChanged(t: string)
    requires ':' !in t
    ensures AuthPointRegister.CompactTime(t) == t
    ensures RenderTime(AuthPointRegister.CompactTime(t)) != t
    ensures t == "" ==> RenderTime(AuthPointRegister.CompactTime(t)) == ":"
  {
  }

  /** One schedule row: the day's key, then `open - close` with a colon put into each time. */
  function RenderRow(day: string, h: Horario): (r: ScheduleRow)
    ensures r.day == day
    ensures |r.hours| == |h.open| + |h.close| + 5
    ensures r.hours[..|h.open| + 1] == RenderTime(h.open)
    ensures r.hours[|h.open| + 1..|h.open| + 4] == " - "
    ensures r.hours[|h.open| + 4..] == RenderTime(h.close)
  {
    ScheduleRow(day, RenderTime(h.open) + " - " + RenderTime(h.close))
  }

  /**
   `Object.entries(diasPontoColeta).map(...)`: one row per entry, in the
   entries' order; no day is added, dropped or moved.
   */
  function RenderSchedule(entries: seq<(string, Horario)>): (rows: seq<ScheduleRow>)
    ensures |rows| == |entries|
    ensures forall i :: 0 <= i < |rows| ==> rows[i].day == entries[i].0
    ensures forall i :: 0 <= i < |rows| ==>
              rows[i].hours == RenderTime(entries[i].1.open) + " - " + RenderTime(entries[i].1.close)
  {
    seq(|entries|, i requires 0 <= i < |entries| => RenderRow(entries[i].0, entries[i].1))
  }

  /**
   The entries the backend returns for a point registered with `sent`, on
   the assumption that it keys each day's hours by the flag it received,
   in the order received.
   */
  function Stored(sent: seq<AuthPointRegister.DiaPonto>): (entries: seq<(string, Horario)>)
    ensures |entries| == |sent|
    ensures forall i :: 0 <= i < |sent| ==>
              entries[i] == (sent[i].dayFlag, Horario(sent[i].openHour, sent[i].closeHour))
  {
    seq(|sent|, i requires 0 <= i < |sent| =>
      (sent[i].dayFlag, Horario(sent[i].openHour, sent[i].closeHour)))
  }

  /**
   End to end: the details page shows one row per open day of the
   registered week, monday first, with the times exactly as entered.
   */
  lemma RegisteredHoursRenderBack(w: Week)
    requires forall d :: Get(w, d).isOpen ==> IsClockTime(Get(w, d).openTime) && IsClockTime(Get(w, d).closeTime)
    ensures var rows := RenderSchedule(Stored(AuthPointRegister.EncodeDays(w)));
            && |rows| == |OpenDays(w)|
            && forall i :: 0 <= i < |rows| ==>
                 && DayOfCode(rows[i].day) == Some(OpenDays(w)[i])
                 && rows[i].hours == Get(w, OpenDays(w)[i]).openTime + " - " + Get(w, OpenDays(w)[i]).closeTime
  {
    var sent := AuthPointRegister.EncodeDays(w);
    var rows := RenderSchedule(Stored(sent));
    forall i | 0 <= i < |rows|
      ensures rows[i].hours == Get(w, OpenDays(w)[i]).openTime + " - " + Get(w, OpenDays(w)[i]).closeTime
    {
      var h := Get(w, OpenDays(w)[i]);
      assert OpenDays(w)[i] in OpenDays(w);
      TimeRoundTrip(h.openTime);
      TimeRoundTrip(h.closeTime);
    }
  }

  /** The accepted-materials list: one line per id, in the order received. */
  function MaterialLines(tiposColeta: seq<string>): (lines: seq<(string, string)>)
    ensures |lines| == |tiposColeta|
    ensures forall i :: 0 <= i < |lines| ==>
              (Find(tiposColeta[i]).Some? ==>
                lines[i] == (Find(tiposColeta[i]).value.name, Find(tiposColeta[i]).value.description))
    ensures forall i :: 0 <= i < |lines| ==>
              (Find(tiposColeta[i]).None? ==> lines[i] == (tiposColeta[i], UnknownDescription))
  {
    seq(|tiposColeta|, i requires 0 <= i < |tiposColeta| => Describe(tiposColeta[i]))
  }
}
