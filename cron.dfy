/** The launchd job manager for macOS: schedule strings, their display form, the
    schedule part of the generated plist, and the table of registered jobs. */
module Cron {
  import opened Wrappers
  import opened Text

  /** A schedule dict: each key is present or absent. */
  datatype Schedule = Schedule(interval: Option<int>, month: Option<int>, day: Option<int>,
                               weekday: Option<int>, hour: Option<int>, minute: Option<int>)

  const NoSchedule := Schedule(None, None, None, None, None, None)

  /** Python raises ValueError from `int()` and from an unpacking of the wrong length. */
  const ValueError := "ValueError"

  // ----- parse_schedule -----

  /** The keys of `weekday_map`, in the order of their values. */
  const DayNames: seq<string> := ["sun", "mon", "tue", "wed", "thu", "fri", "sat"]

  /** `weekday_map.get(t)`. */
  function WeekdayNumber(t: string): (r: Option<nat>)
    ensures r.Some? ==> r.value < 7 && DayNames[r.value] == t
    ensures r.None? ==> t !in DayNames
  {
    IndexFrom(t, 0)
  }

  function IndexFrom(t: string, i: nat): (r: Option<nat>)
    requires i <= 7
    ensures r.Some? ==> i <= r.value < 7 && DayNames[r.value] == t
    ensures r.None? ==> forall k :: i <= k < 7 ==> DayNames[k] != t
    decreases 7 - i
  {
    if i == 7 then None else if DayNames[i] == t then Some(i) else IndexFrom(t, i + 1)
  }

  /** Which branch of the loop of `parse_schedule` a token takes. */
  datatype Kind = DayName | Time | DayOfMonth | Other

  function KindOf(t: string): Kind {
    if WeekdayNumber(t).Some? then DayName
    else if HasChar(t, ':') then Time
    else if AllDigits(t) then DayOfMonth
    else Other
  }

  /** One pass of the loop: a day name sets the weekday, `H:M` the hour and the minute,
      a run of digits the day of the month; anything else is ignored. */
  function Apply(s: Schedule, t: string): (r: Result<Schedule>)
    ensures KindOf(t) == Other ==> r == Ok(s)
    ensures KindOf(t) == DayName ==> r.Ok? && r.value == s.(weekday := r.value.weekday)
                                     && r.value.weekday.Some? && 0 <= r.value.weekday.value < 7
    ensures KindOf(t) == DayOfMonth ==> r == Ok(s.(day := Some(DigitsValue(t))))
    ensures KindOf(t) == Time && r.Ok? ==>
              |Split(t, ':')| == 2 && r.value.hour == PyInt(Split(t, ':')[0]) && r.value.minute == PyInt(Split(t, ':')[1])
              && r.value == s.(hour := r.value.hour, minute := r.value.minute)
              && r.value.hour.Some? && r.value.minute.Some?
    ensures r.Err? ==> KindOf(t) == Time && r.msg == ValueError
  {
    var w := WeekdayNumber(t);
    if w.Some? then Ok(s.(weekday := Some(w.value)))
    else if HasChar(t, ':') then
      var pieces := Split(t, ':');
      if |pieces| != 2 then Err(ValueError)
      else
        var h := PyInt(pieces[0]);
        var m := PyInt(pieces[1]);
        if h.None? || m.None? then Err(ValueError)
        else Ok(s.(hour := h, minute := m))
    else if AllDigits(t) then Ok(s.(day := Some(DigitsValue(t))))
    else Ok(s)
  }

  /** The loop over the tokens, stopping at the first error. */
  function ApplyAll(s: Schedule, parts: seq<string>): (r: Result<Schedule>)
    ensures r.Ok? ==> r.value.interval == s.interval && r.value.month == s.month
    ensures r.Ok? && (s.weekday.Some? ==> 0 <= s.weekday.value < 7) ==>
              (r.value.weekday.Some? ==> 0 <= r.value.weekday.value < 7)
    decreases |parts|
  {
    if parts == [] then Ok(s)
    else match Apply(s, parts[0])
      case Err(e) => Err(e)
      case Ok(s') => ApplyAll(s', parts[1..])
  }

  /** What `parse_schedule` returns, or the error it raises. */
  function ScheduleOf(str: string): (r: Result<Schedule>)
    ensures r.Ok? && r.value.interval.Some? <==> StartsWith(str, "interval:") && r.Ok?
    ensures r.Ok? && r.value.interval.Some? ==> r.value == NoSchedule.(interval := r.value.interval)
    ensures r.Ok? ==> r.value.month.None?
    ensures r.Ok? ==> WeekdayInTable(r.value)
  {
    if StartsWith(str, "interval:") then
      assert |Split(str, ':')| >= 2 by { IntervalHasColon(str); }
      match PyInt(Split(str, ':')[1])
      case None => Err(ValueError)
      case Some(n) => Ok(NoSchedule.(interval := Some(n)))
    else ApplyAll(NoSchedule, SplitWs(Lower(str)))
  }

  /** `parse_schedule`. */
  method ParseSchedule(str: string) returns (r: Result<Schedule>)
    ensures r == ScheduleOf(str)
  {
    if StartsWith(str, "interval:") {
      IntervalHasColon(str);
      var n := PyInt(Split(str, ':')[1]);
      if n.None? { return Err(ValueError); }
      return Ok(NoSchedule.(interval := Some(n.value)));
    }
    var parts := SplitWs(Lower(str));
    var schedule := NoSchedule;
    for i := 0 to |parts|
      invariant ApplyAll(NoSchedule, parts) == ApplyAll(schedule, parts[i..])
    {
      assert parts[i..][1..] == parts[i + 1..];
      var part := parts[i];
      var w := WeekdayNumber(part);
      if w.Some? {
        schedule := schedule.(weekday := Some(w.value));
      } else if HasChar(part, ':') {
        var pieces := Split(part, ':');
        if |pieces| != 2 { return Err(ValueError); }
        var hour := PyInt(pieces[0]);
        if hour.None? { return Err(ValueError); }
        var minute := PyInt(pieces[1]);
        if minute.None? { return Err(ValueError); }
        schedule := schedule.(hour := hour, minute := minute);
      } else if AllDigits(part) {
        schedule := schedule.(day := Some(DigitsValue(part)));
      }
    }
    assert parts[|parts|..] == [];
    return Ok(schedule);
  }

  lemma IntervalHasColon(str: string)
    requires StartsWith(str, "interval:")
    ensures |Split(str, ':')| >= 2
  {
    assert Find(str, ':') == 8 by {
      assert str[..9] == "interval:";
      assert str[8] == ':';
      assert forall i :: 0 <= i < 8 ==> str[i] == "interval"[i];
    }
  }

  /** `interval:N` is exactly the interval `N`. */
  lemma IntervalRoundTrip(n: nat)
    ensures ScheduleOf("interval:" + NatToStr(n)) == Ok(NoSchedule.(interval := Some(n)))
  {
    var d := NatToStr(n);
    var str := "interval:" + d;
    assert StartsWith(str, "interval:") by { assert str[..9] == "interval:"; }
    assert Find(str, ':') == 8 by {
      assert str[8] == ':';
      assert forall i :: 0 <= i < 8 ==> str[i] == "interval"[i];
    }
    assert str[9..] == d;
    assert !HasChar(d, ':') by { assert forall i :: 0 <= i < |d| ==> IsDigit(d[i]); }
    FindAbsent(d, ':');
    assert Split(str, ':')[1] == d;
    PyIntOfIntToStr(n);
  }

  /** A later token of the same kind overwrites what an earlier one set. */
  lemma LaterTokenWins(s: Schedule, first: string, second: string)
    requires KindOf(first) == KindOf(second) != Other
    requires Apply(s, first).Ok?
    ensures Apply(Apply(s, first).value, second) == Apply(s, second)
  {
  }

  /** Tokens the loop does not recognise leave the schedule as it was. */
  lemma {:induction false} UnknownTokensIgnored(s: Schedule, parts: seq<string>, rest: seq<string>)
    requires forall k :: 0 <= k < |parts| ==> KindOf(parts[k]) == Other
    ensures ApplyAll(s, parts + rest) == ApplyAll(s, rest)
  {
    if parts != [] {
      assert (parts + rest)[1..] == parts[1..] + rest;
      UnknownTokensIgnored(s, parts[1..], rest);
    } else {
      assert parts + rest == rest;
    }
  }

  /** `H:M` written with `str()` parses back to that hour and minute. */
  lemma TimeTokenRoundTrip(s: Schedule, h: nat, m: nat)
    ensures Apply(s, NatToStr(h) + ":" + NatToStr(m)) == Ok(s.(hour := Some(h), minute := Some(m)))
  {
    var a, b := NatToStr(h), NatToStr(m);
    var t := a + ":" + b;
    SplitTime(a, b);
    assert t !in DayNames by { assert IsDigit(t[0]); }
    assert HasChar(t, ':') by { assert t[|a|] == ':'; }
    PyIntOfIntToStr(h);
    PyIntOfIntToStr(m);
  }

  lemma SplitTime(a: string, b: string)
    requires AllDigits(a) && AllDigits(b)
    ensures Split(a + ":" + b, ':') == [a, b]
  {
    assert !HasChar(a, ':') by { assert forall i :: 0 <= i < |a| ==> IsDigit(a[i]); }
    assert !HasChar(b, ':') by { assert forall i :: 0 <= i < |b| ==> IsDigit(b[i]); }
    assert Join([a, b], [':']) == a + ":" + b by { JoinCons(a, [b], [':']); }
    SplitJoin([a, b], ':');
  }

  /** A run of digits written with `str()` parses back to that day of the month. */
  lemma DayTokenRoundTrip(s: Schedule, d: nat)
    ensures Apply(s, NatToStr(d)) == Ok(s.(day := Some(d)))
  {
    var t := NatToStr(d);
    assert t !in DayNames by { assert IsDigit(t[0]); }
    assert !HasChar(t, ':') by { assert forall i :: 0 <= i < |t| ==> IsDigit(t[i]); }
    DigitsOfNatToStr(d);
  }

  // ----- format_schedule -----

  const WeekdayNames: seq<string> := ["일", "월", "화", "수", "목", "금", "토"]

  /** `weekdays[w]` exists, with Python's negative indexing. */
  predicate WeekdayInTable(s: Schedule) {
    s.weekday.Some? ==> -7 <= s.weekday.value < 7
  }

  function WeekdayName(w: int): string
    requires -7 <= w < 7
  {
    WeekdayNames[if w < 0 then w + 7 else w]
  }

  /** The parts `format_schedule` joins, in the order month, day, weekday, hour, minute. */
  function TextParts(s: Schedule): (r: seq<string>)
    requires WeekdayInTable(s)
    ensures |r| == Present(s)
  {
    MonthPart(s) + DayPart(s) + WeekdayPart(s) + HourPart(s) + MinutePart(s)
  }

  function MonthPart(s: Schedule): seq<string> {
    if s.month.Some? then [IntToStr(s.month.value) + "월"] else []
  }

  function DayPart(s: Schedule): seq<string> {
    if s.day.Some? then [IntToStr(s.day.value) + "일"] else []
  }

  function WeekdayPart(s: Schedule): seq<string>
    requires WeekdayInTable(s)
  {
    if s.weekday.Some? then [WeekdayName(s.weekday.value) + "요일"] else []
  }

  function HourPart(s: Schedule): seq<string> {
    if s.hour.Some? then [Pad2(s.hour.value) + "시"] else []
  }

  function MinutePart(s: Schedule): seq<string> {
    if s.minute.Some? then [Pad2(s.minute.value) + "분"] else []
  }

  /** How many of the calendar keys are present. */
  function Present(s: Schedule): nat {
    (if s.month.Some? then 1 else 0) + (if s.day.Some? then 1 else 0) + (if s.weekday.Some? then 1 else 0)
    + (if s.hour.Some? then 1 else 0) + (if s.minute.Some? then 1 else 0)
  }

  /** What `format_schedule` returns. */
  function ScheduleText(s: Schedule): (r: string)
    requires WeekdayInTable(s)
  {
    if s.interval.Some? then "매 " + IntToStr(s.interval.value) + "초"
    else if TextParts(s) == [] then "설정 없음"
    else Join(TextParts(s), " ")
  }

  /** `format_schedule`, appending the parts one by one. */
  method FormatSchedule(s: Schedule) returns (r: string)
    requires WeekdayInTable(s)
    ensures r == ScheduleText(s)
  {
    if s.interval.Some? {
      return "매 " + IntToStr(s.interval.value) + "초";
    }
    var parts: seq<string> := [];
    if s.month.Some? { parts := parts + [IntToStr(s.month.value) + "월"]; }
    assert parts == MonthPart(s);
    if s.day.Some? { parts := parts + [IntToStr(s.day.value) + "일"]; }
    assert parts == MonthPart(s) + DayPart(s);
    if s.weekday.Some? { parts := parts + [WeekdayName(s.weekday.value) + "요일"]; }
    assert parts == MonthPart(s) + DayPart(s) + WeekdayPart(s);
    if s.hour.Some? { parts := parts + [Pad2(s.hour.value) + "시"]; }
    assert parts == MonthPart(s) + DayPart(s) + WeekdayPart(s) + HourPart(s);
    if s.minute.Some? { parts := parts + [Pad2(s.minute.value) + "분"]; }
    assert parts == TextParts(s);
    r := if parts != [] then Join(parts, " ") else "설정 없음";
  }

  /** An interval hides every other key. */
  lemma IntervalHidesCalendar(s: Schedule)
    requires WeekdayInTable(s) && s.interval.Some?
    ensures ScheduleText(s) == ScheduleText(NoSchedule.(interval := s.interval))
  {
  }

  /** A schedule with no key displays as "설정 없음", and one with calendar keys displays
      one part per key. */
  lemma FormatEmpty(s: Schedule)
    requires WeekdayInTable(s) && s.interval.None?
    ensures Present(s) == 0 <==> ScheduleText(s) == "설정 없음" && TextParts(s) == []
  {
  }

  /** Every schedule `parse_schedule` returns can be displayed. */
  lemma ParsedSchedulesFormat(str: string)
    requires ScheduleOf(str).Ok?
    ensures WeekdayInTable(ScheduleOf(str).value)
    ensures ScheduleOf(str).value.interval.None? ==> Present(ScheduleOf(str).value) <= 4
  {
  }

  /** Hours and minutes below ten are padded to two digits. */
  lemma PaddedClock(h: nat, m: nat)
    requires h < 10 && m < 10
    ensures TextParts(NoSchedule.(hour := Some(h), minute := Some(m))) == [['0', DigitChar(h)] + "시", ['0', DigitChar(m)] + "분"]
  {
  }

  // ----- generate_plist: the schedule part -----

  /** One entry when the key is present. */
  function Entry(key: string, v: Option<int>): (r: seq<(string, int)>)
    ensures forall k, n :: (k, n) in r <==> k == key && v == Some(n)
    ensures |r| == if v.Some? then 1 else 0
  {
    if v.Some? then [(key, v.value)] else []
  }

  /** The `StartCalendarInterval` entries, in the order Hour, Minute, Weekday, Day, Month. */
  function CalendarEntries(s: Schedule): (r: seq<(string, int)>)
    ensures |r| == Present(s)
  {
    Entry("Hour", s.hour) + Entry("Minute", s.minute) + Entry("Weekday", s.weekday)
    + Entry("Day", s.day) + Entry("Month", s.month)
  }

  /** The calendar dict holds exactly the keys the schedule has, with their values. */
  lemma CalendarKeys(s: Schedule)
    ensures forall v :: ("Hour", v) in CalendarEntries(s) <==> s.hour == Some(v)
    ensures forall v :: ("Minute", v) in CalendarEntries(s) <==> s.minute == Some(v)
    ensures forall v :: ("Weekday", v) in CalendarEntries(s) <==> s.weekday == Some(v)
    ensures forall v :: ("Day", v) in CalendarEntries(s) <==> s.day == Some(v)
    ensures forall v :: ("Month", v) in CalendarEntries(s) <==> s.month == Some(v)
  {
  }

  function EntryXml(e: (string, int)): string {
    "\n        <key>" + e.0 + "</key>\n        <integer>" + IntToStr(e.1) + "</integer>"
  }

  function EntriesXml(es: seq<(string, int)>): string {
    if es == [] then [] else EntryXml(es[0]) + EntriesXml(es[1..])
  }

  /** `schedule_xml`. */
  function CalendarXml(s: Schedule): string {
    "<dict>" + EntriesXml(CalendarEntries(s)) + "\n    </dict>"
  }

  /** `interval_xml`: a `StartInterval` when the schedule has an interval, else the
      calendar dict. */
  function IntervalXml(s: Schedule): (r: string)
    ensures s.interval.Some? <==> StartsWith(r, "<key>StartInterval</key>")
  {
    var r := if s.interval.Some? then "<key>StartInterval</key>\n    <integer>" + IntToStr(s.interval.value) + "</integer>"
             else "<key>StartCalendarInterval</key>\n    " + CalendarXml(s);
    assert s.interval.None? ==> r[17] != "<key>StartInterval</key>"[17];
    r
  }

  /** The plist and the display name list the same keys. */
  lemma PlistMatchesDisplay(s: Schedule)
    requires WeekdayInTable(s)
    ensures |CalendarEntries(s)| == |TextParts(s)|
  {
  }

  // ----- the job table -----

  /** One entry of `jobs.json`. */
  datatype Job = Job(command: string, workdir: string, schedule: Schedule, description: string,
                     notify: bool, createdAt: string, updatedAt: string)

  /** The fields `update_job` was given; None leaves a field as it was. */
  datatype Changes = Changes(command: Option<string>, workdir: Option<string>, schedule: Option<Schedule>,
                             description: Option<string>, notify: Option<bool>)

  /** The job after `update_job` overwrote the given fields and the update time. */
  function Updated(job: Job, ch: Changes, now: string): Job {
    Job(ch.command.GetOr(job.command), ch.workdir.GetOr(job.workdir), ch.schedule.GetOr(job.schedule),
        ch.description.GetOr(job.description), ch.notify.GetOr(job.notify), job.createdAt, now)
  }

  /** A field given to `update_job` replaces the old one; every other field but the update
      time is kept. */
  lemma UpdatedFields(job: Job, ch: Changes, now: string)
    ensures var j := Updated(job, ch, now);
      (j.command == if ch.command.Some? then ch.command.value else job.command)
      && (j.workdir == if ch.workdir.Some? then ch.workdir.value else job.workdir)
      && (j.schedule == if ch.schedule.Some? then ch.schedule.value else job.schedule)
      && (j.description == if ch.description.Some? then ch.description.value else job.description)
      && (j.notify == if ch.notify.Some? then ch.notify.value else job.notify)
      && j.createdAt == job.createdAt && j.updatedAt == now
  {
  }

  /** Updating twice with the same fields is updating once, at the later time. */
  lemma UpdateIdempotent(job: Job, ch: Changes, t1: string, t2: string)
    ensures Updated(Updated(job, ch, t1), ch, t2) == Updated(job, ch, t2)
  {
  }

  function ExistsMessage(id: string): string { "❌ 이미 존재하는 작업: " + id }
  function MissingMessage(id: string): string { "❌ 존재하지 않는 작업: " + id }
  function LoadMessage(stderr: string): string { "❌ launchctl 등록 실패: " + stderr }

  /** The persisted job table and the jobs that have a plist in LaunchAgents. The result
      code and the error text of `launchctl load` and the clock are parameters. */
  class JobStore {
    var jobs: map<string, Job>
    var plists: set<string>

    /** Every recorded job has its plist. */
    ghost predicate Valid()
      reads this
    {
      jobs.Keys <= plists
    }

    constructor ()
      ensures jobs == map[] && plists == {} && Valid()
    {
      jobs := map[];
      plists := {};
    }

    /** `add_job`: an existing id is refused; a job `launchctl` refuses loses its plist
        and is not recorded. The clock is read twice, once for each time stamp, so
        `createdAt` and `updatedAt` are two readings that may differ. */
    method AddJob(id: string, command: string, workdir: string, schedule: Schedule, description: string,
                  notify: bool, createdAt: string, updatedAt: string, loadStatus: int, stderr: string)
      returns (r: Result<()>)
      requires Valid()
      modifies this
      ensures Valid()
      ensures id in old(jobs) ==> r == Err(ExistsMessage(id)) && jobs == old(jobs) && plists == old(plists)
      ensures id !in old(jobs) && loadStatus != 0 ==>
                r == Err(LoadMessage(stderr)) && jobs == old(jobs) && plists == old(plists) - {id}
      ensures id !in old(jobs) && loadStatus == 0 ==>
                r == Ok(()) && plists == old(plists) + {id}
                && jobs == old(jobs)[id := Job(command, workdir, schedule, description, notify, createdAt, updatedAt)]
                && |jobs| == |old(jobs)| + 1
    {
      if id in jobs {
        return Err(ExistsMessage(id));
      }
      plists := plists + {id};
      if loadStatus != 0 {
        plists := plists - {id};
        return Err(LoadMessage(stderr));
      }
      jobs := jobs[id := Job(command, workdir, schedule, description, notify, createdAt, updatedAt)];
      return Ok(());
    }

    /** `remove_job`: an unknown id is refused; otherwise the plist and the entry go. */
    method RemoveJob(id: string) returns (r: Result<()>)
      requires Valid()
      modifies this
      ensures Valid()
      ensures id !in old(jobs) ==> r == Err(MissingMessage(id)) && jobs == old(jobs) && plists == old(plists)
      ensures id in old(jobs) ==>
                r == Ok(()) && jobs == old(jobs) - {id} && plists == old(plists) - {id}
                && |jobs| == |old(jobs)| - 1
    {
      if id !in jobs {
        return Err(MissingMessage(id));
      }
      plists := plists - {id};
      jobs := jobs - {id};
      return Ok(());
    }

    /** `update_job`: an unknown id is refused; the plist is rewritten before it is
        loaded, and the changed entry is saved only when `launchctl` accepts it. */
    method UpdateJob(id: string, ch: Changes, now: string, loadStatus: int, stderr: string) returns (r: Result<()>)
      requires Valid()
      modifies this
      ensures Valid()
      ensures id !in old(jobs) ==> r == Err(MissingMessage(id)) && jobs == old(jobs) && plists == old(plists)
      ensures id in old(jobs) && loadStatus != 0 ==>
                r == Err(LoadMessage(stderr)) && jobs == old(jobs) && plists == old(plists) + {id}
      ensures id in old(jobs) && loadStatus == 0 ==>
                r == Ok(()) && plists == old(plists) + {id}
                && jobs == old(jobs)[id := Updated(old(jobs)[id], ch, now)]
                && jobs.Keys == old(jobs).Keys
    {
      if id !in jobs {
        return Err(MissingMessage(id));
      }
      var info := Updated(jobs[id], ch, now);
      plists := plists + {id};
      if loadStatus != 0 {
        return Err(LoadMessage(stderr));
      }
      jobs := jobs[id := info];
      return Ok(());
    }
  }
}
