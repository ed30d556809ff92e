/**
 * How a stored reminder becomes the five-field cron expression
 * `minute hour * * dayOfWeek` and the timezone handed to the cron library.
 * The time is cut at `:` and never parsed into numbers; the day list is
 * passed through untouched.
 */
module Schedule {
  import opened Strings
  import opened Reminders

  /** The first piece of `time.split(':')`. */
  function HourField(time: string): string
  {
    Split(time, ':')[0]
  }

  /**
   * The second piece of `time.split(':')`; with no `:` in `time` the
   * destructured variable is `undefined`, and the template string renders it so.
   */
  function MinuteField(time: string): string
  {
    var pieces := Split(time, ':');
    if |pieces| >= 2 then pieces[1] else "undefined"
  }

  /** `days && days.trim() !== '' ? days : '*'`. */
  function DayOfWeekField(days: string): string
  {
    if days != "" && Trim(days) != "" then days else "*"
  }

  /** `${minute} ${hour} * * ${dayOfWeek}`. */
  function CronExpression(r: Reminder): string
  {
    MinuteField(r.time) + " " + HourField(r.time) + " * * " + DayOfWeekField(r.days)
  }

  /** `reminder.timezone || 'UTC'`. */
  function ScheduleTimezone(r: Reminder): (tz: string)
    ensures tz != ""
    ensures r.timezone != "" ==> tz == r.timezone
    ensures r.timezone == "" ==> tz == "UTC"
  {
    if r.timezone != "" then r.timezone else "UTC"
  }

  /** The day field is `*` for a blank day list and the untrimmed list otherwise. */
  lemma DayOfWeekFieldSpec(days: string)
    ensures Blank(days) ==> DayOfWeekField(days) == "*"
    ensures !Blank(days) ==> DayOfWeekField(days) == days
  {
    TrimEmptyIff(days);
  }

  /** A time `hh:mm` gives hour `hh` and minute `mm`, whatever the characters. */
  lemma ClockTimeFields(hh: string, mm: string)
    requires ':' !in hh && ':' !in mm
    ensures HourField(hh + ":" + mm) == hh
    ensures MinuteField(hh + ":" + mm) == mm
  {
    assert Join([hh, mm], ':') == hh + ":" + mm;
    SplitJoin([hh, mm], ':');
  }

  /** A third piece, as in `hh:mm:ss`, is ignored. */
  lemma ExtraTimePiecesIgnored(hh: string, mm: string, ss: string)
    requires ':' !in hh && ':' !in mm && ':' !in ss
    ensures HourField(hh + ":" + mm + ":" + ss) == hh
    ensures MinuteField(hh + ":" + mm + ":" + ss) == mm
  {
    assert [hh, mm, ss] == [hh] + [mm, ss];
    assert [mm, ss] == [mm] + [ss];
    JoinCons(mm, [ss], ':');
    JoinCons(hh, [mm, ss], ':');
    assert Join([mm, ss], ':') == mm + ":" + ss;
    assert Join([hh, mm, ss], ':') == hh + ":" + (mm + ":" + ss);
    assert hh + ":" + (mm + ":" + ss) == hh + ":" + mm + ":" + ss;
    SplitJoin([hh, mm, ss], ':');
  }

  /** A time without `:` is the hour field whole, and the minute field reads `undefined`. */
  lemma TimeWithoutColon(time: string)
    requires ':' !in time
    ensures HourField(time) == time
    ensures MinuteField(time) == "undefined"
  {
    SplitWithoutSeparator(time, ':');
  }

  /**
   * The hour field is the text of `time` before its first `:` (all of it when
   * there is none), and `hour:minute` is how `time` begins whenever it has a `:`.
   */
  lemma HourMinuteArePrefix(time: string)
    ensures ':' !in HourField(time) && ':' !in MinuteField(time)
    ensures ':' !in time ==> HourField(time) == time
    ensures ':' in time ==> HasPrefix(time, HourField(time) + ":" + MinuteField(time))
  {
    var pieces := Split(time, ':');
    JoinSplit(time, ':');
    if ':' in time {
      JoinPrefix(pieces);
    } else {
      SplitWithoutSeparator(time, ':');
    }
  }

  lemma JoinPrefix(pieces: seq<string>)
    requires |pieces| >= 2
    ensures HasPrefix(Join(pieces, ':'), pieces[0] + ":" + pieces[1])
  {
    var p0, p1, tail := pieces[0], pieces[1], pieces[1..];
    assert pieces == [p0] + tail;
    JoinCons(p0, tail, ':');
    var jt := Join(tail, ':');
    assert Join(pieces, ':') == p0 + [':'] + jt;
    assert HasPrefix(jt, p1) by {
      if |tail| == 1 {
        assert jt == p1;
        PrefixOfConcat(p1, "");
      } else {
        assert tail == [p1] + tail[1..];
        JoinCons(p1, tail[1..], ':');
        PrefixOfConcat(p1, [':'] + Join(tail[1..], ':'));
      }
    }
    PrefixExtend(p0 + [':'], jt, p1);
  }

  lemma PrefixExtend(a: string, s: string, p: string)
    requires HasPrefix(s, p)
    ensures HasPrefix(a + s, a + p)
  {
    assert (a + s)[..|a + p|] == a + s[..|p|];
  }

  lemma PrefixOfConcat(a: string, b: string)
    ensures HasPrefix(a + b, a)
  {
    assert (a + b)[..|a|] == a;
  }

  /** When no field contains a space, the expression splits on spaces into exactly minute, hour, `*`, `*` and the day field. */
  lemma CronExpressionFields(r: Reminder)
    requires ' ' !in HourField(r.time) && ' ' !in MinuteField(r.time) && ' ' !in DayOfWeekField(r.days)
    ensures Split(CronExpression(r), ' ') == [MinuteField(r.time), HourField(r.time), "*", "*", DayOfWeekField(r.days)]
  {
    var m, h, d := MinuteField(r.time), HourField(r.time), DayOfWeekField(r.days);
    var fields := [m, h, "*", "*", d];
    assert fields == [m] + ([h] + (["*"] + (["*"] + [d])));
    JoinCons("*", [d], ' ');
    JoinCons("*", ["*"] + [d], ' ');
    JoinCons(h, ["*"] + (["*"] + [d]), ' ');
    JoinCons(m, [h] + (["*"] + (["*"] + [d])), ' ');
    assert Join(fields, ' ') == m + " " + (h + " " + ("*" + " " + ("*" + " " + d)));
    assert CronExpression(r) == m + " " + (h + " " + ("*" + " " + ("*" + " " + d)));
    SplitJoin(fields, ' ');
  }

  /** A well-formed clock time `hh:mm` with day list `days` schedules `mm hh * * dow`. */
  lemma CronExpressionOfClockTime(r: Reminder, hh: string, mm: string)
    requires r.time == hh + ":" + mm && ':' !in hh && ':' !in mm
    ensures Blank(r.days) ==> CronExpression(r) == mm + " " + hh + " * * *"
    ensures !Blank(r.days) ==> CronExpression(r) == mm + " " + hh + " * * " + r.days
  {
    ClockTimeFields(hh, mm);
    DayOfWeekFieldSpec(r.days);
  }
}
