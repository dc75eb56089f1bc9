/**
  The cron runner (backend/internal/cron/runner.go): matching of five-field schedules,
  and firing at most once a minute.
 */
module Cron {
  import opened Strconv
  import opened Strings
  import opened Wrappers

  // ---------------------------------------------------------------------------
  // Schedule fields
  // ---------------------------------------------------------------------------

  /** What a part of a field denotes: every step-th value from lo up to hi. */
  datatype Range = Range(lo: int, hi: int, step: int)

  ghost function BaseOf(part: string): string {
    part[..IndexOf(part, '/')]
  }

  /** The number after the first slash, where it is positive; one otherwise. */
  ghost function StepOf(part: string): (n: int)
    ensures n >= 1
  {
    var i := IndexOf(part, '/');
    if i == |part| then 1
    else
      var s := AtoiText(part[i + 1..]);
      if s.Some? && s.value > 0 then s.value else 1
  }

  ghost function BoundsOf(base: string, min: int, max: int): Option<(int, int)> {
    if base == "*" then Some((min, max))
    else
      var i := IndexOf(base, '-');
      if i < |base| then
        var a, b := AtoiText(base[..i]), AtoiText(base[i + 1..]);
        if a.None? || b.None? then None else Some((a.value, b.value))
      else
        var v := AtoiText(base);
        if v.None? then None else Some((v.value, v.value))
  }

  ghost function Denotes(part: string, min: int, max: int): (r: Option<Range>)
    ensures r.Some? ==> r.value.step >= 1
  {
    var b := BoundsOf(BaseOf(part), min, max);
    if b.None? then None else Some(Range(b.value.0, b.value.1, StepOf(part)))
  }

  /** The forms of a part: a star, a range or a number, each with or without a step. */
  lemma {:induction false} PartReads(base: string, step: string, min: int, max: int)
    requires '/' !in base
    ensures var plain, stepped := Denotes(base, min, max), Denotes(base + "/" + step, min, max);
            && (plain.Some? <==> stepped.Some?)
            && (plain.Some? ==>
                && plain.value.step == 1
                && stepped.value == plain.value.(step := StepFrom(AtoiText(step))))
  {
    hide AtoiText, BoundsOf;
    assert base + "/" + step == base + ['/'] + step;
    IndexOfFirst(base, '/', step);
    IndexOfNone(base, '/');
    var part := base + "/" + step;
    assert part[..|base|] == base && part[|base| + 1..] == step && base[..|base|] == base;
  }

  ghost function StepFrom(n: Option<int>): int {
    if n.Some? && n.value > 0 then n.value else 1
  }

  lemma {:induction false} BaseReads(base: string, a: string, b: string, min: int, max: int)
    requires '/' !in base
    ensures base == "*" ==> Denotes(base, min, max) == Some(Range(min, max, 1))
    ensures base == a + "-" + b && '-' !in a ==>
              Denotes(base, min, max) ==
              if AtoiText(a).None? || AtoiText(b).None? then None
              else Some(Range(AtoiText(a).value, AtoiText(b).value, 1))
    ensures base != "*" && '-' !in base ==>
              Denotes(base, min, max) ==
              if AtoiText(base).None? then None else Some(Range(AtoiText(base).value, AtoiText(base).value, 1))
  {
    hide AtoiText;
    IndexOfNone(base, '/');
    assert base[..|base|] == base;
    if '-' !in base {
      IndexOfNone(base, '-');
    }
    if base == a + "-" + b && '-' !in a {
      assert base == a + ['-'] + b;
      IndexOfFirst(a, '-', b);
      assert base[..|a|] == a && base[|a| + 1..] == b;
      assert base[|a|] == '-';
    }
  }

  ghost predicate Member(v: int, r: Range) {
    exists k: nat :: v == r.lo + k * r.step && v <= r.hi
  }

  lemma {:induction false} MemberByRemainder(v: int, r: Range)
    requires r.step >= 1
    ensures Member(v, r) <==> r.lo <= v <= r.hi && (v - r.lo) % r.step == 0
  {
    if r.lo <= v <= r.hi && (v - r.lo) % r.step == 0 {
      var k := (v - r.lo) / r.step;
      assert v - r.lo == r.step * k;
      assert v == r.lo + k * r.step && k >= 0;
    }
    if Member(v, r) {
      var k: nat :| v == r.lo + k * r.step && v <= r.hi;
      assert k * r.step >= 0;
      Multiple(k, r.step);
    }
  }

  lemma {:induction false} Multiple(k: nat, n: int)
    requires n >= 1
    ensures (k * n) % n == 0
  {
    var x := k * n;
    var d := k - x / n;
    assert x == n * (x / n) + x % n;
    assert n * d == n * k - n * (x / n);
    assert d >= 1 ==> n * d >= n;
    assert d <= -1 ==> n * d <= -n;
  }

  /** A part matches exactly the values it denotes; an unreadable part matches nothing. */
  method MatchPart(part: string, v: int, min: int, max: int) returns (ok: bool)
    ensures ok <==> Denotes(part, min, max).Some? && Member(v, Denotes(part, min, max).value)
  {
    hide AtoiText, IndexOf, Member;
    var step := 1;
    var base := part;
    var i := IndexOf(part, '/');
    if i < |part| {
      base := part[..i];
      var s := AtoiText(part[i + 1..]);
      if s.Some? && s.value > 0 {
        step := s.value;
      }
    }
    assert base == BaseOf(part) && step == StepOf(part);
    var lo, hi;
    if base == "*" {
      lo, hi := min, max;
    } else {
      var j := IndexOf(base, '-');
      if j < |base| {
        var a, b := AtoiText(base[..j]), AtoiText(base[j + 1..]);
        if a.None? || b.None? {
          return false;
        }
        lo, hi := a.value, b.value;
      } else {
        var n := AtoiText(base);
        if n.None? {
          return false;
        }
        lo, hi := n.value, n.value;
      }
    }
    MemberByRemainder(v, Range(lo, hi, step));
    if v < lo || v > hi {
      return false;
    }
    return (v - lo) % step == 0;
  }

  ghost predicate PartMatches(part: string, v: int, min: int, max: int) {
    Denotes(part, min, max).Some? && Member(v, Denotes(part, min, max).value)
  }

  ghost predicate FieldMatches(field: string, v: int, min: int, max: int) {
    field == "*" || exists part :: part in Split(field, ',') && PartMatches(part, v, min, max)
  }

  method FieldMatch(field: string, v: int, min: int, max: int) returns (ok: bool)
    ensures ok <==> FieldMatches(field, v, min, max)
  {
    hide Denotes, Member;
    if field == "*" {
      return true;
    }
    var parts := Split(field, ',');
    var i := 0;
    while i < |parts|
      invariant 0 <= i <= |parts|
      invariant forall j :: 0 <= j < i ==> !PartMatches(parts[j], v, min, max)
    {
      var m := MatchPart(parts[i], v, min, max);
      if m {
        assert parts[i] in parts && PartMatches(parts[i], v, min, max);
        return true;
      }
      i := i + 1;
    }
    return false;
  }

  /** Calendar fields of a minute; Sunday is weekday zero. */
  datatype Clock = Clock(minute: int, hour: int, day: int, month: int, weekday: int)

  /** The weekday as the schedule sees it: Sunday is seven. */
  ghost function DayOfWeek(t: Clock): int {
    if t.weekday == 0 then 7 else t.weekday
  }

  /** The four fields that do not look at the weekday. */
  ghost predicate DateMatches(fields: seq<string>, t: Clock)
    requires |fields| == 5
  {
    && FieldMatches(fields[0], t.minute, 0, 59)
    && FieldMatches(fields[1], t.hour, 0, 23)
    && FieldMatches(fields[2], t.day, 1, 31)
    && FieldMatches(fields[3], t.month, 1, 12)
  }

  ghost predicate ScheduleMatches(expr: string, t: Clock) {
    var fields := Fields(expr);
    |fields| == 5 && DateMatches(fields, t) && FieldMatches(fields[4], DayOfWeek(t), 0, 7)
  }

  method Matches(expr: string, t: Clock) returns (ok: bool)
    ensures ok <==> ScheduleMatches(expr, t)
  {
    hide FieldMatches, Fields;
    var fields := Fields(expr);
    if |fields| != 5 {
      return false;
    }
    ok := FieldMatch(fields[0], t.minute, 0, 59);
    if ok {
      ok := FieldMatch(fields[1], t.hour, 0, 23);
    }
    if ok {
      ok := FieldMatch(fields[2], t.day, 1, 31);
    }
    if ok {
      ok := FieldMatch(fields[3], t.month, 1, 12);
    }
    if ok {
      ok := FieldMatch(fields[4], if t.weekday == 0 then 7 else t.weekday, 0, 7);
    }
  }

  /** The field of every n-th value counts from the least value of its range. */
  lemma {:induction false} EveryNthField(field: string, text: string, n: int, v: int, min: int, max: int)
    requires field == "*/" + text && ',' !in text && AtoiText(text) == Some(n) && n > 0 && min <= v <= max
    ensures FieldMatches(field, v, min, max) <==> (v - min) % n == 0
  {
    hide AtoiText, Denotes, Member;
    assert field == "*" + "/" + text;
    BaseReads("*", "", "", min, max);
    PartReads("*", text, min, max);
    assert ',' !in field;
    SplitAt(field, ',', "");
    MemberByRemainder(v, Range(min, max, n));
    assert Split(field, ',') == [field];
    assert field != "*";
    assert PartMatches(field, v, min, max) <==> (v - min) % n == 0;
    assert field in Split(field, ',');
  }

  /** The calendar's own bounds. */
  ghost predicate Calendar(t: Clock) {
    0 <= t.minute <= 59 && 0 <= t.hour <= 23 && 1 <= t.day <= 31 && 1 <= t.month <= 12 && 0 <= t.weekday <= 6
  }

  /** Which value each of the five fields looks at, and from where it counts. */
  lemma {:induction false} EveryNth(expr: string, texts: seq<string>, ns: seq<int>, t: Clock)
    requires Calendar(t) && |texts| == 5 == |ns| && |Fields(expr)| == 5
    requires forall i :: 0 <= i < 5 ==>
               Fields(expr)[i] == "*/" + texts[i] && ',' !in texts[i] && AtoiText(texts[i]) == Some(ns[i]) && ns[i] > 0
    ensures ScheduleMatches(expr, t) <==>
            && t.minute % ns[0] == 0 && t.hour % ns[1] == 0
            && (t.day - 1) % ns[2] == 0 && (t.month - 1) % ns[3] == 0
            && (if t.weekday == 0 then 7 else t.weekday) % ns[4] == 0
  {
    hide Fields, FieldMatches, AtoiText;
    var f := Fields(expr);
    EveryNthField(f[0], texts[0], ns[0], t.minute, 0, 59);
    EveryNthField(f[1], texts[1], ns[1], t.hour, 0, 23);
    EveryNthField(f[2], texts[2], ns[2], t.day, 1, 31);
    EveryNthField(f[3], texts[3], ns[3], t.month, 1, 12);
    EveryNthField(f[4], texts[4], ns[4], DayOfWeek(t), 0, 7);
  }

  /** Only the words of an expression matter, not the white space between and around them. */
  lemma {:induction false} SpacingIrrelevant(a: string, c: char, b: string, c': char, t: Clock)
    requires IsSpace(c) && IsSpace(c')
    ensures ScheduleMatches(a + [c] + b, t) <==> ScheduleMatches(a + [c', c] + b, t)
  {
    hide DateMatches, FieldMatches;
    FieldsAcross(a, c, b);
    assert a + [c', c] + b == a + [c'] + ([c] + b);
    FieldsAcross(a, c', [c] + b);
    FieldsAcross("", c, b);
    assert "" + [c] + b == [c] + b && Fields("") + Fields(b) == Fields(b);
  }

  // ---------------------------------------------------------------------------
  // Sundays
  // ---------------------------------------------------------------------------

  /** The documented weekday field: on a Sunday both 0 and 7 are the day. */
  ghost predicate DocumentedDay(field: string, t: Clock) {
    if t.weekday == 0 then FieldMatches(field, 0, 0, 7) || FieldMatches(field, 7, 0, 7)
    else FieldMatches(field, t.weekday, 0, 7)
  }

  ghost predicate DocumentedMatch(expr: string, t: Clock) {
    var fields := Fields(expr);
    |fields| == 5 && DateMatches(fields, t) && DocumentedDay(fields[4], t)
  }

  /** The field names Sunday as 0 and not as 7. */
  ghost predicate ZeroOnly(field: string) {
    FieldMatches(field, 0, 0, 7) && !FieldMatches(field, 7, 0, 7)
  }

  /** The day is one of the numbers the part stands for: in its range, on its step. */
  ghost predicate HoldsDay(part: string, day: int) {
    var d := Denotes(part, 0, 7);
    d.Some? && d.value.lo <= day <= d.value.hi && (day - d.value.lo) % d.value.step == 0
  }

  /** The text of the field: no lone star, a part that stands for 0, and none that stands for 7. */
  ghost predicate MissesSunday(field: string) {
    && field != "*"
    && (exists part :: part in Split(field, ',') && HoldsDay(part, 0))
    && (forall part :: part in Split(field, ',') ==> !HoldsDay(part, 7))
  }

  lemma {:induction false} PartHoldsDay(part: string, day: int)
    ensures PartMatches(part, day, 0, 7) <==> HoldsDay(part, day)
  {
    hide Denotes;
    var d := Denotes(part, 0, 7);
    if d.Some? {
      MemberByRemainder(day, d.value);
    }
  }

  lemma {:induction false} ZeroOnlyIs(field: string)
    ensures ZeroOnly(field) <==> MissesSunday(field)
  {
    hide PartMatches, HoldsDay;
    forall part, day ensures PartMatches(part, day, 0, 7) <==> HoldsDay(part, day) {
      PartHoldsDay(part, day);
    }
  }

  /** The code reads a weekday field as documented exactly off Sundays or when its text does not miss them. */
  lemma {:induction false} SundayReading(field: string, t: Clock)
    ensures (FieldMatches(field, DayOfWeek(t), 0, 7) <==> DocumentedDay(field, t)) <==>
            t.weekday != 0 || !MissesSunday(field)
  {
    hide FieldMatches, MissesSunday;
    ZeroOnlyIs(field);
  }

  /** And so it runs an expression as documented unless a Sunday meets the other fields of one that misses it. */
  lemma {:induction false} SundaySchedules(expr: string, t: Clock)
    ensures (ScheduleMatches(expr, t) <==> DocumentedMatch(expr, t)) <==>
            var fields := Fields(expr);
            t.weekday != 0 || |fields| != 5 || !DateMatches(fields, t) || !MissesSunday(fields[4])
  {
    hide FieldMatches, DateMatches, Fields, MissesSunday;
    var fields := Fields(expr);
    if |fields| == 5 {
      SundayReading(fields[4], t);
    }
  }

  /**
    A part that denotes 0 denotes 7 too exactly when its range reaches 7 and its step
    divides 7, so steps other than one and seven lose Sunday even over the full range.
   */
  lemma {:induction false} ZeroAndSeven(r: Range)
    requires r.step >= 1 && Member(0, r)
    ensures Member(7, r) <==> r.hi >= 7 && (r.step == 1 || r.step == 7)
  {
    MemberByRemainder(0, r);
    MemberByRemainder(7, r);
    Shift(0 - r.lo, r.step);
    assert 7 - r.lo == 0 - r.lo + 7;
    DividesSeven(r.step);
  }

  lemma {:induction false} Shift(a: int, n: int)
    requires n >= 1 && a >= 0 && a % n == 0
    ensures (a + 7) % n == 7 % n
  {
    var k := a / n;
    assert a == n * k;
    var q := 7 / n;
    assert a + 7 == n * k + n * q + 7 % n;
    assert n * k + n * q == n * (k + q);
    Quotient(n, k + q, 7 % n, a + 7);
  }

  lemma {:induction false} Quotient(n: int, q: int, rest: int, x: int)
    requires n >= 1 && 0 <= rest < n && x == n * q + rest
    ensures x % n == rest
  {
    var d := q - x / n;
    assert x == n * (x / n) + x % n;
    assert n * d == n * q - n * (x / n);
    assert d >= 1 ==> n * d >= n;
    assert d <= -1 ==> n * d <= -n;
  }

  lemma {:induction false} DividesSeven(n: int)
    requires n >= 1
    ensures 7 % n == 0 <==> n == 1 || n == 7
  {
    if n > 7 {
      Quotient(n, 0, 7, 7);
    } else {
      assert n == 1 || n == 2 || n == 3 || n == 4 || n == 5 || n == 6 || n == 7;
    }
  }

  lemma {:induction false} OneDigit(c: char)
    requires '0' <= c <= '9'
    ensures AtoiText([c]) == Some(c as int - 48)
  {
    var d: byte := c as int;
    assert [d][..0] == [];
    assert AllDigits([d]) && DigitsValue([d]) == c as int - 48;
    assert seq(1, i requires 0 <= i < 1 => ([c][i] as int) as byte) == [d];
  }

  /** The documented Sunday, the full week from 0, and every second day from it: none of them runs on a Sunday. */
  lemma {:induction false} FieldsWithoutSunday()
    ensures MissesSunday("0") && MissesSunday("0-6") && MissesSunday("*/2")
  {
    hide AtoiText, Member, MissesSunday;
    OneDigit('0');
    assert MissesSunday("0") by {
      assert IndexOf("0", '-') == 1 && IndexOf("0", '/') == 1 && BaseOf("0") == "0";
      LonePart("0", Range(0, 0, 1));
    }
    assert MissesSunday("0-6") by {
      OneDigit('6');
      assert IndexOf("0-6", '/') == 3 && BaseOf("0-6") == "0-6";
      assert IndexOf("0-6", '-') == 1 && "0-6"[..1] == "0" && "0-6"[2..] == "6";
      LonePart("0-6", Range(0, 6, 1));
    }
    assert MissesSunday("*/2") by {
      OneDigit('2');
      assert IndexOf("*/2", '/') == 1 && "*/2"[..1] == "*" && "*/2"[2..] == "2";
      LonePart("*/2", Range(0, 7, 2));
    }
  }

  /** A field of a single part that denotes a range holding 0 and not 7. */
  lemma {:induction false} LonePart(field: string, r: Range)
    requires field != "*" && IndexOf(field, ',') == |field| && Denotes(field, 0, 7) == Some(r)
    requires r.lo == 0 <= r.hi && (r.hi < 7 || r.step == 2)
    ensures MissesSunday(field)
  {
    hide Denotes;
    assert Split(field, ',') == [field];
    MemberByRemainder(0, r);
    MemberByRemainder(7, r);
    ZeroAndSeven(r);
    assert field in Split(field, ',') && HoldsDay(field, 0);
  }

  // ---------------------------------------------------------------------------
  // Firing
  // ---------------------------------------------------------------------------

  /** Whether a poll in minute `m` fires, given the minute of the last run. */
  ghost predicate Fires(due: int -> bool, last: Option<int>, m: int) {
    due(m) && last != Some(m)
  }

  ghost function LastAfter(due: int -> bool, last: Option<int>, polls: seq<int>): Option<int> {
    if polls == [] then last
    else
      var before, m := LastAfter(due, last, polls[..|polls| - 1]), polls[|polls| - 1];
      if Fires(due, before, m) then Some(m) else before
  }

  /** How many of the polls in minute `m` fired. */
  ghost function FiredIn(due: int -> bool, last: Option<int>, polls: seq<int>, m: int): nat {
    if polls == [] then 0
    else
      var init, p := polls[..|polls| - 1], polls[|polls| - 1];
      FiredIn(due, last, init, m) + if p == m && Fires(due, LastAfter(due, last, init), p) then 1 else 0
  }

  ghost predicate Sorted(polls: seq<int>) {
    forall i, j :: 0 <= i < j < |polls| ==> polls[i] <= polls[j]
  }

  /** The last run, once the polls have started, is the latest polled minute that was due. */
  lemma {:induction false} LastRunKnown(due: int -> bool, last: Option<int>, polls: seq<int>)
    requires Sorted(polls) && (polls != [] && last.Some? ==> last.value <= polls[0])
    ensures polls != [] ==>
              var top, l := polls[|polls| - 1], LastAfter(due, last, polls);
              (l.Some? ==> l.value <= top) && (due(top) ==> l == Some(top))
  {
    if polls != [] {
      var init := polls[..|polls| - 1];
      LastRunKnown(due, last, init);
      if init != [] {
        assert init[|init| - 1] <= polls[|polls| - 1];
      }
    }
  }

  /**
    For any non-decreasing poll times a schedule fires exactly once in each minute that
    is due, polled and not already the minute of the last run, and never otherwise.
   */
  lemma {:induction false} OncePerMinute(due: int -> bool, last: Option<int>, polls: seq<int>, m: int)
    requires Sorted(polls) && (polls != [] && last.Some? ==> last.value <= polls[0])
    ensures FiredIn(due, last, polls, m) == if due(m) && m in polls && last != Some(m) then 1 else 0
  {
    if polls != [] {
      hide Fires, LastAfter;
      var init, p := polls[..|polls| - 1], polls[|polls| - 1];
      OncePerMinute(due, last, init, m);
      FiresFirstTime(due, last, polls);
      assert m in polls <==> m in init || m == p by {
        assert polls == init + [p];
      }
    }
  }

  /** A poll fires exactly when its minute is due, is polled for the first time and is not the last run's. */
  lemma {:induction false} FiresFirstTime(due: int -> bool, last: Option<int>, polls: seq<int>)
    requires Sorted(polls) && polls != [] && (last.Some? ==> last.value <= polls[0])
    ensures var init, p := polls[..|polls| - 1], polls[|polls| - 1];
            Fires(due, LastAfter(due, last, init), p) <==> due(p) && p !in init && last != Some(p)
  {
    var init, p := polls[..|polls| - 1], polls[|polls| - 1];
    LastRunKnown(due, last, init);
    if init != [] {
      hide LastAfter;
      var top := init[|init| - 1];
      assert top in init && top <= p;
      if p in init {
        var i :| 0 <= i < |init| && init[i] == p;
        assert i < |init| - 1 ==> init[i] <= top;
      }
    }
  }

  datatype Job = Job(id: string, active: bool, schedule: string, lastRun: Option<int>)

  /** The clock of a minute, and the minutes a schedule is due in. */
  ghost function Due(schedule: string, clockOf: int -> Clock): int -> bool {
    m => ScheduleMatches(schedule, clockOf(m))
  }

  /** One poll over all jobs: exactly the due ones fire, and their last run becomes this minute. */
  method FireDue(jobs: seq<Job>, m: int, clockOf: int -> Clock) returns (after: seq<Job>, fired: seq<bool>)
    ensures |after| == |jobs| == |fired|
    ensures forall i :: 0 <= i < |jobs| ==>
              && (fired[i] <==>
                  jobs[i].active && ScheduleMatches(jobs[i].schedule, clockOf(m)) && jobs[i].lastRun != Some(m))
              && (fired[i] <==> jobs[i].active && Fires(Due(jobs[i].schedule, clockOf), jobs[i].lastRun, m))
              && after[i] == if fired[i] then jobs[i].(lastRun := Some(m)) else jobs[i]
  {
    hide ScheduleMatches;
    after, fired := [], [];
    var i := 0;
    while i < |jobs|
      invariant 0 <= i <= |jobs| && |after| == i == |fired|
      invariant forall k :: 0 <= k < i ==>
                  && (fired[k] <==> jobs[k].active && Fires(Due(jobs[k].schedule, clockOf), jobs[k].lastRun, m))
                  && after[k] == if fired[k] then jobs[k].(lastRun := Some(m)) else jobs[k]
    {
      var job := jobs[i];
      var fire := false;
      if job.active && job.schedule != "" {
        fire := Matches(job.schedule, clockOf(m));
        if job.lastRun == Some(m) {
          fire := false;
        }
      }
      EmptyNeverDue(clockOf(m));
      after := after + [if fire then job.(lastRun := Some(m)) else job];
      fired := fired + [fire];
      i := i + 1;
    }
  }

  lemma {:induction false} EmptyNeverDue(t: Clock)
    ensures !ScheduleMatches("", t)
  {
  }
}
