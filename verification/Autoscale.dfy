/**
  The horizontal autoscaler (backend/internal/autoscale/scaler.go).

  Boot and stop are hooks: a boot call adds at most one VM to the pool and may fail to,
  a stop call is recorded.  Time is any non-decreasing integer clock, in seconds, and
  loads are real numbers.
 */
module Autoscale {
  import opened Wrappers

  datatype Policy = Policy(enabled: bool, min: int, max: int, targetCPU: real, scaleDownCPU: real, cooldownSec: int)

  datatype Project = Project(id: string, vmIDs: seq<string>, desired: int)

  datatype Sample = Sample(metric: string, value: real)

  /** What one poll of a project meets: the clock, the latest samples of each VM, the answers of the boot hook. */
  datatype Poll = Poll(now: int, samples: string -> seq<Sample>, boot: nat -> Option<string>)

  /** What the API stores for a policy it is sent. */
  function Stored(p: Policy): Policy {
    var max := if p.max <= 0 then 3 else p.max;
    var min := if p.min < 0 then 0 else p.min;
    var target := if p.targetCPU <= 0.0 then 80.0 else p.targetCPU;
    p.(max := max, min := if min >= max then max - 1 else min, targetCPU := target)
  }

  method PutAutoscale(p: Policy) returns (r: Policy)
    ensures r == Stored(p)
    ensures r.max == (if p.max > 0 then p.max else 3)
    ensures r.min == (if p.min < 0 then 0 else if p.min < r.max then p.min else r.max - 1)
    ensures r.targetCPU == (if p.targetCPU > 0.0 then p.targetCPU else 80.0)
    ensures r == p.(min := r.min, max := r.max, targetCPU := r.targetCPU)
    ensures 0 <= r.min < r.max && r.targetCPU > 0.0
    ensures 0 <= p.min < p.max && p.targetCPU > 0.0 ==> r == p
  {
    r := p;
    if r.max <= 0 {
      r := r.(max := 3);
    }
    if r.min < 0 {
      r := r.(min := 0);
    }
    if r.min >= r.max {
      r := r.(min := r.max - 1);
    }
    if r.targetCPU <= 0.0 {
      r := r.(targetCPU := 80.0);
    }
  }

  ghost predicate Valid(p: Policy) {
    p.enabled && p.max > 0 && p.max > p.min
  }

  ghost function Cooldown(sec: int): int {
    if sec <= 0 then 60 else sec
  }

  // ---------------------------------------------------------------------------
  // The load
  // ---------------------------------------------------------------------------

  const CPU := "cpu_percent"

  ghost function CpuValues(samples: seq<Sample>): seq<real> {
    if samples == [] then []
    else
      var m := samples[|samples| - 1];
      CpuValues(samples[..|samples| - 1]) + if m.metric == CPU then [m.value] else []
  }

  /** All processor samples of the pool's VMs. */
  ghost function PoolValues(pool: seq<string>, samples: string -> seq<Sample>): seq<real> {
    if pool == [] then []
    else PoolValues(pool[..|pool| - 1], samples) + CpuValues(samples(pool[|pool| - 1]))
  }

  ghost function Sum(xs: seq<real>): real {
    if xs == [] then 0.0 else Sum(xs[..|xs| - 1]) + xs[|xs| - 1]
  }

  /** Their mean; no samples read as no load. */
  ghost function Average(xs: seq<real>): real {
    if xs == [] then 0.0 else Sum(xs) / |xs| as real
  }

  ghost function Load(pool: seq<string>, poll: Poll): real {
    Average(PoolValues(pool, poll.samples))
  }

  lemma {:induction false} SumSnoc(xs: seq<real>, x: real)
    ensures Sum(xs + [x]) == Sum(xs) + x
  {
    assert (xs + [x])[..|xs|] == xs;
  }

  /** The mean lies between the least and the largest sample. */
  lemma {:induction false} AverageBetween(xs: seq<real>, lo: real, hi: real)
    requires xs != [] && forall i :: 0 <= i < |xs| ==> lo <= xs[i] <= hi
    ensures lo <= Average(xs) <= hi
  {
    SumBetween(xs, lo, hi);
    var n := |xs| as real;
    Divide(Sum(xs), n, lo, hi);
  }

  lemma {:induction false} SumBetween(xs: seq<real>, lo: real, hi: real)
    requires forall i :: 0 <= i < |xs| ==> lo <= xs[i] <= hi
    ensures lo * |xs| as real <= Sum(xs) <= hi * |xs| as real
  {
    if xs != [] {
      SumBetween(xs[..|xs| - 1], lo, hi);
      var n := |xs| as real;
      assert lo * n == lo * (n - 1.0) + lo && hi * n == hi * (n - 1.0) + hi;
    }
  }

  lemma {:induction false} Divide(s: real, n: real, lo: real, hi: real)
    requires n > 0.0 && lo * n <= s <= hi * n
    ensures lo <= s / n <= hi
  {
    var q := s / n;
    assert s == q * n;
    assert q < lo ==> (lo - q) * n > 0.0;
    assert q > hi ==> (q - hi) * n > 0.0;
  }

  method AvgCPU(pool: seq<string>, poll: Poll) returns (cpu: real)
    ensures cpu == Load(pool, poll) == Mean(pool, poll)
  {
    LoadIs(pool, poll);
    var total, n := 0.0, 0;
    ghost var seen := [];
    var i := 0;
    while i < |pool|
      invariant 0 <= i <= |pool| && seen == PoolValues(pool[..i], poll.samples)
      invariant total == Sum(seen) && n == |seen|
    {
      var samples := poll.samples(pool[i]);
      ghost var before := seen;
      var j := 0;
      while j < |samples|
        invariant 0 <= j <= |samples| && seen == before + CpuValues(samples[..j])
        invariant total == Sum(seen) && n == |seen|
      {
        assert samples[..j + 1][..j] == samples[..j];
        if samples[j].metric == CPU {
          total, n := total + samples[j].value, n + 1;
          SumSnoc(seen, samples[j].value);
          seen := seen + [samples[j].value];
        }
        j := j + 1;
      }
      assert samples[..j] == samples && pool[..i + 1][..i] == pool[..i];
      i := i + 1;
    }
    assert pool[..i] == pool;
    if n == 0 {
      return 0.0;
    }
    return total / n as real;
  }

  /** Number and sum of the processor samples of one VM, and of a pool, from the front. */
  ghost function CountIn(samples: seq<Sample>): nat {
    if samples == [] then 0 else (if samples[0].metric == "cpu_percent" then 1 else 0) + CountIn(samples[1..])
  }

  ghost function SumIn(samples: seq<Sample>): real {
    if samples == [] then 0.0
    else (if samples[0].metric == "cpu_percent" then samples[0].value else 0.0) + SumIn(samples[1..])
  }

  ghost function SampleCount(pool: seq<string>, poll: Poll): nat {
    if pool == [] then 0 else CountIn(poll.samples(pool[0])) + SampleCount(pool[1..], poll)
  }

  ghost function SampleSum(pool: seq<string>, poll: Poll): real {
    if pool == [] then 0.0 else SumIn(poll.samples(pool[0])) + SampleSum(pool[1..], poll)
  }

  lemma {:induction false} InSnoc(samples: seq<Sample>, m: Sample)
    ensures CountIn(samples + [m]) == CountIn(samples) + (if m.metric == "cpu_percent" then 1 else 0)
    ensures SumIn(samples + [m]) == SumIn(samples) + (if m.metric == "cpu_percent" then m.value else 0.0)
  {
    if samples == [] {
      assert samples + [m] == [m] && [m][1..] == [];
    } else {
      assert (samples + [m])[1..] == samples[1..] + [m];
      InSnoc(samples[1..], m);
    }
  }

  lemma {:induction false} CpuValuesIs(samples: seq<Sample>)
    ensures |CpuValues(samples)| == CountIn(samples) && Sum(CpuValues(samples)) == SumIn(samples)
  {
    if samples != [] {
      var init, m := samples[..|samples| - 1], samples[|samples| - 1];
      CpuValuesIs(init);
      InSnoc(init, m);
      assert samples == init + [m];
      if m.metric == CPU {
        SumSnoc(CpuValues(init), m.value);
      } else {
        assert CpuValues(init) + [] == CpuValues(init);
      }
    }
  }

  lemma {:induction false} SumAppend(xs: seq<real>, ys: seq<real>)
    ensures Sum(xs + ys) == Sum(xs) + Sum(ys)
    decreases |ys|
  {
    if ys == [] {
      assert xs + ys == xs;
    } else {
      var init, y := ys[..|ys| - 1], ys[|ys| - 1];
      SumAppend(xs, init);
      SumSnoc(xs + init, y);
      assert xs + ys == xs + init + [y];
    }
  }

  lemma {:induction false} SampleSnoc(pool: seq<string>, vm: string, poll: Poll)
    ensures SampleCount(pool + [vm], poll) == SampleCount(pool, poll) + CountIn(poll.samples(vm))
    ensures SampleSum(pool + [vm], poll) == SampleSum(pool, poll) + SumIn(poll.samples(vm))
  {
    if pool == [] {
      assert pool + [vm] == [vm] && [vm][1..] == [];
    } else {
      assert (pool + [vm])[1..] == pool[1..] + [vm];
      SampleSnoc(pool[1..], vm, poll);
    }
  }

  lemma {:induction false} PoolValuesIs(pool: seq<string>, poll: Poll)
    ensures |PoolValues(pool, poll.samples)| == SampleCount(pool, poll)
    ensures Sum(PoolValues(pool, poll.samples)) == SampleSum(pool, poll)
  {
    if pool != [] {
      var init, vm := pool[..|pool| - 1], pool[|pool| - 1];
      PoolValuesIs(init, poll);
      SampleSnoc(init, vm, poll);
      assert pool == init + [vm];
      CpuValuesIs(poll.samples(vm));
      SumAppend(PoolValues(init, poll.samples), CpuValues(poll.samples(vm)));
    }
  }

  /** The sum of the processor samples over their number, and zero without any. */
  ghost function Mean(pool: seq<string>, poll: Poll): real {
    var n := SampleCount(pool, poll);
    if n == 0 then 0.0 else SampleSum(pool, poll) / n as real
  }

  lemma {:induction false} LoadIs(pool: seq<string>, poll: Poll)
    ensures Load(pool, poll) == Mean(pool, poll)
  {
    PoolValuesIs(pool, poll);
  }

  // ---------------------------------------------------------------------------
  // The decision
  // ---------------------------------------------------------------------------

  ghost predicate Cooling(p: Policy, last: Option<int>, now: int) {
    last.Some? && now - last.value < Cooldown(p.cooldownSec)
  }

  /** The replica count a poll asks for, if any. */
  ghost function Target(p: Policy, last: Option<int>, poll: Poll, pool: seq<string>): Option<int> {
    var cpu, cur := Load(pool, poll), |pool|;
    if !Valid(p) || Cooling(p, last, poll.now) then None
    else if cur < p.min then Some(p.min)
    else if cpu > p.targetCPU && cur < p.max then Some(cur + 1)
    else if p.scaleDownCPU > 0.0 && cpu < p.scaleDownCPU && cur > p.min then Some(cur - 1)
    else None
  }

  /** The pool after the boot calls with indices cur up to target. */
  ghost function Grown(pool: seq<string>, boot: nat -> Option<string>, cur: nat, target: int): seq<string>
    decreases target - cur
  {
    if cur >= target then pool
    else Grown(if boot(cur).Some? then pool + [boot(cur).value] else pool, boot, cur + 1, target)
  }

  ghost function Resized(pool: seq<string>, boot: nat -> Option<string>, target: int): seq<string> {
    if target < 0 then []
    else if target < |pool| then pool[..target]
    else Grown(pool, boot, |pool|, target)
  }

  /** The VMs booted by the calls with indices lo up to hi, in order. */
  ghost function BootedIds(boot: nat -> Option<string>, lo: nat, hi: int): seq<string>
    decreases hi - lo
  {
    if hi <= lo then []
    else BootedIds(boot, lo, hi - 1) + if boot(hi - 1).Some? then [boot(hi - 1).value] else []
  }

  lemma {:induction false} BootedFirst(boot: nat -> Option<string>, lo: nat, hi: int)
    requires lo < hi
    ensures BootedIds(boot, lo, hi) ==
            (if boot(lo).Some? then [boot(lo).value] else []) + BootedIds(boot, lo + 1, hi)
    decreases hi - lo
  {
    if lo + 1 < hi {
      BootedFirst(boot, lo, hi - 1);
    }
  }

  lemma {:induction false} BootedOne(boot: nat -> Option<string>, at: nat)
    ensures BootedIds(boot, at, at + 1) == if boot(at).Some? then [boot(at).value] else []
  {
    assert BootedIds(boot, at, at) == [];
  }

  lemma {:induction false} GrownIs(pool: seq<string>, boot: nat -> Option<string>, cur: nat, target: int)
    ensures Grown(pool, boot, cur, target) == pool + BootedIds(boot, cur, target)
    decreases target - cur
  {
    if cur < target {
      var next := if boot(cur).Some? then pool + [boot(cur).value] else pool;
      GrownIs(next, boot, cur + 1, target);
      BootedFirst(boot, cur, target);
      assert next + BootedIds(boot, cur + 1, target) == pool + BootedIds(boot, cur, target);
    } else {
      assert pool + [] == pool;
    }
  }

  /** A minute, or the policy's own cooldown, has passed since the last scaling. */
  ghost predicate Rested(p: Policy, last: Option<int>, now: int) {
    last.None? || now - last.value >= (if p.cooldownSec <= 0 then 60 else p.cooldownSec)
  }

  lemma {:induction false} GrownBounds(pool: seq<string>, boot: nat -> Option<string>, cur: nat, target: int)
    ensures var r := Grown(pool, boot, cur, target);
            pool <= r && |r| <= |pool| + (if target > cur then target - cur else 0)
    decreases target - cur
  {
    if cur < target {
      GrownBounds(if boot(cur).Some? then pool + [boot(cur).value] else pool, boot, cur + 1, target);
    }
  }

  // ---------------------------------------------------------------------------
  // Runs of one project
  // ---------------------------------------------------------------------------

  /** `crashed`: the scaler has indexed below an empty pool, which ends the process. */
  datatype State = State(pool: seq<string>, last: Option<int>, crashed: bool)

  ghost function Step(p: Policy, s: State, poll: Poll): State {
    var t := Target(p, s.last, poll, s.pool);
    if s.crashed || t.None? then s
    else if t.value < 0 then s.(crashed := true)
    else State(Resized(s.pool, poll.boot, t.value), Some(poll.now), false)
  }

  ghost function Run(p: Policy, start: seq<string>, polls: seq<Poll>): State {
    if polls == [] then State(start, None, false)
    else Step(p, Run(p, start, polls[..|polls| - 1]), polls[|polls| - 1])
  }

  /** Poll i of the run scaled the project. */
  ghost predicate Scales(p: Policy, start: seq<string>, polls: seq<Poll>, i: nat)
    requires i < |polls|
  {
    Wanted(p, start, polls, i).Some? && Wanted(p, start, polls, i).value >= 0
  }

  ghost function Wanted(p: Policy, start: seq<string>, polls: seq<Poll>, i: nat): Option<int>
    requires i < |polls|
  {
    var s := Run(p, start, polls[..i]);
    if s.crashed then None else Target(p, s.last, polls[i], s.pool)
  }

  /** Every target a poll asks for lies within the policy, given a pool that does not exceed it. */
  lemma {:induction false} TargetInPolicy(p: Policy, last: Option<int>, poll: Poll, pool: seq<string>)
    requires |pool| <= p.max && Target(p, last, poll, pool).Some?
    ensures p.min <= Target(p, last, poll, pool).value <= p.max
  {
  }

  /**
    One poll crashes the scaler exactly when it finds an empty pool out of its cooldown
    under a policy with a negative minimum that scales down, and its load of zero does not
    exceed the target.
   */
  lemma {:induction false} CrashesWhen(p: Policy, s: State, poll: Poll)
    requires !s.crashed
    ensures Step(p, s, poll).crashed <==>
            && Valid(p) && !Cooling(p, s.last, poll.now)
            && s.pool == [] && p.min < 0 && 0.0 <= p.targetCPU && 0.0 < p.scaleDownCPU
  {
    if s.pool == [] {
      EmptyLoad(poll);
    }
  }

  lemma {:induction false} EmptyLoad(poll: Poll)
    ensures Load([], poll) == 0.0
  {
  }

  /** A policy whose minimum is zero or more never crashes the scaler. */
  lemma {:induction false} NeverCrashes(p: Policy, start: seq<string>, polls: seq<Poll>)
    requires p.min >= 0
    ensures !Run(p, start, polls).crashed
  {
    if polls != [] {
      NeverCrashes(p, start, polls[..|polls| - 1]);
      CrashesWhen(p, Run(p, start, polls[..|polls| - 1]), polls[|polls| - 1]);
    }
  }

  /** A policy as the API stores it never crashes the scaler, whatever was sent. */
  lemma {:induction false} StoredNeverCrashes(p: Policy, start: seq<string>, polls: seq<Poll>)
    ensures !Run(Stored(p), start, polls).crashed
  {
    NeverCrashes(Stored(p), start, polls);
  }

  lemma {:induction false} EmptyStays(p: Policy, start: seq<string>, polls: seq<Poll>, more: seq<Poll>)
    requires Run(p, start, polls).pool == [] && p.min <= 0 && p.targetCPU >= 0.0
    ensures Run(p, start, polls + more).pool == []
    decreases |more|
  {
    if more == [] {
      assert polls + more == polls;
    } else {
      var init := more[..|more| - 1];
      EmptyStays(p, start, polls, init);
      assert (polls + more)[..|polls + more| - 1] == polls + init;
      EmptyLoad(more[|more| - 1]);
    }
  }

  /** Crashing takes a policy under which an empty pool stays empty anyway. */
  lemma {:induction false} CrashedPolicy(p: Policy, start: seq<string>, polls: seq<Poll>)
    requires Run(p, start, polls).crashed
    ensures p.min < 0 && p.targetCPU >= 0.0
  {
    if polls != [] {
      var before := Run(p, start, polls[..|polls| - 1]);
      if before.crashed {
        CrashedPolicy(p, start, polls[..|polls| - 1]);
      } else {
        CrashesWhen(p, before, polls[|polls| - 1]);
      }
    }
  }

  /** The clock does not run backwards. */
  ghost predicate Timely(polls: seq<Poll>) {
    forall i, j :: 0 <= i < j < |polls| ==> polls[i].now <= polls[j].now
  }

  /** A poll after the cooldown, and no earlier than the last one, whose boots all succeed. */
  ghost function Revival(p: Policy, last: Option<int>, polls: seq<Poll>): Poll {
    var rested := if last.Some? then last.value + Cooldown(p.cooldownSec) else 0;
    var latest := if polls == [] then rested else polls[|polls| - 1].now;
    Poll(if latest > rested then latest else rested, _ => [], _ => Some("vm"))
  }

  lemma {:induction false} RevivalTimely(p: Policy, last: Option<int>, polls: seq<Poll>)
    requires Timely(polls)
    ensures Timely(polls + [Revival(p, last, polls)])
  {
    var longer := polls + [Revival(p, last, polls)];
    forall i, j | 0 <= i < j < |longer| ensures longer[i].now <= longer[j].now {
      assert i < |polls| - 1 ==> polls[i].now <= polls[|polls| - 1].now;
    }
  }

  lemma {:induction false} RevivalBoots(p: Policy, s: State, polls: seq<Poll>)
    requires Valid(p) && s.pool == [] && !s.crashed && (p.min > 0 || p.targetCPU < 0.0)
    ensures Step(p, s, Revival(p, s.last, polls)).pool != []
  {
    var poll := Revival(p, s.last, polls);
    EmptyLoad(poll);
    var t := Target(p, s.last, poll, s.pool);
    assert t.Some? && t.value >= 1;
    GrownBounds([] + ["vm"], poll.boot, 1, t.value);
  }

  /**
    A pool found empty at any point of a run stays empty however the run goes on exactly
    when the policy's minimum is not above zero and its target load not below: without VMs
    there are no samples, and no samples read as no load.
   */
  lemma {:induction false} EmptyStaysEmpty(p: Policy, start: seq<string>, polls: seq<Poll>)
    requires Valid(p) && Timely(polls) && Run(p, start, polls).pool == []
    ensures (forall more :: Timely(polls + more) ==> Run(p, start, polls + more).pool == []) <==>
            p.min <= 0 && p.targetCPU >= 0.0
  {
    if p.min <= 0 && p.targetCPU >= 0.0 {
      forall more ensures Run(p, start, polls + more).pool == [] {
        EmptyStays(p, start, polls, more);
      }
    } else {
      var s := Run(p, start, polls);
      if s.crashed {
        CrashedPolicy(p, start, polls);
      }
      var poll := Revival(p, s.last, polls);
      RevivalBoots(p, s, polls);
      RevivalTimely(p, s.last, polls);
      assert (polls + [poll])[..|polls|] == polls;
      assert Run(p, start, polls + [poll]) == Step(p, s, poll);
    }
  }

  /** For an enabled policy as the API stores it: exactly when a minimum of zero was stored. */
  lemma {:induction false} StoredEmptyStaysEmpty(p: Policy, start: seq<string>, polls: seq<Poll>)
    requires p.enabled && Timely(polls) && Run(Stored(p), start, polls).pool == []
    ensures (forall more :: Timely(polls + more) ==> Run(Stored(p), start, polls + more).pool == []) <==>
            p.min <= 0 || p.max == 1
  {
    hide Run, Timely;
    EmptyStaysEmpty(Stored(p), start, polls);
    assert Stored(p).min == 0 <==> p.min <= 0 || p.max == 1;
  }

  /** A pool that starts within the maximum never exceeds it, and every target is in range. */
  lemma {:induction false} PoolBounded(p: Policy, start: seq<string>, polls: seq<Poll>)
    requires |start| <= p.max
    ensures |Run(p, start, polls).pool| <= p.max
    ensures forall i :: 0 <= i < |polls| && Scales(p, start, polls, i) ==>
              p.min <= Wanted(p, start, polls, i).value <= p.max
  {
    if polls != [] {
      hide Load;
      var init := polls[..|polls| - 1];
      PoolBounded(p, start, init);
      var s, poll := Run(p, start, init), polls[|polls| - 1];
      var t := Target(p, s.last, poll, s.pool);
      if t.Some? {
        TargetInPolicy(p, s.last, poll, s.pool);
        GrownBounds(s.pool, poll.boot, |s.pool|, t.value);
      }
      forall i | 0 <= i < |polls| && Scales(p, start, polls, i)
        ensures p.min <= Wanted(p, start, polls, i).value <= p.max
      {
        if i < |init| {
          assert init[..i] == polls[..i];
          assert Scales(p, start, init, i);
        } else {
          assert polls[..i] == init;
        }
      }
    }
  }

  /** `last` is the time of the latest scaling poll. */
  lemma {:induction false} LastIsLatest(p: Policy, start: seq<string>, polls: seq<Poll>, i: nat)
    requires i < |polls| && Scales(p, start, polls, i)
    requires Timely(polls)
    ensures Run(p, start, polls).last.Some? && Run(p, start, polls).last.value >= polls[i].now
    decreases |polls|
  {
    var init := polls[..|polls| - 1];
    if i < |init| {
      assert init[..i] == polls[..i];
      LastIsLatest(p, start, init, i);
    } else {
      assert polls[..i] == init;
    }
  }

  /** Any two scale events of a project are at least the cooldown apart. */
  lemma {:induction false} EventsApart(p: Policy, start: seq<string>, polls: seq<Poll>, i: nat, j: nat)
    requires i < j < |polls| && Scales(p, start, polls, i) && Scales(p, start, polls, j)
    requires Timely(polls)
    ensures polls[j].now - polls[i].now >= if p.cooldownSec <= 0 then 60 else p.cooldownSec
  {
    var before := polls[..j];
    assert before[..i] == polls[..i];
    LastIsLatest(p, start, before, i);
  }

  /** One step of a run, by pool size and mean load. */
  lemma {:induction false} StepIs(p: Policy, s: State, poll: Poll)
    requires !s.crashed
    ensures var cur, m := |s.pool|, Mean(s.pool, poll);
            var acts := p.enabled && 0 < p.max && p.min < p.max && Rested(p, s.last, poll.now);
            var up := cur >= p.min && m > p.targetCPU && cur < p.max;
            var down := cur > p.min && !up && 0.0 < p.scaleDownCPU && m < p.scaleDownCPU;
            Step(p, s, poll) ==
            if acts && cur < p.min then State(Resized(s.pool, poll.boot, p.min), Some(poll.now), false)
            else if acts && up then State(Resized(s.pool, poll.boot, cur + 1), Some(poll.now), false)
            else if acts && down && cur > 0 then State(Resized(s.pool, poll.boot, cur - 1), Some(poll.now), false)
            else if acts && down then s.(crashed := true)
            else s
  {
    LoadIs(s.pool, poll);
    hide Load, Mean, Resized;
  }

  // ---------------------------------------------------------------------------
  // The scaler
  // ---------------------------------------------------------------------------

  class Scaler {
    var last: map<string, int>

    constructor ()
      ensures last == map[]
    {
      last := map[];
    }

    function LastOf(id: string): Option<int>
      reads this
    {
      if id in last then Some(last[id]) else None
    }

    /**
      Resizes the pool; a shrinking pool loses its tail, last VM first, and those are the VMs
      stopped.  A target below zero stops them all and then panics before anything is recorded.
     */
    method Scale(proj: Project, target: int, poll: Poll) returns (r: Project, stopped: seq<string>, panicked: bool)
      modifies this
      ensures panicked <==> target < 0
      ensures !panicked ==> r == proj.(vmIDs := Resized(proj.vmIDs, poll.boot, target), desired := target)
      ensures !panicked && target < |proj.vmIDs| ==> r.vmIDs == proj.vmIDs[..target]
      ensures target >= |proj.vmIDs| ==> r.vmIDs == proj.vmIDs + BootedIds(poll.boot, |proj.vmIDs|, target)
      ensures !panicked ==> last == old(last)[proj.id := poll.now]
      ensures panicked ==> r == proj.(vmIDs := []) && last == old(last)
      ensures |stopped| ==
              if target < 0 then |proj.vmIDs| else if target < |proj.vmIDs| then |proj.vmIDs| - target else 0
      ensures forall k :: 0 <= k < |stopped| ==> stopped[k] == proj.vmIDs[|proj.vmIDs| - 1 - k]
    {
      var cur := |proj.vmIDs|;
      var pool := proj.vmIDs;
      stopped, panicked := [], false;
      while cur < target
        invariant Grown(pool, poll.boot, cur, target) == Grown(proj.vmIDs, poll.boot, |proj.vmIDs|, target)
        invariant cur == |proj.vmIDs| || cur <= target
        invariant target <= |proj.vmIDs| ==> cur == |proj.vmIDs| && pool == proj.vmIDs
      {
        var booted := poll.boot(cur);
        if booted.Some? {
          pool := pool + [booted.value];
        }
        cur := cur + 1;
      }
      while cur > target
        invariant target < |proj.vmIDs| ==> target <= cur && 0 <= cur <= |proj.vmIDs|
        invariant target < |proj.vmIDs| ==> pool == proj.vmIDs[..cur] && |stopped| == |proj.vmIDs| - cur
        invariant target >= |proj.vmIDs| ==> cur == target && stopped == []
        invariant target >= |proj.vmIDs| ==> pool == Grown(proj.vmIDs, poll.boot, |proj.vmIDs|, target)
        invariant forall k :: 0 <= k < |stopped| ==> k < |proj.vmIDs| && stopped[k] == proj.vmIDs[|proj.vmIDs| - 1 - k]
      {
        if cur == 0 {
          return proj.(vmIDs := pool), stopped, true;
        }
        stopped := stopped + [pool[cur - 1]];
        pool := pool[..cur - 1];
        cur := cur - 1;
      }
      GrownIs(proj.vmIDs, poll.boot, |proj.vmIDs|, target);
      last := last[proj.id := poll.now];
      return proj.(vmIDs := pool, desired := target), stopped, false;
    }

    /**
      One project in one pass.  An enabled policy in its proper range and out of cooldown
      brings a pool below its minimum up to it, adds one VM over the target load, takes one
      away under the lower one, and does nothing else.
     */
    method ReconcileProject(p: Policy, proj: Project, poll: Poll)
      returns (r: Project, stopped: seq<string>, panicked: bool)
      modifies this
      ensures var cur, m := |proj.vmIDs|, Mean(proj.vmIDs, poll);
              var acts := p.enabled && 0 < p.max && p.min < p.max && Rested(p, old(LastOf(proj.id)), poll.now);
              var up := cur >= p.min && m > p.targetCPU && cur < p.max;
              var down := cur > p.min && !up && 0.0 < p.scaleDownCPU && m < p.scaleDownCPU;
              && (acts && cur < p.min ==>
                    && r == proj.(vmIDs := proj.vmIDs + BootedIds(poll.boot, cur, p.min), desired := p.min)
                    && stopped == [] && !panicked)
              && (acts && up ==>
                    && r.vmIDs == proj.vmIDs + (if poll.boot(cur).Some? then [poll.boot(cur).value] else [])
                    && r == proj.(vmIDs := r.vmIDs, desired := cur + 1)
                    && stopped == [] && !panicked)
              && (acts && down && cur > 0 ==>
                    && r == proj.(vmIDs := proj.vmIDs[..cur - 1], desired := cur - 1)
                    && stopped == [proj.vmIDs[cur - 1]] && !panicked)
              && (acts && down && cur == 0 ==> r.vmIDs == [] && stopped == [] && panicked)
              && (!acts || (cur >= p.min && !up && !down) ==>
                    r == proj && stopped == [] && !panicked && last == old(last))
              && (acts && (cur < p.min || up || (down && cur > 0)) ==> last == old(last)[proj.id := poll.now])
      ensures |proj.vmIDs| >= p.min ==> |r.vmIDs| <= |proj.vmIDs| + 1 && |stopped| <= 1
      ensures State(r.vmIDs, LastOf(proj.id), panicked) == Step(p, State(proj.vmIDs, old(LastOf(proj.id)), false), poll)
      ensures forall id :: id != proj.id ==> LastOf(id) == old(LastOf(id))
      ensures stopped != [] ==> |stopped| == 1 && proj.vmIDs == r.vmIDs + stopped
    {
      StepIs(p, State(proj.vmIDs, LastOf(proj.id), false), poll);
      hide Load, Mean, Grown, BootedIds, Resized, Step, Target;
      r, stopped, panicked := proj, [], false;
      if !p.enabled || p.max <= 0 || p.max <= p.min {
        return;
      }
      if proj.id in last && poll.now - last[proj.id] < (if p.cooldownSec <= 0 then 60 else p.cooldownSec) {
        return;
      }
      var cpu := AvgCPU(proj.vmIDs, poll);
      var cur := |proj.vmIDs|;
      if cur < p.min {
        r, stopped, panicked := Scale(proj, p.min, poll);
      } else if cpu > p.targetCPU && cur < p.max {
        r, stopped, panicked := Scale(proj, cur + 1, poll);
        BootedOne(poll.boot, cur);
      } else if p.scaleDownCPU > 0.0 && cpu < p.scaleDownCPU && cur > p.min {
        r, stopped, panicked := Scale(proj, cur - 1, poll);
      }
    }
  }
}
