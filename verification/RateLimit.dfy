/**
  The per-client request cap (allowRate in backend/internal/api/api.go).

  Times are integers on any clock resolution, WINDOW being one minute of it.  A window
  opens with a request that finds no entry or an expired one, and counts from there.
 */
module RateLimit {
  import opened Wrappers

  /** One minute, in nanoseconds. */
  const WINDOW: int := 60_000_000_000

  datatype Entry = Entry(count: int, reset: int)

  datatype Request = Request(client: string, time: int)

  ghost predicate Opens(e: Option<Entry>, now: int) {
    e.None? || now > e.value.reset
  }

  ghost predicate Admits(e: Option<Entry>, now: int, limit: int) {
    Opens(e, now) || e.value.count + 1 <= limit
  }

  /** The entry of a client after one of its requests. */
  ghost function Next(e: Option<Entry>, now: int, limit: int): Option<Entry> {
    if Opens(e, now) then Some(Entry(1, now + WINDOW))
    else if Admits(e, now, limit) then Some(e.value.(count := e.value.count + 1))
    else e
  }

  class Limiter {
    const limit: int
    var rate: map<string, Entry>

    constructor (limit: int)
      ensures this.limit == limit && rate == map[]
    {
      this.limit := limit;
      rate := map[];
    }

    method AllowRate(client: string, now: int) returns (ok: bool)
      modifies this
      ensures client !in old(rate) || now > old(rate)[client].reset ==>
                ok && rate == old(rate)[client := Entry(1, now + 60_000_000_000)]
      ensures client in old(rate) && now <= old(rate)[client].reset && old(rate)[client].count < limit ==>
                ok && rate == old(rate)[client := Entry(old(rate)[client].count + 1, old(rate)[client].reset)]
      ensures client in old(rate) && now <= old(rate)[client].reset && old(rate)[client].count >= limit ==>
                !ok && rate == old(rate)
      ensures ok <==> Admits(Lookup(old(rate), client), now, limit)
      ensures Lookup(rate, client) == Next(Lookup(old(rate), client), now, limit)
      ensures forall c :: c != client ==> Lookup(rate, c) == Lookup(old(rate), c)
    {
      if client !in rate || now > rate[client].reset {
        rate := rate[client := Entry(1, now + WINDOW)];
        return true;
      }
      var e := rate[client].(count := rate[client].count + 1);
      if e.count > limit {
        return false;
      }
      rate := rate[client := e];
      return true;
    }

    /** Serves a whole log of requests, in the order they arrive. */
    method Serve(log: seq<Request>) returns (answers: seq<bool>)
      requires rate == map[]
      modifies this
      ensures |answers| == |log| && Answered(answers, log, limit)
      ensures limit >= 1 && InOrder(log) ==> forall c, a :: GivenInMinute(log, answers, c, a) <= 2 * limit - 1
    {
      hide After, Own, Next, Admits, Opens, GivenInMinute, InOrder;
      answers := [];
      var i := 0;
      NoRequests(limit);
      while i < |log|
        invariant 0 <= i <= |log| && |answers| == i
        invariant Tracks(rate, log[..i], limit)
        invariant Answered(answers, log, limit)
      {
        ghost var before := rate;
        var ok := AllowRate(log[i].client, log[i].time);
        TracksSnoc(before, rate, log, i, limit);
        answers := answers + [ok];
        i := i + 1;
      }
      if limit >= 1 && InOrder(log) {
        forall c, a ensures GivenInMinute(log, answers, c, a) <= 2 * limit - 1 {
          EveryClientCap(log, answers, limit, c, a);
        }
      }
    }
  }

  /** The table holds, for each client, what its own requests alone would have left. */
  ghost predicate Tracks(rate: map<string, Entry>, log: seq<Request>, limit: int) {
    forall c :: Lookup(rate, c) == After(Own(log, c), limit)
  }

  /** Each answer is the one the client's own earlier requests lead to. */
  ghost predicate Answered(answers: seq<bool>, log: seq<Request>, limit: int)
    requires |answers| <= |log|
  {
    forall i :: 0 <= i < |answers| ==>
      answers[i] == Admits(After(Own(log[..i], log[i].client), limit), log[i].time, limit)
  }

  lemma {:induction false} NoRequests(limit: int)
    ensures Tracks(map[], [], limit)
  {
  }

  lemma {:induction false} TracksSnoc(before: map<string, Entry>, rate: map<string, Entry>, log: seq<Request>,
                                      i: nat, limit: int)
    requires i < |log| && Tracks(before, log[..i], limit)
    requires Lookup(rate, log[i].client) == Next(Lookup(before, log[i].client), log[i].time, limit)
    requires forall c :: c != log[i].client ==> Lookup(rate, c) == Lookup(before, c)
    ensures Tracks(rate, log[..i + 1], limit)
  {
    hide After, Own, Next;
    forall c ensures Lookup(rate, c) == After(Own(log[..i + 1], c), limit) {
      OwnSnoc(log, i, c, limit);
    }
  }

  ghost function Lookup(rate: map<string, Entry>, client: string): Option<Entry> {
    if client in rate then Some(rate[client]) else None
  }

  // ---------------------------------------------------------------------------
  // One client at a time
  // ---------------------------------------------------------------------------

  /** The times of a client's own requests. */
  ghost function Own(log: seq<Request>, client: string): seq<int> {
    if log == [] then []
    else
      var r := log[|log| - 1];
      Own(log[..|log| - 1], client) + if r.client == client then [r.time] else []
  }

  /** The client's entry after its own requests alone. */
  ghost function After(times: seq<int>, limit: int): Option<Entry> {
    if times == [] then None else Next(After(times[..|times| - 1], limit), times[|times| - 1], limit)
  }

  lemma {:induction false} OwnSnoc(log: seq<Request>, i: nat, client: string, limit: int)
    requires i < |log|
    ensures After(Own(log[..i + 1], client), limit) ==
            if log[i].client == client then Next(After(Own(log[..i], client), limit), log[i].time, limit)
            else After(Own(log[..i], client), limit)
  {
    assert log[..i + 1][..i] == log[..i];
    var low := Own(log[..i], client);
    if log[i].client == client {
      assert (low + [log[i].time])[..|low|] == low;
    } else {
      assert low + [] == low;
    }
  }

  ghost predicate Sorted(times: seq<int>) {
    forall i, j :: 0 <= i < j < |times| ==> times[i] <= times[j]
  }

  /** How many of the client's requests at times in [a, b] were admitted. */
  ghost function AdmittedIn(times: seq<int>, limit: int, a: int, b: int): nat {
    if times == [] then 0
    else
      var init, t := times[..|times| - 1], times[|times| - 1];
      AdmittedIn(init, limit, a, b) + if a <= t <= b && Admits(After(init, limit), t, limit) then 1 else 0
  }

  /** How many were admitted since the current window opened. */
  ghost function AdmittedInWindow(times: seq<int>, limit: int): nat {
    if times == [] then 0
    else
      var init, t := times[..|times| - 1], times[|times| - 1];
      var e := After(init, limit);
      if Opens(e, t) then 1
      else AdmittedInWindow(init, limit) + if Admits(e, t, limit) then 1 else 0
  }

  /** The entry counts the admissions of its window, and they never exceed the cap. */
  lemma {:induction false} WindowCap(times: seq<int>, limit: int)
    requires limit >= 1
    ensures AdmittedInWindow(times, limit) <= limit
    ensures After(times, limit).Some? ==>
              After(times, limit).value.count == AdmittedInWindow(times, limit) >= 1
  {
    if times != [] {
      WindowCap(times[..|times| - 1], limit);
    }
  }

  /** What is known about an interval of one window length, from where the current window opened. */
  ghost predicate Budget(times: seq<int>, limit: int, a: int) {
    var k, e := AdmittedIn(times, limit, a, a + WINDOW), After(times, limit);
    if times == [] then k == 0
    else
      && e.Some? && 1 <= e.value.count <= limit
      && (times[|times| - 1] < a ==> k == 0)
      && var start := e.value.reset - WINDOW;
         && start <= times[|times| - 1]
         && if start < a then k <= e.value.count - 1
            else if start <= a + WINDOW then k <= limit - 1 + e.value.count
            else k <= 2 * limit - 1
  }

  lemma {:induction false} BudgetKept(times: seq<int>, limit: int, a: int)
    requires limit >= 1 && Sorted(times)
    ensures Budget(times, limit, a)
  {
    if times != [] {
      var init := times[..|times| - 1];
      BudgetKept(init, limit, a);
      if init != [] {
        assert init[|init| - 1] <= times[|times| - 1];
      }
    }
  }

  /**
    In any closed interval of one minute a client is admitted at most twice the cap
    less one: an interval that meets two windows misses the request that opened the first.
   */
  lemma {:induction false} MinuteCap(times: seq<int>, limit: int, a: int)
    requires limit >= 1 && Sorted(times)
    ensures AdmittedIn(times, limit, a, a + WINDOW) <= 2 * limit - 1
  {
    BudgetKept(times, limit, a);
  }

  ghost predicate InOrder(log: seq<Request>) {
    forall i, j :: 0 <= i < j < |log| ==> log[i].time <= log[j].time
  }

  /** How many requests of the client at times in [a, b] were answered yes. */
  ghost function GivenIn(log: seq<Request>, answers: seq<bool>, client: string, a: int, b: int): nat
    requires |answers| == |log|
  {
    if log == [] then 0
    else
      var n := |log| - 1;
      GivenIn(log[..n], answers[..n], client, a, b) +
      if log[n].client == client && a <= log[n].time <= b && answers[n] then 1 else 0
  }

  /** The yes answers in the closed minute from `a` on. */
  ghost function GivenInMinute(log: seq<Request>, answers: seq<bool>, client: string, a: int): nat
    requires |answers| == |log|
  {
    GivenIn(log, answers, client, a, a + WINDOW)
  }

  lemma {:induction false} GivenAreAdmitted(log: seq<Request>, answers: seq<bool>, limit: int, client: string,
                                            a: int, b: int)
    requires |answers| == |log| && Answered(answers, log, limit)
    ensures GivenIn(log, answers, client, a, b) == AdmittedIn(Own(log, client), limit, a, b)
  {
    if log != [] {
      hide After, Admits;
      var n := |log| - 1;
      var init := log[..n];
      assert Answered(answers[..n], init, limit) by {
        assert forall i :: 0 <= i < n ==> log[..i] == init[..i];
      }
      GivenAreAdmitted(init, answers[..n], limit, client, a, b);
      var low := Own(init, client);
      if log[n].client == client {
        assert (low + [log[n].time])[..|low|] == low;
      } else {
        assert low + [] == low;
      }
    }
  }

  /**
    The same for a log of all clients and the answers given to it: in any closed minute a
    client is told yes at most twice the cap less one times, whatever the others do.
   */
  lemma {:induction false} EveryClientCap(log: seq<Request>, answers: seq<bool>, limit: int, client: string, a: int)
    requires limit >= 1 && InOrder(log) && |answers| == |log| && Answered(answers, log, limit)
    ensures GivenInMinute(log, answers, client, a) <= 2 * limit - 1
  {
    hide Answered, Own, AdmittedIn;
    OwnSorted(log, client);
    MinuteCap(Own(log, client), limit, a);
    GivenAreAdmitted(log, answers, limit, client, a, a + WINDOW);
  }

  lemma {:induction false} SortedSnoc(times: seq<int>, t: int)
    requires times != [] && Sorted(times) && times[|times| - 1] <= t
    ensures Sorted(times + [t])
  {
    var longer := times + [t];
    forall i, j | 0 <= i < j < |longer| ensures longer[i] <= longer[j] {
      assert i < |times| - 1 ==> times[i] <= times[|times| - 1];
    }
  }

  lemma {:induction false} OwnSorted(log: seq<Request>, client: string)
    requires InOrder(log)
    ensures Sorted(Own(log, client))
    ensures Own(log, client) != [] ==> log != [] && Own(log, client)[|Own(log, client)| - 1] <= log[|log| - 1].time
  {
    if log != [] {
      var init, t := log[..|log| - 1], log[|log| - 1].time;
      OwnSorted(init, client);
      if init != [] {
        assert init[|init| - 1].time <= t;
      }
      if Own(init, client) != [] {
        SortedSnoc(Own(init, client), t);
      }
    }
  }

  ghost function Copies(t: int, n: nat): seq<int> {
    seq(n, _ => t)
  }

  lemma {:induction false} FillOne(times: seq<int>, limit: int, a: int, t: int)
    requires After(times, limit).Some? && t <= After(times, limit).value.reset && a <= t <= a + WINDOW
    requires After(times, limit).value.count + 1 <= limit
    ensures After(times + [t], limit) == Some(After(times, limit).value.(count := After(times, limit).value.count + 1))
    ensures AdmittedIn(times + [t], limit, a, a + WINDOW) == AdmittedIn(times, limit, a, a + WINDOW) + 1
  {
    assert (times + [t])[..|times|] == times;
  }

  /** Requests at one time fill the rest of an open window, all of them admitted. */
  lemma {:induction false} Fill(times: seq<int>, limit: int, a: int, t: int, n: nat)
    requires After(times, limit).Some? && t <= After(times, limit).value.reset && a <= t <= a + WINDOW
    requires After(times, limit).value.count + n <= limit
    ensures var e := After(times, limit).value;
            After(times + Copies(t, n), limit) == Some(e.(count := e.count + n))
    ensures AdmittedIn(times + Copies(t, n), limit, a, a + WINDOW) == AdmittedIn(times, limit, a, a + WINDOW) + n
    decreases n
  {
    hide After, AdmittedIn;
    if n == 0 {
      assert times + Copies(t, 0) == times;
    } else {
      Fill(times, limit, a, t, n - 1);
      FillOne(times + Copies(t, n - 1), limit, a, t);
      assert times + Copies(t, n) == times + Copies(t, n - 1) + [t];
    }
  }

  /** One request before the interval, the rest of its window at the start of it, a full window after. */
  ghost function Burst(limit: int): seq<int>
    requires limit >= 1
  {
    [0] + Copies(WINDOW, limit - 1) + [WINDOW + 1] + Copies(WINDOW + 1, limit - 1)
  }

  /** The bound is met for every cap. */
  lemma {:induction false} MinuteCapIsTight(limit: int)
    requires limit >= 1
    ensures Sorted(Burst(limit)) && AdmittedIn(Burst(limit), limit, WINDOW, WINDOW + WINDOW) == 2 * limit - 1
  {
    var n := limit - 1;
    BurstSorted(limit);
    OpensFresh(limit);
    hide After, AdmittedIn, Burst, Sorted;
    Fill([0], limit, WINDOW, WINDOW, n);
    var first := [0] + Copies(WINDOW, n);
    OpensAgain(first, limit, WINDOW);
    Fill(first + [WINDOW + 1], limit, WINDOW, WINDOW + 1, n);
    BurstIs(limit);
  }

  lemma {:induction false} BurstIs(limit: int)
    requires limit >= 1
    ensures Burst(limit) == [0] + Copies(WINDOW, limit - 1) + [WINDOW + 1] + Copies(WINDOW + 1, limit - 1)
  {
  }

  lemma {:induction false} BurstSorted(limit: int)
    requires limit >= 1
    ensures Sorted(Burst(limit))
  {
  }

  lemma {:induction false} OpensFresh(limit: int)
    ensures After([0], limit) == Some(Entry(1, WINDOW)) && AdmittedIn([0], limit, WINDOW, WINDOW + WINDOW) == 0
  {
    assert [0][..0] == [];
  }

  lemma {:induction false} OpensAgain(times: seq<int>, limit: int, a: int)
    requires After(times, limit).Some? && After(times, limit).value.reset == WINDOW == a
    ensures After(times + [WINDOW + 1], limit) == Some(Entry(1, WINDOW + 1 + WINDOW))
    ensures AdmittedIn(times + [WINDOW + 1], limit, a, a + WINDOW) == AdmittedIn(times, limit, a, a + WINDOW) + 1
  {
    assert (times + [WINDOW + 1])[..|times|] == times;
  }
}
