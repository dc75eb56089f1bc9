/**
  Replaying responses by Idempotency-Key: the wrapper in backend/internal/api/api.go
  and its table in backend/internal/store/idempotency.go.

  Requests interleave as three steps: look the key up, run the handler, store the
  response.  A step number serves as the clock.
 */
module Idempotency {
  import opened Wrappers

  datatype Record = Record(status: int, body: string)

  type Key = string

  type Table = map<Key, Record>

  type RequestId = nat

  /** Where a request stands, with the times of its lookup and of its end. */
  datatype Stage =
    | Running(lookup: nat)
    | Answered(lookup: nat, answer: Record)
    | Done(lookup: nat, end: nat, executed: bool, reply: Record)

  datatype Request = Request(key: Key, stage: Stage)

  datatype State = State(table: Table, requests: map<RequestId, Request>, clock: nat)

  datatype Action =
    | Lookup(r: RequestId, key: Key)
    | Execute(r: RequestId, answer: Record)
    | Save(r: RequestId)

  // ---------------------------------------------------------------------------
  // The table
  // ---------------------------------------------------------------------------

  /** An empty body is stored as an empty JSON object. */
  ghost function Stored(rec: Record): Record {
    if rec.body == "" then rec.(body := "{}") else rec
  }

  /** Insert wins: an existing record stays. */
  ghost function Put(t: Table, key: Key, rec: Record): Table {
    if key in t then t else t[key := Stored(rec)]
  }

  class Store {
    var table: Table

    constructor ()
      ensures table == map[]
    {
      table := map[];
    }

    method GetIdempotency(key: Key) returns (rec: Record, ok: bool)
      ensures ok <==> key in table
      ensures ok ==> rec == table[key]
    {
      if key in table {
        return table[key], true;
      }
      return Record(0, ""), false;
    }

    method PutIdempotency(key: Key, status: int, response: string)
      modifies this
      ensures key in old(table) ==> table == old(table)
      ensures key !in old(table) ==>
                table == old(table)[key := Record(status, if response == "" then "{}" else response)]
      ensures table == Put(old(table), key, Record(status, response))
    {
      var body := response;
      if body == "" {
        body := "{}";
      }
      if key !in table {
        table := table[key := Record(status, body)];
      }
    }

    /** A request alone: a known key replays, a new one runs the handler and is stored. */
    method Handle(key: Key, answer: Record) returns (reply: Record, executed: bool)
      modifies this
      ensures executed <==> key !in old(table)
      ensures executed ==>
                && reply == answer
                && table == old(table)[key := Record(answer.status, if answer.body == "" then "{}" else answer.body)]
      ensures !executed ==> reply == old(table)[key] && table == old(table)
      ensures var s := Step(Step(Step(State(old(table), map[], 0), Lookup(0, key)), Execute(0, answer)), Save(0));
              && table == s.table && 0 in s.requests
              && s.requests[0].stage.Done? && s.requests[0].stage.executed == executed
              && s.requests[0].stage.reply == reply
    {
      var rec, ok := GetIdempotency(key);
      if ok {
        return rec, false;
      }
      PutIdempotency(key, answer.status, answer.body);
      return answer, true;
    }

    /**
      The wrapper: a request without a key, or with a method that changes nothing, goes
      straight to the handler; any other is handled under its method, route and key.
     */
    method Idempotent(verb: string, pattern: string, key: string, answer: Record)
      returns (reply: Record, executed: bool)
      modifies this
      ensures key == "" || verb !in {"POST", "PUT", "PATCH", "DELETE"} ==>
                executed && reply == answer && table == old(table)
      ensures key != "" && verb in {"POST", "PUT", "PATCH", "DELETE"} ==>
                var scoped := verb + " " + pattern + " " + key;
                && scoped == Scoped(verb, pattern, key)
                && (scoped in old(table) ==>
                      !executed && reply == old(table)[scoped] && table == old(table))
                && (scoped !in old(table) ==>
                      && executed && reply == answer
                      && table == old(table)[scoped := Record(answer.status,
                                                              if answer.body == "" then "{}" else answer.body)])
    {
      if key == "" || (verb != "POST" && verb != "PUT" && verb != "PATCH" && verb != "DELETE") {
        return answer, true;
      }
      reply, executed := Handle(verb + " " + pattern + " " + key, answer);
    }
  }

  // ---------------------------------------------------------------------------
  // Steps
  // ---------------------------------------------------------------------------

  ghost function Step(s: State, a: Action): State {
    var now := s.clock + 1;
    match a
    case Lookup(r, key) =>
      if r in s.requests then s
      else
        var stage := if key in s.table then Done(now, now, false, s.table[key]) else Running(now);
        s.(requests := s.requests[r := Request(key, stage)], clock := now)
    case Execute(r, answer) =>
      if r !in s.requests || !s.requests[r].stage.Running? then s
      else
        var q := s.requests[r];
        s.(requests := s.requests[r := q.(stage := Answered(q.stage.lookup, answer))], clock := now)
    case Save(r) =>
      if r !in s.requests || !s.requests[r].stage.Answered? then s
      else
        var q := s.requests[r];
        State(Put(s.table, q.key, q.stage.answer),
              s.requests[r := q.(stage := Done(q.stage.lookup, now, true, q.stage.answer))],
              now)
  }

  ghost function Run(schedule: seq<Action>): State {
    if schedule == [] then State(map[], map[], 0)
    else Step(Run(schedule[..|schedule| - 1]), schedule[|schedule| - 1])
  }

  /** The handler has run, or is running, for this request. */
  ghost predicate Ran(q: Request) {
    q.stage.Done? ==> q.stage.executed
  }

  // ---------------------------------------------------------------------------
  // Safety
  // ---------------------------------------------------------------------------

  /** A finished request left its key in the table; a replay returned the stored record. */
  ghost predicate Settled(s: State, q: Request) {
    q.stage.Done? ==>
      && q.stage.end <= s.clock && q.stage.lookup <= q.stage.end
      && q.key in s.table
      && (!q.stage.executed ==> q.stage.reply == s.table[q.key])
  }

  /** A run of a key was looked up before any other request of that key had finished. */
  ghost predicate Overlap(s: State, r1: RequestId, r2: RequestId) {
    r1 in s.requests && r2 in s.requests && s.requests[r1].key == s.requests[r2].key &&
    Ran(s.requests[r2]) && s.requests[r1].stage.Done? ==>
      s.requests[r2].stage.lookup < s.requests[r1].stage.end
  }

  /** Every stored record came from a finished request that really ran. */
  ghost predicate FromRun(s: State, key: Key) {
    exists r :: r in s.requests && s.requests[r].key == key && s.requests[r].stage.Done? &&
                s.requests[r].stage.executed && key in s.table && s.table[key] == Stored(s.requests[r].stage.reply)
  }

  ghost predicate Sound(s: State) {
    && (forall r :: r in s.requests ==> Settled(s, s.requests[r]) && s.requests[r].stage.lookup <= s.clock)
    && (forall r1, r2 :: Overlap(s, r1, r2))
    && (forall key :: key in s.table ==> FromRun(s, key))
  }

  lemma {:induction false} FromRunStays(s: State, a: Action, key: Key)
    requires key in s.table && FromRun(s, key)
    ensures FromRun(Step(s, a), key)
  {
    var r :| r in s.requests && s.requests[r].key == key && s.requests[r].stage.Done? &&
             s.requests[r].stage.executed && s.table[key] == Stored(s.requests[r].stage.reply);
    assert Step(s, a).requests[r] == s.requests[r];
  }

  lemma {:induction false} SaveStores(s: State, r: RequestId)
    requires r in s.requests && s.requests[r].stage.Answered? && s.requests[r].key !in s.table
    ensures FromRun(Step(s, Save(r)), s.requests[r].key)
  {
    assert Step(s, Save(r)).requests[r].stage.Done?;
  }

  lemma {:induction false} OverlapKept(s: State, a: Action, r1: RequestId, r2: RequestId)
    requires Sound(s)
    ensures Overlap(Step(s, a), r1, r2)
  {
    var s' := Step(s, a);
    assert Overlap(s, r1, r2);
    if r1 in s.requests {
      assert Settled(s, s.requests[r1]);
    }
  }

  lemma {:induction false} StepKeeps(s: State, a: Action)
    requires Sound(s)
    ensures Sound(Step(s, a))
  {
    hide Overlap, FromRun;
    var s' := Step(s, a);
    forall r1, r2 ensures Overlap(s', r1, r2) {
      OverlapKept(s, a, r1, r2);
    }
    forall key | key in s'.table ensures FromRun(s', key) {
      if key in s.table {
        FromRunStays(s, a, key);
      } else {
        SaveStores(s, a.r);
      }
    }
  }

  /**
    In every interleaving: each replay returned what is stored under its key, requests of
    one key that ran the handler all overlap, and each stored record is the response of a
    request that ran.
   */
  lemma {:induction false} EveryRun(schedule: seq<Action>)
    ensures Sound(Run(schedule))
  {
    hide Step;
    if schedule != [] {
      EveryRun(schedule[..|schedule| - 1]);
      StepKeeps(Run(schedule[..|schedule| - 1]), schedule[|schedule| - 1]);
    }
  }

  /** A stored response never changes, however the run goes on. */
  lemma {:induction false} StoredForever(schedule: seq<Action>, n: nat, key: Key)
    requires n <= |schedule| && key in Run(schedule[..n]).table
    ensures key in Run(schedule).table && Run(schedule).table[key] == Run(schedule[..n]).table[key]
    decreases |schedule| - n
  {
    if n == |schedule| {
      assert schedule[..n] == schedule;
    } else {
      assert schedule[..n + 1][..n] == schedule[..n];
      StepStores(Run(schedule[..n]), schedule[n], key);
      hide Step;
      StoredForever(schedule, n + 1, key);
    }
  }

  lemma {:induction false} StepStores(s: State, a: Action, key: Key)
    requires key in s.table
    ensures key in Step(s, a).table && Step(s, a).table[key] == s.table[key]
  {
  }

  /** A request looked up after another of its key has finished replays it and does not run. */
  lemma {:induction false} LaterRequestReplays(schedule: seq<Action>, r1: RequestId, r2: RequestId)
    requires var s := Run(schedule);
             && r1 in s.requests && r2 in s.requests && s.requests[r1].key == s.requests[r2].key
             && s.requests[r1].stage.Done? && s.requests[r2].stage.lookup >= s.requests[r1].stage.end
    ensures var s := Run(schedule); var q := s.requests[r2];
            && q.stage.Done? && !q.stage.executed
            && q.key in s.table && q.stage.reply == s.table[q.key]
  {
    EveryRun(schedule);
    var s := Run(schedule);
    assert Overlap(s, r1, r2);
    assert Settled(s, s.requests[r2]);
  }

  // ---------------------------------------------------------------------------
  // Keys
  // ---------------------------------------------------------------------------

  ghost function Scoped(verb: string, pattern: string, key: string): Key {
    verb + " " + pattern + " " + key
  }

  ghost predicate Mutating(m: string) {
    m == "POST" || m == "PUT" || m == "PATCH" || m == "DELETE"
  }

  /** No pattern continues another one after a space. */
  ghost predicate Unambiguous(patterns: set<string>) {
    forall p, q :: p in patterns && q in patterns ==> !(p + " " <= q)
  }

  /** The wrapper stores a record for it: a mutating method, a registered route, a key. */
  ghost predicate Kept(patterns: set<string>, verb: string, pattern: string, key: string) {
    Mutating(verb) && pattern in patterns && key != ""
  }

  ghost predicate Injective(patterns: set<string>) {
    forall m, n, p, q, k, l ::
      (Kept(patterns, m, p, k) && Kept(patterns, n, q, l) && Scoped(m, p, k) == Scoped(n, q, l)) ==>
        m == n && p == q && k == l
  }

  lemma {:induction false} SplitAtFirstSpace(a: string, x: string, b: string, y: string)
    requires ' ' !in a && ' ' !in b && a + " " + x == b + " " + y
    ensures a == b && x == y
  {
    var s := a + " " + x;
    assert s[|a|] == ' ' && s[|b|] == ' ';
    assert a == s[..|a|] && b == s[..|b|];
    assert x == s[|a| + 1..] && y == s[|b| + 1..];
  }

  lemma {:induction false} SameOrLonger(p: string, k: string, q: string, l: string)
    requires p + " " + k == q + " " + l && |p| <= |q|
    ensures p + " " <= q || (p == q && k == l)
  {
    var s := p + " " + k;
    assert p == s[..|p|] && q == s[..|q|];
    if |p| == |q| {
      assert k == s[|p| + 1..] && l == s[|q| + 1..];
    } else {
      assert p + " " == s[..|p| + 1] && s[..|p| + 1] <= s[..|q|];
    }
  }

  /**
    Different triples of method, route and non-empty key never share a record exactly when
    no route pattern continues another one after a space.
   */
  lemma {:induction false} ScopedKeysDistinct(patterns: set<string>)
    ensures Injective(patterns) <==> Unambiguous(patterns)
  {
    if Unambiguous(patterns) {
      forall m, n, p, q, k, l
        | Kept(patterns, m, p, k) && Kept(patterns, n, q, l) && Scoped(m, p, k) == Scoped(n, q, l)
        ensures m == n && p == q && k == l
      {
        hide Scoped;
        SameScope(m, p, k, n, q, l);
      }
    }
    forall p, q | p in patterns && q in patterns && p + " " <= q ensures !Injective(patterns) {
      Collision(p, q);
    }
  }

  lemma {:induction false} SameScope(m: string, p: string, k: string, n: string, q: string, l: string)
    requires Mutating(m) && Mutating(n) && Scoped(m, p, k) == Scoped(n, q, l)
    ensures p + " " <= q || q + " " <= p || (m == n && p == q && k == l)
  {
    assert m + " " + p + " " + k == m + " " + (p + " " + k);
    assert n + " " + q + " " + l == n + " " + (q + " " + l);
    SplitAtFirstSpace(m, p + " " + k, n, q + " " + l);
    if |p| <= |q| {
      SameOrLonger(p, k, q, l);
    } else {
      SameOrLonger(q, l, p, k);
    }
  }

  lemma {:induction false} Collision(p: string, q: string)
    requires p + " " <= q
    ensures Mutating("POST") && Scoped("POST", p, q[|p| + 1..] + " x") == Scoped("POST", q, "x") && p != q
  {
    assert p + " " + q[|p| + 1..] == q;
    assert " x" == " " + "x";
    assert "POST" + " " + q + " " + "x" == "POST" + " " + (p + " " + q[|p| + 1..]) + (" " + "x");
  }

  /** Patterns of the form "METHOD path", with no other space, are never ambiguous. */
  lemma {:induction false} RoutePatternsUnambiguous(patterns: set<string>)
    requires forall p :: p in patterns ==> exists m, path :: ' ' !in m && ' ' !in path && p == m + " " + path
    ensures Unambiguous(patterns)
  {
    forall p, q | p in patterns && q in patterns && p + " " <= q ensures false {
      var m, path :| ' ' !in m && ' ' !in path && p == m + " " + path;
      var n, path' :| ' ' !in n && ' ' !in path' && q == n + " " + path';
      var rest := q[|p| + 1..];
      assert q == m + " " + (path + " " + rest);
      assert (path + " " + rest)[|path|] == ' ';
      SplitAtFirstSpace(m, path + " " + rest, n, path');
    }
  }

  // ---------------------------------------------------------------------------
  // Requests as they arrive
  // ---------------------------------------------------------------------------

  datatype Segment = Literal(text: string) | Wildcard

  /** A registered route; `pattern` is the text it was registered with. */
  datatype Route = Route(pattern: string, verb: string, segments: seq<Segment>)

  type Path = seq<string>

  datatype Call = Call(verb: string, path: Path, caller: string, key: string)

  predicate Fits(segments: seq<Segment>, path: Path) {
    |segments| == |path| && forall i :: 0 <= i < |path| ==> segments[i].Wildcard? || segments[i].text == path[i]
  }

  /** The request multiplexer. */
  type Mux = (string, Path) -> Option<Route>

  /** It answers with registered routes that fit, and no two of them share a pattern. */
  ghost predicate Dispatches(mux: Mux, routes: set<Route>) {
    && (forall v, p :: mux(v, p).Some? ==>
          mux(v, p).value in routes && mux(v, p).value.verb == v && Fits(mux(v, p).value.segments, p))
    && (forall a, b :: a in routes && b in routes && a.pattern == b.pattern ==> a == b)
  }

  ghost function Patterns(routes: set<Route>): set<string> {
    set a | a in routes :: a.pattern
  }

  /** A request the wrapper stores a record for. */
  ghost predicate Recorded(mux: Mux, c: Call) {
    Mutating(c.verb) && c.key != "" && mux(c.verb, c.path).Some?
  }

  ghost function RecordKey(mux: Mux, c: Call): Key
    requires mux(c.verb, c.path).Some?
  {
    Scoped(c.verb, mux(c.verb, c.path).value.pattern, c.key)
  }

  /**
    Two requests share a record exactly when they have the same method and key and reach the
    same route: neither the caller nor the values in the path play a part.
   */
  lemma {:induction false} SharedRecord(mux: Mux, routes: set<Route>, c: Call, d: Call)
    requires Dispatches(mux, routes) && Unambiguous(Patterns(routes)) && Recorded(mux, c) && Recorded(mux, d)
    ensures RecordKey(mux, c) == RecordKey(mux, d) <==>
            c.verb == d.verb && c.key == d.key && mux(c.verb, c.path) == mux(d.verb, d.path)
  {
    hide Scoped;
    var a, b := mux(c.verb, c.path).value, mux(d.verb, d.path).value;
    if RecordKey(mux, c) == RecordKey(mux, d) {
      SameScope(c.verb, a.pattern, c.key, d.verb, b.pattern, d.key);
      assert a.pattern in Patterns(routes) && b.pattern in Patterns(routes);
    }
  }

  predicate NoWildcard(segments: seq<Segment>) {
    forall i :: 0 <= i < |segments| ==> segments[i].Literal?
  }

  /** A path that fits, with the given text for every wildcard. */
  function Filled(segments: seq<Segment>, value: string): Path {
    seq(|segments|, i requires 0 <= i < |segments| =>
      if segments[i].Wildcard? then value else segments[i].text)
  }

  /** Requests that share a record of the route go to the same path. */
  ghost predicate PathsApart(mux: Mux, route: Route) {
    forall c, d ::
      (&& Recorded(mux, c) && mux(c.verb, c.path) == Some(route)
       && Recorded(mux, d) && mux(d.verb, d.path) == Some(route)
       && RecordKey(mux, c) == RecordKey(mux, d)) ==> c.path == d.path
  }

  /**
    So one key never replays across the paths of a mutating route exactly when the route has
    no wildcard; it always replays across callers.
   */
  lemma {:induction false} KeyPerPath(mux: Mux, routes: set<Route>, route: Route)
    requires Dispatches(mux, routes) && Unambiguous(Patterns(routes)) && Mutating(route.verb)
    requires forall p :: Fits(route.segments, p) ==> mux(route.verb, p) == Some(route)
    ensures PathsApart(mux, route) <==> NoWildcard(route.segments)
    ensures forall c, caller :: Recorded(mux, c) ==> RecordKey(mux, c) == RecordKey(mux, c.(caller := caller))
  {
    if NoWildcard(route.segments) {
      forall c, d
        | && Recorded(mux, c) && mux(c.verb, c.path) == Some(route)
          && Recorded(mux, d) && mux(d.verb, d.path) == Some(route)
        ensures c.path == d.path
      {
        assert Fits(route.segments, c.path) && Fits(route.segments, d.path);
      }
    } else {
      var i :| 0 <= i < |route.segments| && route.segments[i].Wildcard?;
      var p, q := Filled(route.segments, "a"), Filled(route.segments, "b");
      assert Fits(route.segments, p) && Fits(route.segments, q);
      var c, d := Call(route.verb, p, "", "k"), Call(route.verb, q, "", "k");
      SharedRecord(mux, routes, c, d);
      assert p[i] != q[i];
    }
  }
}
