/**
  Boot ordering of compose services (backend/internal/compose/compose.go).

  The reference notions are graph ones and know nothing of the traversal: a walk
  follows `depends_on`, a cycle is a closed walk, an order is a boot order when
  every service stands after all its dependencies.  The three-colour search is the
  class TopoSorter, which updates `visited` and `out` the way the original does.
 */
module Compose {
  import opened Sequences
  import Strings
  import opened Wrappers

  datatype Port = Port(container: int, host: int, protocol: string)

  datatype Healthcheck = Healthcheck(kind: string, intervalSec: int)

  datatype Service = Service(
    name: string,
    image: string,
    restart: string,
    ports: seq<Port>,
    env: map<string, string>,
    replicas: int,
    dependsOn: seq<string>,
    networks: seq<string>,
    healthcheck: Option<Healthcheck>)

  type Services = map<string, Service>

  datatype Error =
    | Circular(path: seq<string>, name: string)
    | UnknownDependency(from: string, name: string)
    | NoServices
    | MissingImage(service: string)
    | ExpectedServiceName
    | EmptyServiceName
    | OutsideService
    | InvalidPort(item: string)
    | InvalidEnvironment(item: string)
    | InvalidReplicas
    | BuildUnsupported(service: string)

  // ---------------------------------------------------------------------------
  // The dependency graph
  // ---------------------------------------------------------------------------

  ghost predicate Edge(services: Services, a: string, b: string) {
    a in services && b in services[a].dependsOn
  }

  ghost predicate Walk(services: Services, p: seq<string>) {
    forall i :: 0 <= i < |p| - 1 ==> Edge(services, p[i], p[i + 1])
  }

  ghost predicate Cycle(services: Services, p: seq<string>) {
    |p| >= 2 && p[0] == p[|p| - 1] && Walk(services, p)
  }

  ghost predicate Acyclic(services: Services) {
    forall p :: !Cycle(services, p)
  }

  /** Every dependency names a declared service. */
  ghost predicate Closed(services: Services) {
    forall a, b :: Edge(services, a, b) ==> b in services
  }

  /** The map is keyed by service name, as the parser builds it. */
  ghost predicate Keyed(services: Services) {
    forall n :: n in services ==> services[n].name == n
  }

  // ---------------------------------------------------------------------------
  // Boot orders
  // ---------------------------------------------------------------------------

  ghost predicate Listed(out: seq<Service>, n: string, end: nat)
    requires end <= |out|
  {
    exists j :: 0 <= j < end && out[j].name == n
  }

  ghost predicate DependenciesFirst(out: seq<Service>) {
    forall i, d :: 0 <= i < |out| && d in out[i].dependsOn ==> Listed(out, d, i)
  }

  ghost predicate Once(out: seq<Service>) {
    forall i, j :: 0 <= i < j < |out| ==> out[i].name != out[j].name
  }

  ghost predicate Drawn(services: Services, out: seq<Service>) {
    forall i :: 0 <= i < |out| ==> out[i].name in services && services[out[i].name] == out[i]
  }

  ghost predicate BootOrder(services: Services, out: seq<Service>) {
    && Drawn(services, out)
    && Once(out)
    && DependenciesFirst(out)
    && forall n :: n in services ==> Listed(out, n, |out|)
  }

  /** Along a walk the position in a boot order strictly falls. */
  lemma {:induction false} WalkDescends(services: Services, out: seq<Service>, p: seq<string>, i: nat) returns (j: nat)
    requires BootOrder(services, out) && Walk(services, p)
    requires |p| >= 1 && i < |out| && out[i].name == p[0]
    ensures j < |out| && out[j].name == p[|p| - 1]
    ensures |p| == 1 ==> j == i
    ensures |p| >= 2 ==> j < i
    decreases |p|
  {
    if |p| == 1 {
      j := i;
    } else {
      assert Edge(services, p[0], p[1]);
      assert Listed(out, p[1], i);
      var k :| 0 <= k < i && out[k].name == p[1];
      assert Walk(services, p[1..]) by {
        forall t | 0 <= t < |p[1..]| - 1 ensures Edge(services, p[1..][t], p[1..][t + 1]) {
          assert Edge(services, p[t + 1], p[t + 2]);
        }
      }
      j := WalkDescends(services, out, p[1..], k);
    }
  }

  /** A boot order exists only for a graph without cycles and without unknown targets. */
  lemma {:induction false} BootOrderImpliesAcyclic(services: Services, out: seq<Service>)
    requires BootOrder(services, out)
    ensures Acyclic(services) && Closed(services)
  {
    forall p | Cycle(services, p) ensures false {
      assert Edge(services, p[0], p[1]);
      assert Listed(out, p[0], |out|);
      var i :| 0 <= i < |out| && out[i].name == p[0];
      var j := WalkDescends(services, out, p, i);
    }
    forall a, b | Edge(services, a, b) ensures b in services {
      assert Listed(out, a, |out|);
      var i :| 0 <= i < |out| && out[i].name == a;
      assert Listed(out, b, i);
    }
  }

  // ---------------------------------------------------------------------------
  // sort.Strings
  // ---------------------------------------------------------------------------

  function Insert(x: string, s: seq<string>): (r: seq<string>)
    ensures multiset(r) == multiset{x} + multiset(s)
  {
    if s == [] || Strings.Leq(x, s[0]) then [x] + s
    else
      assert s == [s[0]] + s[1..];
      [s[0]] + Insert(x, s[1..])
  }

  function SortStrings(s: seq<string>): (r: seq<string>)
    ensures multiset(r) == multiset(s)
  {
    if s == [] then []
    else
      assert s == [s[0]] + s[1..];
      Insert(s[0], SortStrings(s[1..]))
  }

  ghost predicate Ascending(s: seq<string>) {
    forall i, j :: 0 <= i < j < |s| ==> Strings.Leq(s[i], s[j])
  }

  lemma {:induction false} InsertAscending(x: string, s: seq<string>)
    requires Ascending(s)
    ensures Ascending(Insert(x, s))
  {
    var r := Insert(x, s);
    if s == [] || Strings.Leq(x, s[0]) {
      forall j | 1 <= j < |r| ensures Strings.Leq(x, r[j]) {
        assert r[j] == s[j - 1];
        if j > 1 {
          Strings.LeqTransitive(x, s[0], s[j - 1]);
        }
      }
      forall i, j | 1 <= i < j < |r| ensures Strings.Leq(r[i], r[j]) {
        assert r[i] == s[i - 1] && r[j] == s[j - 1];
      }
    } else {
      var rest := Insert(x, s[1..]);
      InsertAscending(x, s[1..]);
      Strings.LeqTotal(x, s[0]);
      forall j | 0 <= j < |rest| ensures Strings.Leq(s[0], rest[j]) {
        assert rest[j] in multiset(rest);
        assert rest[j] == x || rest[j] in multiset(s[1..]);
        if rest[j] != x {
          assert rest[j] in s[1..];
        }
      }
    }
  }

  lemma {:induction false} SortAscending(s: seq<string>)
    ensures Ascending(SortStrings(s))
  {
    if s != [] {
      SortAscending(s[1..]);
      InsertAscending(s[0], SortStrings(s[1..]));
    }
  }

  lemma {:induction false} FirstIsLeast(s: seq<string>, t: seq<string>)
    requires Ascending(s) && Ascending(t) && multiset(s) == multiset(t) && s != []
    ensures t != [] && s[0] == t[0]
  {
    hide Strings.Leq;
    assert s[0] in multiset(t);
    assert t[0] in multiset(s);
    var i :| 0 <= i < |t| && t[i] == s[0];
    var j :| 0 <= j < |s| && s[j] == t[0];
    Strings.LeqTotal(s[0], s[0]);
    assert Strings.Leq(t[0], t[i]) || i == 0;
    assert Strings.Leq(s[0], s[j]) || j == 0;
    if i != 0 && j != 0 {
      Strings.LeqAntisymmetric(s[0], t[0]);
    }
  }

  lemma {:induction false} TailMembers(s: seq<string>)
    requires s != [] && Ascending(s)
    ensures multiset(s[1..]) == multiset(s) - multiset{s[0]} && Ascending(s[1..]) && s == [s[0]] + s[1..]
  {
    hide Strings.Leq;
    assert s == [s[0]] + s[1..];
  }

  lemma {:induction false} AscendingCanonical(s: seq<string>, t: seq<string>)
    requires Ascending(s) && Ascending(t) && multiset(s) == multiset(t)
    ensures s == t
    decreases |s|
  {
    hide Strings.Leq;
    assert |s| == |multiset(s)| == |t|;
    if s != [] {
      FirstIsLeast(s, t);
      TailMembers(s);
      TailMembers(t);
      hide Ascending;
      AscendingCanonical(s[1..], t[1..]);
    }
  }

  /** Sorting forgets how a list was written down. */
  lemma {:induction false} SortCanonical(s: seq<string>, t: seq<string>)
    requires multiset(s) == multiset(t)
    ensures SortStrings(s) == SortStrings(t)
  {
    SortAscending(s);
    SortAscending(t);
    AscendingCanonical(SortStrings(s), SortStrings(t));
  }

  lemma {:induction false} SortKeepsMembers(s: seq<string>, x: string)
    ensures x in SortStrings(s) <==> x in s
  {
    assert x in SortStrings(s) <==> x in multiset(SortStrings(s));
    assert x in s <==> x in multiset(s);
  }

  // ---------------------------------------------------------------------------
  // The search
  // ---------------------------------------------------------------------------

  /** What an error report must show: a real cycle, or a real dangling edge. */
  ghost predicate Justified(services: Services, e: Error) {
    match e
    case Circular(path, name) =>
      exists i :: 0 <= i < |path| && path[i] == name && Cycle(services, path[i..] + [name])
    case UnknownDependency(from, name) => Edge(services, from, name) && name !in services
    case _ => false
  }

  function Names(out: seq<Service>): seq<string> {
    seq(|out|, i requires 0 <= i < |out| => out[i].name)
  }

  /**
    The depth-first order itself: `done` has been listed, `open` is the path, and the
    dependencies of a service come in ascending order.  None where the search gives up.
   */
  function Order(services: Services, done: seq<string>, open: set<string>, names: seq<string>): (r: Option<seq<string>>)
    ensures r.Some? ==> done <= r.value
    decreases services.Keys - open, |names|
  {
    if names == [] then Some(done)
    else
      var n := names[0];
      if n in done then Order(services, done, open, names[1..])
      else if n in open || n !in services then None
      else
        var inner := Order(services, done, open + {n}, SortStrings(services[n].dependsOn));
        if inner.None? then None else Order(services, inner.value + [n], open, names[1..])
  }

  lemma {:induction false} OrderSplit(services: Services, done: seq<string>, open: set<string>, a: seq<string>,
                                      b: seq<string>)
    ensures Order(services, done, open, a + b) ==
            match Order(services, done, open, a)
            case None => None
            case Some(d) => Order(services, d, open, b)
    decreases |a|
  {
    if a == [] {
      assert a + b == b;
    } else {
      assert (a + b)[0] == a[0] && (a + b)[1..] == a[1..] + b;
      var n := a[0];
      if n in done {
        OrderSplit(services, done, open, a[1..], b);
      } else if n !in open && n in services {
        var inner := Order(services, done, open + {n}, SortStrings(services[n].dependsOn));
        if inner.Some? {
          OrderSplit(services, inner.value + [n], open, a[1..], b);
        }
      }
    }
  }

  lemma {:induction false} OrderOne(services: Services, done: seq<string>, open: set<string>, n: string)
    ensures n in done ==> Order(services, done, open, [n]) == Some(done)
    ensures n !in done && n !in open && n in services ==>
              Order(services, done, open, [n]) ==
              match Order(services, done, open + {n}, SortStrings(services[n].dependsOn))
              case None => None
              case Some(d) => Some(d + [n])
  {
    assert [n][1..] == [];
  }

  // ---------------------------------------------------------------------------
  // What the depth-first order means
  // ---------------------------------------------------------------------------

  ghost predicate Reaches(services: Services, from: seq<string>, x: string) {
    exists p :: Walk(services, p) && |p| > 0 && p[0] in from && p[|p| - 1] == x
  }

  /** For every k, what the first k names need comes before all the rest. */
  ghost predicate Fronted(services: Services, names: seq<string>, out: seq<string>) {
    forall k, i, j :: 0 <= k <= |names| && 0 <= i < j < |out| && Reaches(services, names[..k], out[j]) ==>
      Reaches(services, names[..k], out[i])
  }

  /** Nothing in the list needs anything outside of it. */
  ghost predicate SelfContained(services: Services, out: seq<string>) {
    forall a, b :: a in out && Edge(services, a, b) ==> b in out
  }

  lemma {:induction false} ReachesSelf(services: Services, from: seq<string>, x: string)
    requires x in from
    ensures Reaches(services, from, x)
  {
    assert Walk(services, [x]);
  }

  lemma {:induction false} ReachesThrough(services: Services, n: string, from: seq<string>, x: string)
    requires n in services && Reaches(services, services[n].dependsOn, x) && n in from
    ensures Reaches(services, from, x)
  {
    var p :| Walk(services, p) && |p| > 0 && p[0] in services[n].dependsOn && p[|p| - 1] == x;
    var q := [n] + p;
    forall i | 0 <= i < |q| - 1 ensures Edge(services, q[i], q[i + 1]) {
      if i > 0 {
        assert Edge(services, p[i - 1], p[i]);
      }
    }
    assert Walk(services, q);
  }

  lemma {:induction false} ReachesMore(services: Services, from: seq<string>, more: seq<string>, x: string)
    requires Reaches(services, from, x) && forall n :: n in from ==> n in more
    ensures Reaches(services, more, x)
  {
    var p :| Walk(services, p) && |p| > 0 && p[0] in from && p[|p| - 1] == x;
    assert p[0] in more;
  }

  lemma {:induction false} WalkStays(services: Services, out: seq<string>, p: seq<string>)
    requires SelfContained(services, out) && Walk(services, p) && |p| > 0 && p[0] in out
    ensures p[|p| - 1] in out
    decreases |p|
  {
    if |p| > 1 {
      assert Edge(services, p[0], p[1]);
      forall t | 0 <= t < |p[1..]| - 1 ensures Edge(services, p[1..][t], p[1..][t + 1]) {
        assert Edge(services, p[t + 1], p[t + 2]);
      }
      WalkStays(services, out, p[1..]);
    }
  }

  /** The search goes from `done` to `r` and adds what its names reach, and nothing else. */
  ghost predicate AddsReached(services: Services, done: seq<string>, names: seq<string>, r: seq<string>) {
    && done <= r && SelfContained(services, r) && (forall n :: n in names ==> n in r)
    && forall x :: x in r[|done|..] ==> Reaches(services, names, x)
  }

  lemma {:induction false} OrderAdds(services: Services, done: seq<string>, open: set<string>, names: seq<string>)
    requires SelfContained(services, done) && Order(services, done, open, names).Some?
    ensures AddsReached(services, done, names, Order(services, done, open, names).value)
    decreases services.Keys - open, |names|
  {
    if names != [] {
      var n, rest := names[0], names[1..];
      var r := Order(services, done, open, names).value;
      if n in done {
        OrderAdds(services, done, open, rest);
        AddsListed(services, done, n, rest, r);
      } else {
        var deps := SortStrings(services[n].dependsOn);
        OrderAdds(services, done, open + {n}, deps);
        var inner := Order(services, done, open + {n}, deps).value;
        OrderEnters(services, done, inner, n);
        OrderAdds(services, inner + [n], open, rest);
        AddsBoth(services, done, inner + [n], n, rest, r);
      }
    }
  }

  lemma {:induction false} AddsListed(services: Services, done: seq<string>, n: string, rest: seq<string>,
                                      r: seq<string>)
    requires n in done && AddsReached(services, done, rest, r)
    ensures AddsReached(services, done, [n] + rest, r)
  {
    hide Reaches, SelfContained;
    var i :| 0 <= i < |done| && done[i] == n;
    assert r[i] == n;
    forall x | x in r[|done|..] ensures Reaches(services, [n] + rest, x) {
      ReachesMore(services, rest, [n] + rest, x);
    }
  }

  lemma {:induction false} AddsBoth(services: Services, done: seq<string>, middle: seq<string>, n: string,
                                    rest: seq<string>, r: seq<string>)
    requires AddsReached(services, done, [n], middle) && AddsReached(services, middle, rest, r)
    ensures AddsReached(services, done, [n] + rest, r)
  {
    hide Reaches, SelfContained;
    assert n in [n] && n in middle;
    var i :| 0 <= i < |middle| && middle[i] == n;
    assert r[i] == n;
    forall x | x in r[|done|..] ensures Reaches(services, [n] + rest, x) {
      assert r[|done|..] == middle[|done|..] + r[|middle|..];
      if x in r[|middle|..] {
        ReachesMore(services, rest, [n] + rest, x);
      } else {
        ReachesMore(services, [n], [n] + rest, x);
      }
    }
  }

  lemma {:induction false} OrderEnters(services: Services, done: seq<string>, inner: seq<string>, n: string)
    requires n in services && AddsReached(services, done, SortStrings(services[n].dependsOn), inner)
    ensures AddsReached(services, done, [n], inner + [n])
  {
    var deps := SortStrings(services[n].dependsOn);
    hide SortStrings, Reaches;
    forall d ensures d in deps <==> d in services[n].dependsOn {
      SortKeepsMembers(services[n].dependsOn, d);
    }
    forall x | x in (inner + [n])[|done|..] ensures Reaches(services, [n], x) {
      if x == n {
        ReachesSelf(services, [n], n);
      } else {
        assert (inner + [n])[|done|..] == inner[|done|..] + [n];
        ReachesMore(services, deps, services[n].dependsOn, x);
        ReachesThrough(services, n, [n], x);
      }
    }
  }

  ghost predicate Distinct(s: seq<string>) {
    forall i, j :: 0 <= i < j < |s| ==> s[i] != s[j]
  }

  /** A list that begins with what the search makes of some names has their needs in front. */
  lemma {:induction false} OrderFronts(services: Services, open: set<string>, names: seq<string>, v: seq<string>,
                                       out: seq<string>)
    requires Order(services, [], open, names) == Some(v) && v <= out && Distinct(out)
    ensures Fronted(services, names, out)
  {
    hide Order, Reaches, SelfContained;
    forall k, i, j | 0 <= k <= |names| && 0 <= i < j < |out| && Reaches(services, names[..k], out[j])
      ensures Reaches(services, names[..k], out[i])
    {
      var few := names[..k];
      assert names == few + names[k..];
      OrderSplit(services, [], open, few, names[k..]);
      var front := Order(services, [], open, few).value;
      NothingNeeded(services);
      OrderAdds(services, [], open, few);
      ReachedIsListed(services, few, front, out[j]);
      var t :| 0 <= t < |front| && front[t] == out[j];
      assert out[t] == front[t] && t == j;
      assert front[0..][i] == out[i];
    }
  }

  lemma {:induction false} NothingNeeded(services: Services)
    ensures SelfContained(services, [])
  {
  }

  lemma {:induction false} ReachedIsListed(services: Services, names: seq<string>, out: seq<string>, x: string)
    requires SelfContained(services, out) && (forall n :: n in names ==> n in out) && Reaches(services, names, x)
    ensures x in out
  {
    var p :| Walk(services, p) && |p| > 0 && p[0] in names && p[|p| - 1] == x;
    WalkStays(services, out, p);
  }

  /**
    The boot order goes by the declaration order, and below the service declared first by the
    ascending order of its dependencies: what the first k of them need fills the front.
   */
  lemma {:induction false} OrderFollowsDeclarations(services: Services, names: seq<string>, out: seq<string>,
                                                    deps: seq<string>)
    requires Order(services, [], {}, names) == Some(out) && Distinct(out)
    requires names != [] && names[0] in services
    requires Ascending(deps) && multiset(deps) == multiset(services[names[0]].dependsOn)
    ensures Fronted(services, names, out) && Fronted(services, deps, out)
  {
    hide Ascending, SortStrings, Distinct, Fronted;
    OrderFronts(services, {}, names, out, out);
    var n := names[0];
    SortAscending(services[n].dependsOn);
    AscendingCanonical(deps, SortStrings(services[n].dependsOn));
    assert {} + {n} == {n};
    var v := Order(services, [], {n}, deps).value;
    assert v <= out;
    OrderFronts(services, {n}, deps, v, out);
  }

  /** Up to the order of their depends_on lists, the two maps declare the same services. */
  ghost predicate SameGraph(s: Services, t: Services) {
    s.Keys == t.Keys && forall n :: n in s ==> multiset(s[n].dependsOn) == multiset(t[n].dependsOn)
  }

  /** The boot order does not depend on how the depends_on lists were written. */
  lemma {:induction false} ListOrderIrrelevant(s: Services, t: Services, done: seq<string>, open: set<string>,
                                               names: seq<string>)
    requires SameGraph(s, t)
    ensures Order(s, done, open, names) == Order(t, done, open, names)
    decreases s.Keys - open, |names|
  {
    hide SortStrings;
    if names != [] {
      var n := names[0];
      if n in done {
        ListOrderIrrelevant(s, t, done, open, names[1..]);
      } else if n !in open && n in s {
        SortCanonical(s[n].dependsOn, t[n].dependsOn);
        var deps := SortStrings(s[n].dependsOn);
        ListOrderIrrelevant(s, t, done, open + {n}, deps);
        var inner := Order(s, done, open + {n}, deps);
        if inner.Some? {
          ListOrderIrrelevant(s, t, inner.value + [n], open, names[1..]);
        }
      }
    }
  }

  /** The output grew from `before` to `after` exactly as the depth-first order says. */
  ghost predicate Continues(services: Services, before: seq<Service>, after: seq<Service>, path: seq<string>,
                            names: seq<string>) {
    Order(services, Names(before), Elements(path), names) == Some(Names(after))
  }

  lemma {:induction false} ContinuesNothing(services: Services, out: seq<Service>, path: seq<string>)
    ensures Continues(services, out, out, path, [])
  {
  }

  lemma {:induction false} ContinuesListed(services: Services, out: seq<Service>, path: seq<string>, n: string)
    requires Listed(out, n, |out|)
    ensures Continues(services, out, out, path, [n])
  {
    var j :| 0 <= j < |out| && out[j].name == n;
    assert Names(out)[j] == n;
    OrderOne(services, Names(out), Elements(path), n);
  }

  lemma {:induction false} ContinuesOneMore(services: Services, first: seq<Service>, before: seq<Service>,
                                            after: seq<Service>,
                                            path: seq<string>, names: seq<string>, i: nat)
    requires i < |names| && Continues(services, first, before, path, names[..i])
    requires Continues(services, before, after, path, [names[i]])
    ensures Continues(services, first, after, path, names[..i + 1])
  {
    hide Order;
    assert names[..i + 1] == names[..i] + [names[i]];
    OrderSplit(services, Names(first), Elements(path), names[..i], [names[i]]);
  }

  lemma {:induction false} ContinuesLeave(services: Services, first: seq<Service>, out: seq<Service>,
                                          path: seq<string>, n: string)
    requires n in services && services[n].name == n && n !in path && !Listed(first, n, |first|)
    requires Continues(services, first, out, path + [n], SortStrings(services[n].dependsOn))
    ensures Continues(services, first, out + [services[n]], path, [n])
  {
    hide Order, SortStrings;
    assert Elements(path + [n]) == Elements(path) + {n};
    assert n !in Names(first);
    OrderOne(services, Names(first), Elements(path), n);
    assert Names(out + [services[n]]) == Names(out) + [n];
  }

  lemma {:induction false} ContinuesWhole(services: Services, out: seq<Service>, names: seq<string>)
    requires Continues(services, [], out, [], names)
    ensures Order(services, [], {}, names) == Some(Names(out))
  {
    assert Names([]) == [] && Elements<string>([]) == {};
  }

  datatype Colour = Visiting | Done

  /** Grey nodes are exactly the current path, black ones exactly the output. */
  ghost predicate Searching(services: Services, visited: map<string, Colour>, out: seq<Service>, path: seq<string>) {
    && Keyed(services)
    && Drawn(services, out) && Once(out) && DependenciesFirst(out)
    && visited.Keys <= services.Keys
    && Walk(services, path)
    && (forall n :: n in path <==> n in visited && visited[n] == Visiting)
    && (forall n :: Listed(out, n, |out|) <==> n in visited && visited[n] == Done)
  }

  /** What the colour of a node says. */
  lemma {:induction false} ColourOf(services: Services, visited: map<string, Colour>, out: seq<Service>,
                                    path: seq<string>, name: string)
    requires Searching(services, visited, out, path)
    ensures visited.Keys <= services.Keys && Walk(services, path) && Keyed(services)
    ensures name in visited && visited[name] == Done <==> Listed(out, name, |out|)
    ensures name in visited && visited[name] == Visiting <==> name in path
  {
  }

  lemma {:induction false} Unknown(services: Services, from: string, name: string)
    requires Edge(services, from, name) && name !in services
    ensures Justified(services, UnknownDependency(from, name))
  {
  }

  /** A white node turns grey when the search enters it. */
  lemma {:induction false} Enter(services: Services, visited: map<string, Colour>, out: seq<Service>,
                                 path: seq<string>, name: string)
    requires Searching(services, visited, out, path)
    requires name in services && name !in visited
    requires path == [] || Edge(services, path[|path| - 1], name)
    ensures Searching(services, visited[name := Visiting], out, path + [name])
  {
    var p, v := path + [name], visited[name := Visiting];
    forall i | 0 <= i < |p| - 1 ensures Edge(services, p[i], p[i + 1]) {
      if i < |path| - 1 {
        assert Edge(services, path[i], path[i + 1]);
      }
    }
    forall n ensures n in p <==> n in v && v[n] == Visiting {
      assert n in p <==> n in path || n == name;
    }
  }

  /** A grey node whose dependencies are all black turns black and joins the output. */
  lemma {:induction false} Leave(services: Services, visited: map<string, Colour>, out: seq<Service>,
                                 path: seq<string>, name: string)
    requires Searching(services, visited, out, path + [name])
    requires name !in path && name in services
    requires forall d :: d in services[name].dependsOn ==> Listed(out, d, |out|)
    ensures Searching(services, visited[name := Done], out + [services[name]], path)
    ensures Listed(out + [services[name]], name, |out| + 1)
  {
    var v, o := visited[name := Done], out + [services[name]];
    assert name in path + [name];
    assert Walk(services, path) by {
      forall i | 0 <= i < |path| - 1 ensures Edge(services, path[i], path[i + 1]) {
        assert Edge(services, (path + [name])[i], (path + [name])[i + 1]);
      }
    }
    forall n ensures Listed(o, n, |o|) <==> Listed(out, n, |out|) || n == name {
      if n == name {
        assert o[|out|].name == n;
      }
      if Listed(out, n, |out|) {
        StaysListed(out, o, n);
      }
    }
    forall i, d | 0 <= i < |o| && d in o[i].dependsOn ensures Listed(o, d, i) {
      assert i < |out| ==> Listed(out, d, i);
      var j :| 0 <= j < i && out[j].name == d;
      assert o[j].name == d;
    }
    forall n ensures n in path <==> n in v && v[n] == Visiting {
      assert n in path + [name] <==> n in path || n == name;
    }
  }

  class TopoSorter {
    const services: Services
    var visited: map<string, Colour>
    var out: seq<Service>

    constructor (services: Services)
      ensures this.services == services && visited == map[] && out == []
    {
      this.services := services;
      visited := map[];
      out := [];
    }

    method Visit(name: string, path: seq<string>) returns (r: Result<(), Error>)
      requires Searching(services, visited, out, path)
      requires if path == [] then name in services else Edge(services, path[|path| - 1], name)
      modifies this
      ensures r.Err? ==> Justified(services, r.error)
      ensures r.Ok? ==> Searching(services, visited, out, path) && Listed(out, name, |out|)
      ensures r.Ok? ==> old(visited.Keys) <= visited.Keys && old(out) <= out
      ensures r.Ok? ==> Continues(services, old(out), out, path, [name])
      decreases services.Keys - visited.Keys
    {
      hide Continues, SortStrings, Searching, Justified, Listed;
      ColourOf(services, visited, out, path, name);
      if name in visited && visited[name] == Done {
        ContinuesListed(services, out, path, name);
        return Ok(());
      }
      if name in visited && visited[name] == Visiting {
        CycleFromPath(services, path, name);
        return Err(Circular(path, name));
      }
      if name !in services {
        visited := visited[name := Visiting];
        Unknown(services, path[|path| - 1], name);
        return Err(UnknownDependency(path[|path| - 1], name));
      }
      Enter(services, visited, out, path, name);
      visited := visited[name := Visiting];
      var s := services[name];
      var deps := SortStrings(s.dependsOn);
      var i := 0;
      ContinuesNothing(services, out, path + [name]);
      while i < |deps|
        invariant 0 <= i <= |deps|
        invariant Searching(services, visited, out, path + [name])
        invariant AllListed(out, deps[..i])
        invariant old(visited.Keys) + {name} <= visited.Keys && old(out) <= out
        invariant Continues(services, old(out), out, path + [name], deps[..i])
      {
        SortKeepsMembers(s.dependsOn, deps[i]);
        assert Edge(services, name, deps[i]);
        ghost var before := out;
        var e := Visit(deps[i], path + [name]);
        if e.Err? {
          return e;
        }
        OneMoreListed(before, out, deps, i);
        ContinuesOneMore(services, old(out), before, out, path + [name], deps, i);
        i := i + 1;
      }
      assert deps[..i] == deps;
      forall d | d in s.dependsOn ensures Listed(out, d, |out|) {
        SortKeepsMembers(s.dependsOn, d);
      }
      Leave(services, visited, out, path, name);
      ContinuesLeave(services, old(out), out, path, name);
      visited := visited[name := Done];
      out := out + [s];
      return Ok(());
    }

    method Sort(declOrder: seq<string>) returns (r: Result<seq<Service>, Error>)
      requires Keyed(services) && visited == map[] && out == []
      requires forall n :: n in declOrder <==> n in services
      modifies this
      ensures r.Ok? <==> Acyclic(services) && Closed(services)
      ensures r.Ok? ==> BootOrder(services, r.value)
      ensures r.Ok? ==> Order(services, [], {}, declOrder) == Some(Names(r.value))
      ensures r.Ok? ==> Fronted(services, declOrder, Names(r.value))
      ensures r.Ok? && declOrder != [] ==>
                forall deps :: Ascending(deps) && multiset(deps) == multiset(services[declOrder[0]].dependsOn) ==>
                  Fronted(services, deps, Names(r.value))
      ensures r.Err? ==> Justified(services, r.error)
    {
      hide Continues, Order, Fronted, Ascending;
      ContinuesNothing(services, [], []);
      var i := 0;
      while i < |declOrder|
        invariant 0 <= i <= |declOrder|
        invariant Searching(services, visited, out, [])
        invariant AllListed(out, declOrder[..i])
        invariant Continues(services, [], out, [], declOrder[..i])
      {
        ghost var before := out;
        var e := Visit(declOrder[i], []);
        if e.Err? {
          JustifiedRefutes(services, e.error);
          return Err(e.error);
        }
        OneMoreListed(before, out, declOrder, i);
        ContinuesOneMore(services, [], before, out, [], declOrder, i);
        i := i + 1;
      }
      assert declOrder[..i] == declOrder;
      ContinuesWhole(services, out, declOrder);
      BootOrderImpliesAcyclic(services, out);
      OrderFronts(services, {}, declOrder, Names(out), Names(out));
      forall deps | declOrder != [] && Ascending(deps) &&
                    multiset(deps) == multiset(services[declOrder[0]].dependsOn)
        ensures Fronted(services, deps, Names(out))
      {
        OrderFollowsDeclarations(services, declOrder, Names(out), deps);
      }
      return Ok(out);
    }
  }

  lemma {:induction false} StaysListed(before: seq<Service>, after: seq<Service>, n: string)
    requires before <= after && Listed(before, n, |before|)
    ensures Listed(after, n, |after|)
  {
    var j :| 0 <= j < |before| && before[j].name == n;
    assert after[j].name == n;
  }

  ghost predicate AllListed(out: seq<Service>, names: seq<string>) {
    forall n :: n in names ==> Listed(out, n, |out|)
  }

  lemma {:induction false} OneMoreListed(before: seq<Service>, after: seq<Service>, names: seq<string>, i: nat)
    requires before <= after && i < |names|
    requires AllListed(before, names[..i]) && Listed(after, names[i], |after|)
    ensures AllListed(after, names[..i + 1])
  {
    forall n | n in names[..i + 1] ensures Listed(after, n, |after|) {
      assert names[..i + 1] == names[..i] + [names[i]];
      if n in names[..i] {
        StaysListed(before, after, n);
      }
    }
  }

  lemma {:induction false} CycleFromPath(services: Services, path: seq<string>, name: string)
    requires Walk(services, path) && name in path
    requires Edge(services, path[|path| - 1], name)
    ensures Justified(services, Circular(path, name))
  {
    var i :| 0 <= i < |path| && path[i] == name;
    var c := path[i..] + [name];
    forall t | 0 <= t < |c| - 1 ensures Edge(services, c[t], c[t + 1]) {
      if t < |c| - 2 {
        assert Edge(services, path[i + t], path[i + t + 1]);
      }
    }
    assert Cycle(services, path[i..] + [name]);
  }

  lemma {:induction false} JustifiedRefutes(services: Services, e: Error)
    requires Justified(services, e)
    ensures !(Acyclic(services) && Closed(services))
  {
    if e.Circular? {
      var i :| 0 <= i < |e.path| && e.path[i] == e.name && Cycle(services, e.path[i..] + [e.name]);
    }
  }
}
