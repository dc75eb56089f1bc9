/**
  The gateway's weighted round robin (backend/internal/gateway/gateway.go): a pool that
  repeats each healthy replica by its deployment's weight, and a shared cursor over it.
 */
module Gateway {
  import opened Wrappers

  datatype VM = VM(id: string, running: bool, unhealthy: bool, deployment: string, version: string)

  datatype Deployment = Deployment(weight: int, percent: int, failed: bool, vmIDs: seq<string>)

  ghost predicate IsHealthy(vm: VM) {
    vm.running && !vm.unhealthy
  }

  // ---------------------------------------------------------------------------
  // The pool
  // ---------------------------------------------------------------------------

  ghost function Weight(d: Deployment): int {
    if d.weight <= 0 then d.percent else d.weight
  }

  /** Slots per replica: a tenth of the weight, at least one, at most ten. */
  ghost function Repeats(w: int): (n: nat)
    requires w > 0
    ensures 1 <= n <= 10
  {
    if w / 10 < 1 then 1 else if w / 10 > 10 then 10 else w / 10
  }

  /** A deployment that takes traffic, with n slots for each of its replicas, by its record alone. */
  ghost predicate Takes(d: Deployment, n: nat) {
    var w := if d.weight > 0 then d.weight else d.percent;
    && !d.failed && w > 0
    && (w < 20 ==> n == 1)
    && (20 <= w < 110 ==> 10 * n <= w < 10 * n + 10)
    && (w >= 110 ==> n == 10)
  }

  lemma {:induction false} TakesWhen(d: Deployment)
    ensures Routed(d) <==> exists n :: Takes(d, n)
    ensures Routed(d) ==> Takes(d, Repeats(Weight(d)))
    ensures forall n :: Takes(d, n) ==> Routed(d) && n == Repeats(Weight(d))
  {
    var w := Weight(d);
    assert w > 0 ==> 10 * (w / 10) <= w < 10 * (w / 10) + 10;
    if Routed(d) {
      assert Takes(d, Repeats(w));
    }
  }

  ghost predicate Routed(d: Deployment) {
    Weight(d) > 0 && !d.failed
  }

  ghost predicate Usable(vms: map<string, VM>, id: string) {
    id in vms && IsHealthy(vms[id])
  }

  ghost function Copies(vm: VM, n: nat): seq<VM> {
    seq(n, _ => vm)
  }

  ghost function Slots(vms: map<string, VM>, ids: seq<string>, n: nat): seq<VM> {
    if ids == [] then []
    else
      var id := ids[|ids| - 1];
      Slots(vms, ids[..|ids| - 1], n) + if Usable(vms, id) then Copies(vms[id], n) else []
  }

  ghost function PoolOf(vms: map<string, VM>, ds: seq<Deployment>): seq<VM> {
    if ds == [] then []
    else
      var d := ds[|ds| - 1];
      PoolOf(vms, ds[..|ds| - 1]) + if Routed(d) then Slots(vms, d.vmIDs, Repeats(Weight(d))) else []
  }

  // ---------------------------------------------------------------------------
  // Shares
  // ---------------------------------------------------------------------------

  ghost function Listed(ids: seq<string>, id: string): nat {
    if ids == [] then 0 else Listed(ids[..|ids| - 1], id) + if ids[|ids| - 1] == id then 1 else 0
  }

  /** How often a replica ought to be served in one round, deployment by deployment. */
  ghost function Share(ds: seq<Deployment>, id: string): nat {
    if ds == [] then 0
    else
      var d := ds[|ds| - 1];
      Share(ds[..|ds| - 1], id) + if Routed(d) then Listed(d.vmIDs, id) * Repeats(Weight(d)) else 0
  }

  /** The table is keyed by VM id. */
  ghost predicate Keyed(vms: map<string, VM>) {
    forall id :: id in vms ==> vms[id].id == id
  }

  lemma {:induction false} CopiesCount(vm: VM, n: nat, x: VM)
    ensures CountOf(Copies(vm, n), x) == if x == vm then n else 0
  {
    if n > 0 {
      CopiesCount(vm, n - 1, x);
      assert Copies(vm, n) == Copies(vm, n - 1) + [vm];
    }
  }

  ghost function CountOf(s: seq<VM>, x: VM): nat {
    multiset(s)[x]
  }

  lemma {:induction false} CountAppend(a: seq<VM>, b: seq<VM>, x: VM)
    ensures CountOf(a + b, x) == CountOf(a, x) + CountOf(b, x) && CountOf([], x) == 0
  {
  }

  lemma {:induction false} SlotsInit(vms: map<string, VM>, ids: seq<string>, n: nat, id: string)
    requires ids != []
    ensures var init, last := ids[..|ids| - 1], ids[|ids| - 1];
            && Slots(vms, ids, n) == Slots(vms, init, n) + (if Usable(vms, last) then Copies(vms[last], n) else [])
            && Listed(ids, id) == Listed(init, id) + if last == id then 1 else 0
  {
  }

  lemma {:induction false} OneMore(k: nat, n: nat)
    ensures (k + 1) * n == k * n + n
  {
  }

  lemma {:induction false} SlotsCount(vms: map<string, VM>, ids: seq<string>, n: nat, id: string)
    requires Keyed(vms) && Usable(vms, id)
    ensures CountOf(Slots(vms, ids, n), vms[id]) == Listed(ids, id) * n
  {
    hide CountOf, IsHealthy, Copies;
    CountAppend([], [], vms[id]);
    if ids != [] {
      hide Slots, Listed;
      var init, last := ids[..|ids| - 1], ids[|ids| - 1];
      SlotsInit(vms, ids, n, id);
      SlotsCount(vms, init, n, id);
      OneMore(Listed(init, id), n);
      var more := if Usable(vms, last) then Copies(vms[last], n) else [];
      CountAppend(Slots(vms, init, n), more, vms[id]);
      assert CountOf(more, vms[id]) == if last == id then n else 0 by {
        if Usable(vms, last) {
          CopiesCount(vms[last], n, vms[id]);
          assert vms[last] == vms[id] <==> last == id;
        }
      }
    }
  }

  lemma {:induction false} PoolCount(vms: map<string, VM>, ds: seq<Deployment>, id: string)
    requires Keyed(vms) && Usable(vms, id)
    ensures multiset(PoolOf(vms, ds))[vms[id]] == Share(ds, id)
  {
    if ds != [] {
      PoolCount(vms, ds[..|ds| - 1], id);
      var d := ds[|ds| - 1];
      if Routed(d) {
        SlotsCount(vms, d.vmIDs, Repeats(Weight(d)), id);
      }
    }
  }

  lemma {:induction false} SlotsMembers(vms: map<string, VM>, ids: seq<string>, n: nat, x: VM)
    requires n > 0
    ensures x in Slots(vms, ids, n) <==> exists id :: id in ids && Usable(vms, id) && vms[id] == x
  {
    if ids != [] {
      hide IsHealthy;
      var init, last := ids[..|ids| - 1], ids[|ids| - 1];
      SlotsMembers(vms, init, n, x);
      assert ids == init + [last];
      if Usable(vms, last) {
        assert Copies(vms[last], n)[0] == vms[last];
      }
    }
  }

  /** Deployment d puts the VM into the pool: it takes traffic and lists it, running and not known to be unhealthy. */
  ghost predicate Offers(vms: map<string, VM>, d: Deployment, id: string) {
    && !d.failed && (d.weight > 0 || d.percent > 0)
    && id in d.vmIDs && id in vms && vms[id].running && !vms[id].unhealthy
  }

  ghost predicate Offered(vms: map<string, VM>, ds: seq<Deployment>, x: VM) {
    exists d, id :: d in ds && Offers(vms, d, id) && vms[id] == x
  }

  /** The pool holds exactly the VMs some deployment offers. */
  lemma {:induction false} PoolMembers(vms: map<string, VM>, ds: seq<Deployment>, x: VM)
    ensures x in PoolOf(vms, ds) <==> Offered(vms, ds, x)
  {
    if ds != [] {
      var init, d := ds[..|ds| - 1], ds[|ds| - 1];
      PoolMembers(vms, init, x);
      assert ds == init + [d];
      if Routed(d) {
        SlotsMembers(vms, d.vmIDs, Repeats(Weight(d)), x);
        if x in Slots(vms, d.vmIDs, Repeats(Weight(d))) {
          var id :| id in d.vmIDs && Usable(vms, id) && vms[id] == x;
          assert d in ds && Offers(vms, d, id) && vms[id] == x;
        }
      }
    }
  }

  ghost function OwnSlots(vms: map<string, VM>, d: Deployment): seq<VM> {
    if Routed(d) then Slots(vms, d.vmIDs, Repeats(Weight(d))) else []
  }

  lemma {:induction false} PoolLast(vms: map<string, VM>, ds: seq<Deployment>, d: Deployment)
    ensures PoolOf(vms, ds + [d]) == PoolOf(vms, ds) + OwnSlots(vms, d)
  {
    hide Slots, Repeats;
    assert (ds + [d])[..|ds|] == ds;
  }

  lemma {:induction false} SlotsLast(vms: map<string, VM>, ids: seq<string>, id: string, n: nat)
    ensures Slots(vms, ids + [id], n) == Slots(vms, ids, n) + if Usable(vms, id) then Copies(vms[id], n) else []
  {
    hide Copies, IsHealthy;
    assert (ids + [id])[..|ids|] == ids;
  }

  lemma {:induction false} Regroup<T>(a: seq<T>, b: seq<T>, c: seq<T>)
    ensures a + b + c == a + (b + c)
  {
  }

  /** The pool lists the deployments in order, and each one's replicas in theirs. */
  lemma {:induction false} PoolAppend(vms: map<string, VM>, ds: seq<Deployment>, more: seq<Deployment>)
    ensures PoolOf(vms, ds + more) == PoolOf(vms, ds) + PoolOf(vms, more)
    decreases |more|
  {
    if more == [] {
      assert ds + more == ds && PoolOf(vms, more) == [];
    } else {
      hide PoolOf, OwnSlots;
      var init, d := more[..|more| - 1], more[|more| - 1];
      PoolAppend(vms, ds, init);
      PoolLast(vms, ds + init, d);
      PoolLast(vms, init, d);
      assert ds + more == ds + init + [d] && more == init + [d];
      Regroup(PoolOf(vms, ds), PoolOf(vms, init), OwnSlots(vms, d));
    }
  }

  lemma {:induction false} SlotsAppend(vms: map<string, VM>, ids: seq<string>, more: seq<string>, n: nat)
    ensures Slots(vms, ids + more, n) == Slots(vms, ids, n) + Slots(vms, more, n)
    decreases |more|
  {
    if more == [] {
      assert ids + more == ids && Slots(vms, more, n) == [];
    } else {
      hide Slots, Copies, IsHealthy;
      var init, id := more[..|more| - 1], more[|more| - 1];
      SlotsAppend(vms, ids, init, n);
      SlotsLast(vms, ids + init, id, n);
      SlotsLast(vms, init, id, n);
      assert ids + more == ids + init + [id] && more == init + [id];
      Regroup(Slots(vms, ids, n), Slots(vms, init, n), if Usable(vms, id) then Copies(vms[id], n) else []);
    }
  }

  lemma {:induction false} PoolOfOne(vms: map<string, VM>, d: Deployment)
    ensures PoolOf(vms, [d]) == if Routed(d) then Slots(vms, d.vmIDs, Repeats(Weight(d))) else []
  {
    assert [] + [d] == [d] && PoolOf(vms, []) == [];
    PoolLast(vms, [], d);
  }

  lemma {:induction false} ReplicasInOrder(vms: map<string, VM>, d: Deployment, ids: seq<string>, more: seq<string>)
    requires d.vmIDs == ids + more
    ensures PoolOf(vms, [d]) == PoolOf(vms, [d.(vmIDs := ids)]) + PoolOf(vms, [d.(vmIDs := more)])
  {
    PoolOfOne(vms, d);
    PoolOfOne(vms, d.(vmIDs := ids));
    PoolOfOne(vms, d.(vmIDs := more));
    if Routed(d) {
      SlotsAppend(vms, ids, more, Repeats(Weight(d)));
    }
  }

  /** How many of the listed replicas can be used, repeats included. */
  ghost function UsableCount(vms: map<string, VM>, ids: seq<string>): nat {
    if ids == [] then 0
    else UsableCount(vms, ids[..|ids| - 1]) + if Usable(vms, ids[|ids| - 1]) then 1 else 0
  }

  lemma {:induction false} SlotsLength(vms: map<string, VM>, ids: seq<string>, n: nat)
    ensures |Slots(vms, ids, n)| == UsableCount(vms, ids) * n
  {
    if ids != [] {
      SlotsLength(vms, ids[..|ids| - 1], n);
      OneMore(UsableCount(vms, ids[..|ids| - 1]), n);
    }
  }

  lemma {:induction false} AllUsable(vms: map<string, VM>, id: string, n: nat)
    requires Usable(vms, id)
    ensures UsableCount(vms, seq(n, _ => id)) == n
  {
    if n > 0 {
      AllUsable(vms, id, n - 1);
      assert seq(n, _ => id)[..n - 1] == seq(n - 1, _ => id);
    }
  }

  /**
    The pool adds up the usable replicas of each deployment times its slots, so no hundred
    entries bound it: n usable replicas at full weight take ten times n.
   */
  lemma {:induction false} PoolGrows(vms: map<string, VM>, ds: seq<Deployment>, d: Deployment, id: string, n: nat)
    requires Usable(vms, id)
    ensures |PoolOf(vms, ds + [d])| ==
            |PoolOf(vms, ds)| + if Routed(d) then UsableCount(vms, d.vmIDs) * Repeats(Weight(d)) else 0
    ensures |PoolOf(vms, [Deployment(100, 0, false, seq(n, _ => id))])| == 10 * n
  {
    hide PoolOf, Slots, UsableCount, IsHealthy;
    PoolAppend(vms, ds, [d]);
    PoolOfOne(vms, d);
    SlotsLength(vms, d.vmIDs, if Routed(d) then Repeats(Weight(d)) else 0);
    var full := Deployment(100, 0, false, seq(n, _ => id));
    PoolOfOne(vms, full);
    SlotsLength(vms, full.vmIDs, 10);
    AllUsable(vms, id, n);
  }

  lemma {:induction false} ListedNone(ids: seq<string>, id: string)
    requires id !in ids
    ensures Listed(ids, id) == 0
  {
    if ids != [] {
      ListedNone(ids[..|ids| - 1], id);
    }
  }

  lemma {:induction false} ListedOnce(ids: seq<string>, id: string, at: nat)
    requires at < |ids| && ids[at] == id && id !in ids[..at] && id !in ids[at + 1..]
    ensures Listed(ids, id) == 1
  {
    var init := ids[..|ids| - 1];
    if at == |ids| - 1 {
      ListedNone(init, id);
    } else {
      assert init[..at] == ids[..at] && init[at + 1..] <= ids[at + 1..];
      assert ids[at + 1..][|ids| - 1 - (at + 1)] == ids[|ids| - 1];
      ListedOnce(init, id, at);
    }
  }

  /** The replica is listed once, by deployment k alone. */
  ghost predicate OnlyIn(ds: seq<Deployment>, k: nat, at: nat, id: string) {
    && k < |ds| && at < |ds[k].vmIDs| && ds[k].vmIDs[at] == id
    && id !in ds[k].vmIDs[..at] && id !in ds[k].vmIDs[at + 1..]
    && forall i :: 0 <= i < |ds| && i != k ==> id !in ds[i].vmIDs
  }

  /** A replica listed once, in one deployment that takes traffic, has exactly that deployment's slots. */
  lemma {:induction false} ShareOfOne(ds: seq<Deployment>, k: nat, at: nat, id: string, n: nat)
    requires OnlyIn(ds, k, at, id) && Takes(ds[k], n)
    ensures Share(ds, id) == n
  {
    TakesWhen(ds[k]);
    ListedOnce(ds[k].vmIDs, id, at);
    forall i | 0 <= i < |ds| && i != k ensures Listed(ds[i].vmIDs, id) == 0 {
      ListedNone(ds[i].vmIDs, id);
    }
    ShareOfListed(ds, k, id);
  }

  lemma {:induction false} ShareOfListed(ds: seq<Deployment>, k: nat, id: string)
    requires k < |ds| && Routed(ds[k]) && Listed(ds[k].vmIDs, id) == 1
    requires forall i :: 0 <= i < |ds| && i != k ==> Listed(ds[i].vmIDs, id) == 0
    ensures Share(ds, id) == Repeats(Weight(ds[k]))
  {
    var init := ds[..|ds| - 1];
    if k == |ds| - 1 {
      ShareOfNone(init, id);
    } else {
      ShareOfListed(init, k, id);
      assert Listed(ds[|ds| - 1].vmIDs, id) == 0;
    }
  }

  lemma {:induction false} ShareOfNone(ds: seq<Deployment>, id: string)
    requires forall i :: 0 <= i < |ds| ==> Listed(ds[i].vmIDs, id) == 0
    ensures Share(ds, id) == 0
  {
    if ds != [] {
      ShareOfNone(ds[..|ds| - 1], id);
      assert Listed(ds[|ds| - 1].vmIDs, id) == 0;
    }
  }

  // ---------------------------------------------------------------------------
  // Round robin
  // ---------------------------------------------------------------------------

  /** The replicas served by the next `n` requests without a cookie. */
  ghost function Served(pool: seq<VM>, cursor: nat, n: nat): seq<VM>
    requires pool != []
  {
    seq(n, i requires 0 <= i < n => pool[(cursor + 1 + i) % |pool|])
  }

  lemma {:induction false} WrapOnce(a: nat, i: nat, n: nat)
    requires 0 < n && a < n && i < n
    ensures (a + i) % n == if a + i < n then a + i else a + i - n
  {
  }

  lemma {:induction false} ModUnique(q: int, r: int, n: int)
    requires 0 <= r < n
    ensures (n * q + r) % n == r
  {
    var x := n * q + r;
    var d := q - x / n;
    assert x == n * (x / n) + x % n;
    assert n * d == n * q - n * (x / n);
    assert d >= 1 ==> n * d >= n;
    assert d <= -1 ==> n * d <= -n;
  }

  lemma {:induction false} ModAdd(c: nat, i: nat, n: nat)
    requires n > 0
    ensures (c + i) % n == (c % n + i) % n
  {
    var q, r := c / n, c % n;
    var q', r' := (r + i) / n, (r + i) % n;
    assert c == n * q + r && r + i == n * q' + r';
    assert c + i == n * (q + q') + r';
    ModUnique(q + q', r', n);
  }

  /** One round of requests walks the whole pool, starting somewhere in it. */
  lemma {:induction false} RoundIsRotation(pool: seq<VM>, cursor: nat)
    requires pool != []
    ensures var k := (cursor + 1) % |pool|; Served(pool, cursor, |pool|) == pool[k..] + pool[..k]
  {
    var n := |pool|;
    var k := (cursor + 1) % n;
    var round := Served(pool, cursor, n);
    forall i | 0 <= i < n ensures round[i] == (pool[k..] + pool[..k])[i] {
      ModAdd(cursor + 1, i, n);
      WrapOnce(k, i, n);
    }
  }

  /** So every slot is hit exactly once in any window of pool-length requests. */
  lemma {:induction false} EverySlotOnce(pool: seq<VM>, cursor: nat)
    requires pool != []
    ensures multiset(Served(pool, cursor, |pool|)) == multiset(pool)
  {
    RoundIsRotation(pool, cursor);
    var k := (cursor + 1) % |pool|;
    assert pool == pool[..k] + pool[k..];
  }

  lemma {:induction false} ServedSplit(pool: seq<VM>, cursor: nat, a: nat, b: nat)
    requires pool != []
    ensures Served(pool, cursor, a + b) == Served(pool, cursor, a) + Served(pool, cursor + a, b)
  {
    var all, parts := Served(pool, cursor, a + b), Served(pool, cursor, a) + Served(pool, cursor + a, b);
    forall i | 0 <= i < |all| ensures all[i] == parts[i] {
      if i >= a {
        assert cursor + a + 1 + (i - a) == cursor + 1 + i;
      }
    }
  }

  lemma {:induction false} OneMoreRound(pool: seq<VM>, cursor: nat, rest: nat, x: VM)
    requires pool != []
    ensures multiset(Served(pool, cursor, |pool| + rest))[x] ==
            multiset(pool)[x] + multiset(Served(pool, cursor + |pool|, rest))[x]
  {
    hide Served;
    ServedSplit(pool, cursor, |pool|, rest);
    EverySlotOnce(pool, cursor);
  }

  lemma {:induction false} RoundsOf(pool: seq<VM>, cursor: nat, rounds: nat, x: VM)
    requires pool != []
    ensures multiset(Served(pool, cursor, rounds * |pool|))[x] == rounds * multiset(pool)[x]
    decreases rounds
  {
    if rounds == 0 {
      assert Served(pool, cursor, 0) == [];
    } else {
      hide Served;
      RoundsOf(pool, cursor + |pool|, rounds - 1, x);
      OneMoreRound(pool, cursor, (rounds - 1) * |pool|, x);
      Distribute(rounds, |pool|);
      Distribute(rounds, multiset(pool)[x]);
    }
  }

  lemma {:induction false} Distribute(rounds: nat, n: nat)
    requires rounds > 0
    ensures rounds * n == n + (rounds - 1) * n
  {
  }

  /** Over any number of rounds a replica gets its share that many times. */
  lemma {:induction false} Rounds(vms: map<string, VM>, ds: seq<Deployment>, cursor: nat, rounds: nat, id: string)
    requires Keyed(vms) && Usable(vms, id) && PoolOf(vms, ds) != []
    ensures multiset(Served(PoolOf(vms, ds), cursor, rounds * |PoolOf(vms, ds)|))[vms[id]] == rounds * Share(ds, id)
  {
    hide PoolOf, Served, Share, Keyed;
    PoolCount(vms, ds, id);
    RoundsOf(PoolOf(vms, ds), cursor, rounds, vms[id]);
  }

  // ---------------------------------------------------------------------------
  // The gateway
  // ---------------------------------------------------------------------------

  lemma {:induction false} SlotsSnoc(vms: map<string, VM>, ids: seq<string>, i: nat, n: nat)
    requires i < |ids|
    ensures Slots(vms, ids[..i + 1], n) ==
            Slots(vms, ids[..i], n) + if Usable(vms, ids[i]) then Copies(vms[ids[i]], n) else []
  {
    assert ids[..i + 1][..i] == ids[..i];
  }

  lemma {:induction false} PoolSnoc(vms: map<string, VM>, ds: seq<Deployment>, i: nat)
    requires i < |ds|
    ensures PoolOf(vms, ds[..i + 1]) ==
            PoolOf(vms, ds[..i]) + if Routed(ds[i]) then Slots(vms, ds[i].vmIDs, Repeats(Weight(ds[i]))) else []
  {
    assert ds[..i + 1][..i] == ds[..i];
  }

  method DeploymentSlots(vms: map<string, VM>, d: Deployment) returns (out: seq<VM>)
    requires !d.failed && (d.weight > 0 || d.percent > 0)
    ensures out == Slots(vms, d.vmIDs, Repeats(Weight(d)))
    ensures forall n :: Takes(d, n) ==> out == Slots(vms, d.vmIDs, n)
  {
    TakesWhen(d);
    NoSlots(vms, Repeats(Weight(d)));
    hide Slots, Takes;
    out := [];
    var i := 0;
    while i < |d.vmIDs|
      invariant 0 <= i <= |d.vmIDs|
      invariant out == Slots(vms, d.vmIDs[..i], Repeats(Weight(d)))
    {
      SlotsSnoc(vms, d.vmIDs, i, Repeats(Weight(d)));
      var id := d.vmIDs[i];
      if id in vms && vms[id].running && !vms[id].unhealthy {
        var repeats := (if d.weight <= 0 then d.percent else d.weight) / 10;
        if repeats < 1 {
          repeats := 1;
        }
        if repeats > 10 {
          repeats := 10;
        }
        ghost var before := out;
        var k := 0;
        while k < repeats
          invariant 0 <= k <= repeats
          invariant out == before + Copies(vms[id], k)
        {
          out := out + [vms[id]];
          k := k + 1;
        }
      }
      i := i + 1;
    }
    assert d.vmIDs[..i] == d.vmIDs;
  }

  lemma {:induction false} EmptyPool(vms: map<string, VM>)
    ensures PoolOf(vms, []) == []
  {
  }

  lemma {:induction false} NoSlots(vms: map<string, VM>, n: nat)
    ensures Slots(vms, [], n) == []
  {
  }

  /** The weighted pool, or the fallback alone when no deployment has a usable replica. */
  method WeightedDeploymentBackends(vms: map<string, VM>, ds: seq<Deployment>, fallback: VM) returns (out: seq<VM>)
    ensures out == if PoolOf(vms, ds) == [] then [fallback] else PoolOf(vms, ds)
    ensures forall x :: x in out <==> Offered(vms, ds, x) || (x == fallback && !exists y :: Offered(vms, ds, y))
    ensures (!exists x :: Offered(vms, ds, x)) ==> out == [fallback]
  {
    EmptyPool(vms);
    hide PoolOf, Slots, Repeats, IsHealthy, Takes, Offered;
    out := [];
    var i := 0;
    while i < |ds|
      invariant 0 <= i <= |ds|
      invariant out == PoolOf(vms, ds[..i])
    {
      PoolSnoc(vms, ds, i);
      var weight := ds[i].weight;
      if weight <= 0 {
        weight := ds[i].percent;
      }
      if weight > 0 && !ds[i].failed && |ds[i].vmIDs| > 0 {
        var slots := DeploymentSlots(vms, ds[i]);
        out := out + slots;
      } else if Routed(ds[i]) {
        NoSlots(vms, Repeats(Weight(ds[i])));
      }
      i := i + 1;
    }
    assert ds[..i] == ds;
    forall x ensures x in out <==> Offered(vms, ds, x) {
      PoolMembers(vms, ds, x);
    }
    if |out| == 0 {
      return [fallback];
    }
    assert out[0] in out;
  }

  const WORD: nat := 0x1_0000_0000_0000_0000

  ghost predicate Sticks(vm: VM, cookie: string) {
    vm.deployment == cookie || vm.version == cookie
  }

  ghost predicate FirstMatch(pool: seq<VM>, cookie: string, k: nat) {
    k < |pool| && Sticks(pool[k], cookie) && forall j :: 0 <= j < k ==> !Sticks(pool[j], cookie)
  }

  /** The request carries a cookie that some replica of the pool answers to. */
  ghost predicate Stuck(pool: seq<VM>, cookie: Option<string>) {
    cookie.Some? && exists k :: 0 <= k < |pool| && Sticks(pool[k], cookie.value)
  }

  /** The cursor wraps like a 64-bit word. */
  lemma {:induction false} NextCursor(u: nat)
    requires u < WORD
    ensures (u + 1) % WORD == if u + 1 < WORD then u + 1 else 0
  {
    WrapOnce(u, 1, WORD);
  }

  class Cursor {
    var rr: nat

    constructor ()
      ensures rr == 0
    {
      rr := 0;
    }

    /** The pick of ServeHTTP; None stands for an index below zero, which Go refuses. */
    method Pick(pool: seq<VM>, cookie: Option<string>) returns (vm: Option<VM>)
      requires pool != [] && rr < WORD
      modifies this
      ensures rr < WORD
      ensures Stuck(pool, cookie) ==>
                rr == old(rr) && exists k: nat :: FirstMatch(pool, cookie.value, k) && vm == Some(pool[k])
      ensures !Stuck(pool, cookie) ==>
                && rr == (if old(rr) == 0xFFFF_FFFF_FFFF_FFFF then 0 else old(rr) + 1)
                && (rr < 0x8000_0000_0000_0000 ==> vm == Some(pool[rr % |pool|]))
                && (rr >= 0x8000_0000_0000_0000 ==>
                      vm == if (rr - 0x1_0000_0000_0000_0000) % |pool| == 0 then Some(pool[0]) else None)
    {
      hide Sticks;
      if cookie.Some? {
        var i := 0;
        while i < |pool|
          invariant 0 <= i <= |pool| && rr == old(rr)
          invariant forall k :: 0 <= k < i ==> !Sticks(pool[k], cookie.value)
        {
          assert Sticks(pool[i], cookie.value) <==>
                 pool[i].deployment == cookie.value || pool[i].version == cookie.value by {
            SticksWhen(pool[i], cookie.value);
          }
          if pool[i].deployment == cookie.value || pool[i].version == cookie.value {
            assert FirstMatch(pool, cookie.value, i);
            return Some(pool[i]);
          }
          i := i + 1;
        }
      }
      NextCursor(rr);
      rr := (rr + 1) % WORD;
      var at := if rr < WORD / 2 then rr else rr - WORD;
      if at < 0 && at % |pool| != 0 {
        return None;
      }
      return Some(pool[at % |pool|]);
    }

    /** Requests without a cookie, one after the other, before the cursor leaves the positive range. */
    method PickMany(pool: seq<VM>, n: nat) returns (vms: seq<VM>)
      requires pool != [] && rr + n < WORD / 2
      modifies this
      ensures rr == old(rr) + n && vms == Served(pool, old(rr), n)
      ensures |vms| == n && forall i :: 0 <= i < n ==> vms[i] == pool[(old(rr) + 1 + i) % |pool|]
    {
      ServedAt(pool, rr, n);
      hide Served;
      vms := [];
      ServedNone(pool, rr);
      while |vms| < n
        invariant |vms| <= n && rr == old(rr) + |vms|
        invariant vms == Served(pool, old(rr), |vms|)
      {
        ServedSplit(pool, old(rr), |vms|, 1);
        ServedOne(pool, rr);
        var vm := Pick(pool, None);
        vms := vms + [vm.value];
      }
    }

    /** Whole rounds over the weighted pool: each usable replica is picked its share of times in every round. */
    method PickRounds(vms: map<string, VM>, ds: seq<Deployment>, fallback: VM, rounds: nat) returns (picked: seq<VM>)
      requires Keyed(vms) && PoolOf(vms, ds) != [] && rr + rounds * |PoolOf(vms, ds)| < WORD / 2
      modifies this
      ensures forall id :: Usable(vms, id) ==> multiset(picked)[vms[id]] == rounds * Share(ds, id)
      ensures forall id, k: nat, at: nat, n: nat :: Usable(vms, id) && OnlyIn(ds, k, at, id) && Takes(ds[k], n) ==>
                multiset(picked)[vms[id]] == rounds * n
    {
      hide PoolOf, Served, Share, Keyed, Takes;
      var pool := WeightedDeploymentBackends(vms, ds, fallback);
      ghost var cursor := rr;
      picked := PickMany(pool, rounds * |pool|);
      forall id | Usable(vms, id) ensures multiset(picked)[vms[id]] == rounds * Share(ds, id) {
        Rounds(vms, ds, cursor, rounds, id);
      }
      forall id, k: nat, at: nat, n: nat | Usable(vms, id) && OnlyIn(ds, k, at, id) && Takes(ds[k], n)
        ensures multiset(picked)[vms[id]] == rounds * n
      {
        ShareOfOne(ds, k, at, id, n);
      }
    }
  }

  lemma {:induction false} SticksWhen(vm: VM, cookie: string)
    ensures Sticks(vm, cookie) <==> vm.deployment == cookie || vm.version == cookie
  {
  }

  lemma {:induction false} ServedAt(pool: seq<VM>, cursor: nat, n: nat)
    requires pool != []
    ensures var s := Served(pool, cursor, n);
            |s| == n && forall i :: 0 <= i < n ==> s[i] == pool[(cursor + 1 + i) % |pool|]
  {
  }

  lemma {:induction false} ServedNone(pool: seq<VM>, cursor: nat)
    requires pool != []
    ensures Served(pool, cursor, 0) == []
  {
  }

  lemma {:induction false} ServedOne(pool: seq<VM>, cursor: nat)
    requires pool != []
    ensures Served(pool, cursor, 1) == [pool[(cursor + 1) % |pool|]]
  {
  }
}
