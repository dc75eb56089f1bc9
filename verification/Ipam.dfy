/**
  Guest addressing: the per-project subnet memo of NetSpec
  (backend/internal/runtime/vm_manager.go) over the subnet counter and the two address
  layouts of backend/internal/netmgr/netmgr.go.

  All addresses lie in 10.42.0.0/16, so an address is its third and fourth octet.
 */
module Ipam {
  import opened Wrappers

  datatype Address = Address(third: int, fourth: int)

  datatype BootSpec = BootSpec(guest: Address, gateway: Address, prefix: int)

  datatype Error = BaseOutOfRange(third: int) | ReplicaOutOfRange(replica: int)

  // ---------------------------------------------------------------------------
  // Layouts
  // ---------------------------------------------------------------------------

  /** Four addresses per VM: network, gateway, guest, broadcast. */
  function Network30(third: int, replica: int): Result<BootSpec, Error> {
    if third < 0 || third > 252 then Err(BaseOutOfRange(third))
    else if replica < 0 || replica > 63 then Err(ReplicaOutOfRange(replica))
    else Ok(BootSpec(Address(third, replica * 4 + 2), Address(third, replica * 4 + 1), 30))
  }

  /** One gateway for the project, guests from .10 on. */
  function Network24(third: int, replica: int): Result<BootSpec, Error> {
    if replica < 0 || replica > 245 then Err(ReplicaOutOfRange(replica))
    else Ok(BootSpec(Address(third, 10 + replica), Address(third, 1), 24))
  }

  /** The layout NetSpec picks. */
  ghost function Layout(use30: bool, third: int, replica: int): Result<BootSpec, Error> {
    if use30 && 0 <= replica <= 63 then Network30(third, replica) else Network24(third, replica)
  }

  /** The /30 block a guest address lies in. */
  ghost function Block(a: Address): set<Address> {
    var base := a.fourth - a.fourth % 4;
    {Address(a.third, base), Address(a.third, base + 1), Address(a.third, base + 2), Address(a.third, base + 3)}
  }

  // ---------------------------------------------------------------------------
  // Subnets
  // ---------------------------------------------------------------------------

  /** `next` is the subnet counter, `subs` the memo of allocated third octets. */
  datatype State = State(next: int, subs: map<string, int>)

  ghost function Init(): State {
    State(0, map[])
  }

  /** A new project takes the counter; an exhausted counter falls back to the first subnet. */
  ghost function Remember(s: State, project: string): State {
    if project in s.subs then s
    else if s.next > 255 then s.(subs := s.subs[project := 0])
    else State(s.next + 1, s.subs[project := s.next])
  }

  ghost function After(projects: seq<string>): State {
    if projects == [] then Init() else Remember(After(projects[..|projects| - 1]), projects[|projects| - 1])
  }

  ghost predicate Injective(subs: map<string, int>) {
    forall p, q :: p in subs && q in subs && subs[p] == subs[q] ==> p == q
  }

  /** The counter runs with the number of projects until it is exhausted. */
  ghost predicate Sound(s: State) {
    && s.next == (if |s.subs| <= 256 then |s.subs| else 256)
    && (forall p :: p in s.subs ==> 0 <= s.subs[p] <= 255)
    && (s.subs != map[] ==> exists p :: p in s.subs && s.subs[p] == 0)
    && (if |s.subs| <= 256 then Injective(s.subs) && forall p :: p in s.subs ==> s.subs[p] < s.next
        else !Injective(s.subs))
  }

  /** A fresh octet keeps the memo injective; a second use of the first one spoils it. */
  lemma {:induction false} InjectiveAfter(subs: map<string, int>, project: string, third: int)
    requires project !in subs
    ensures Injective(subs[project := third]) <==> Injective(subs) && forall p :: p in subs ==> subs[p] != third
  {
    var subs' := subs[project := third];
    forall p | p in subs ensures p in subs' && subs'[p] == subs[p] {
    }
    assert project in subs' && subs'[project] == third;
  }

  lemma {:induction false} RememberKeeps(s: State, project: string)
    requires Sound(s)
    ensures Sound(Remember(s, project))
  {
    hide Injective;
    var s' := Remember(s, project);
    if project !in s.subs {
      var third := if s.next > 255 then 0 else s.next;
      InjectiveAfter(s.subs, project, third);
      assert s'.subs == s.subs[project := third] && s'.subs.Keys == s.subs.Keys + {project};
      assert |s'.subs| == |s.subs| + 1;
      if s.subs == map[] {
        assert s'.subs[project] == 0;
      } else {
        var p :| p in s.subs && s.subs[p] == 0;
        assert s'.subs[p] == 0;
      }
    }
  }

  /** Over every run, distinct projects have distinct subnets exactly up to 256 of them. */
  lemma {:induction false} SubnetsDistinct(projects: seq<string>)
    ensures Sound(After(projects))
    ensures Injective(After(projects).subs) <==> |After(projects).subs| <= 256
  {
    if projects != [] {
      SubnetsDistinct(projects[..|projects| - 1]);
      RememberKeeps(After(projects[..|projects| - 1]), projects[|projects| - 1]);
    }
  }

  /** A project keeps its subnet however the run goes on. */
  lemma {:induction false} SubnetKept(projects: seq<string>, n: nat, p: string)
    requires n <= |projects| && p in After(projects[..n]).subs
    ensures p in After(projects).subs && After(projects).subs[p] == After(projects[..n]).subs[p]
    decreases |projects| - n
  {
    if n == |projects| {
      assert projects[..n] == projects;
    } else {
      assert projects[..n + 1][..n] == projects[..n];
      SubnetKept(projects, n + 1, p);
    }
  }

  lemma {:induction false} Remembered(projects: seq<string>, i: nat)
    requires i < |projects|
    ensures projects[i] in After(projects[..i + 1]).subs
  {
    assert projects[..i + 1][..i] == projects[..i];
  }

  // ---------------------------------------------------------------------------
  // Guests
  // ---------------------------------------------------------------------------

  datatype Request = Request(project: string, replica: int)

  ghost function Projects(log: seq<Request>): seq<string> {
    seq(|log|, i requires 0 <= i < |log| => log[i].project)
  }

  /** What the i-th request of a run was given. */
  ghost function Given(use30: bool, log: seq<Request>, i: nat): Result<BootSpec, Error>
    requires i < |log|
  {
    Remembered(Projects(log), i);
    Layout(use30, After(Projects(log)[..i + 1]).subs[log[i].project], log[i].replica)
  }

  /** Octets in range, and the guest is not its gateway. */
  lemma {:induction false} LayoutInRange(use30: bool, third: int, replica: int)
    requires 0 <= third <= 255 && Layout(use30, third, replica).Ok?
    ensures var b := Layout(use30, third, replica).value;
            && b.guest.third == third == b.gateway.third
            && 1 <= b.guest.fourth <= 255 && 1 <= b.gateway.fourth <= 255 && b.guest != b.gateway
  {
  }

  /** Two replicas of one project clash only across the two layouts. */
  ghost predicate Mixed(use30: bool, r1: int, r2: int) {
    use30 && ((r1 <= 63 < r2 && 4 * r1 + 2 == 10 + r2) || (r2 <= 63 < r1 && 4 * r2 + 2 == 10 + r1))
  }

  /**
    Over every run with at most 256 projects, two granted requests share a guest address
    exactly when they name the same replica of the same project, or one replica of a
    project below 64 and one above it whose fallback address falls onto it.
   */
  lemma {:induction false} GuestsDistinct(use30: bool, log: seq<Request>, i: nat, j: nat)
    requires i < |log| && j < |log| && |After(Projects(log)).subs| <= 256
    requires Given(use30, log, i).Ok? && Given(use30, log, j).Ok?
    ensures Given(use30, log, i).value.guest == Given(use30, log, j).value.guest <==>
            log[i].project == log[j].project &&
            (log[i].replica == log[j].replica || Mixed(use30, log[i].replica, log[j].replica))
    ensures Given(use30, log, i).value.guest != Given(use30, log, i).value.gateway
  {
    hide After;
    var ps := Projects(log);
    var subs := After(ps).subs;
    SubnetsDistinct(ps);
    Remembered(ps, i);
    Remembered(ps, j);
    SubnetKept(ps, i + 1, log[i].project);
    SubnetKept(ps, j + 1, log[j].project);
    LayoutInRange(use30, subs[log[i].project], log[i].replica);
    LayoutInRange(use30, subs[log[j].project], log[j].replica);
  }

  /** With one layout throughout there is no such fallback, so granted pairs never clash. */
  lemma {:induction false} OneLayoutNoClash(use30: bool, log: seq<Request>, i: nat, j: nat)
    requires i < |log| && j < |log| && |After(Projects(log)).subs| <= 256 && log[i] != log[j]
    requires Given(use30, log, i).Ok? && Given(use30, log, j).Ok?
    requires use30 ==> forall k :: 0 <= k < |log| ==> log[k].replica <= 63
    ensures Given(use30, log, i).value.guest != Given(use30, log, j).value.guest
  {
    hide Given, After;
    GuestsDistinct(use30, log, i, j);
    assert log[i].replica <= 63 || !use30;
    assert log[j].replica <= 63 || !use30;
  }

  /** The /30 blocks of different replicas or different subnets have no address in common. */
  lemma {:induction false} BlocksDisjoint(t1: int, r1: int, t2: int, r2: int)
    requires Network30(t1, r1).Ok? && Network30(t2, r2).Ok? && (t1 != t2 || r1 != r2)
    ensures Block(Network30(t1, r1).value.guest) !! Block(Network30(t2, r2).value.guest)
    ensures Network30(t1, r1).value.gateway in Block(Network30(t1, r1).value.guest)
  {
    assert (r1 * 4 + 2) % 4 == 2 && (r2 * 4 + 2) % 4 == 2;
  }

  /** Replica 18 in the small layout and replica 64 in the fallback get the same address. */
  lemma {:induction false} FallbackClash()
    ensures Layout(true, 0, 18) == Ok(BootSpec(Address(0, 74), Address(0, 73), 30))
    ensures Layout(true, 0, 64) == Ok(BootSpec(Address(0, 74), Address(0, 1), 24))
    ensures Mixed(true, 18, 64)
  {
  }

  // ---------------------------------------------------------------------------
  // The manager
  // ---------------------------------------------------------------------------

  class VMManager {
    const use30: bool
    var next: int
    var subs: map<string, int>

    constructor (use30: bool)
      ensures this.use30 == use30 && State(next, subs) == Init()
    {
      this.use30 := use30;
      next, subs := 0, map[];
    }

    method AllocateSubnet() returns (third: int, exhausted: bool)
      modifies this
      ensures subs == old(subs)
      ensures exhausted <==> old(next) > 255
      ensures exhausted ==> next == old(next)
      ensures !exhausted ==> third == old(next) && next == old(next) + 1
    {
      if next > 255 {
        return 0, true;
      }
      third := next;
      next := next + 1;
      exhausted := false;
    }

    method AllocateProjectSubnet() returns (third: int)
      modifies this
      ensures subs == old(subs)
      ensures third == (if old(next) > 255 then 0 else old(next))
      ensures next == if old(next) > 255 then old(next) else old(next) + 1
    {
      var t, exhausted := AllocateSubnet();
      third := if exhausted then 0 else t;
    }

    method NetSpec(project: string, replica: int) returns (r: Result<BootSpec, Error>)
      modifies this
      ensures State(next, subs) == Remember(old(State(next, subs)), project)
      ensures project in subs && r == Layout(use30, subs[project], replica)
      ensures project in old(subs) ==> subs == old(subs) && next == old(next)
      ensures project !in old(subs) ==> subs == old(subs)[project := if old(next) > 255 then 0 else old(next)]
      ensures project !in old(subs) ==> next == if old(next) > 255 then old(next) else old(next) + 1
      ensures var t := subs[project];
              var small := use30 && 0 <= replica <= 63;
              && (small && 0 <= t <= 252 ==>
                    r == Ok(BootSpec(Address(t, 4 * replica + 2), Address(t, 4 * replica + 1), 30)))
              && (small && !(0 <= t <= 252) ==> r == Err(BaseOutOfRange(t)))
              && (!small && 0 <= replica <= 245 ==> r == Ok(BootSpec(Address(t, 10 + replica), Address(t, 1), 24)))
              && (!small && !(0 <= replica <= 245) ==> r == Err(ReplicaOutOfRange(replica)))
    {
      if project !in subs {
        var third := AllocateProjectSubnet();
        subs := subs[project := third];
      }
      var subnet := subs[project];
      if use30 && 0 <= replica <= 63 {
        return Network30(subnet, replica);
      }
      return Network24(subnet, replica);
    }
  }
}
