/**
  Placement (backend/internal/scheduler/scheduler.go): filter the nodes, score them,
  sort, take the first.  Scores are exact reals.
 */
module Scheduler {
  import Strings

  datatype Node = Node(
    id: string,
    ready: bool,
    arch: string,
    vcpuFree: int,
    memFree: int,
    labels: map<string, string>,
    taints: seq<string>,
    load: real)

  datatype Request = Request(
    arch: string,
    vcpus: int,
    mem: int,
    labels: map<string, string>,
    tolerations: seq<string>,
    binpack: bool)

  // ---------------------------------------------------------------------------
  // Feasibility and score
  // ---------------------------------------------------------------------------

  /** A map read with a missing key as the empty string. */
  function Get(m: map<string, string>, k: string): string {
    if k in m then m[k] else ""
  }

  ghost predicate Feasible(n: Node, req: Request) {
    && n.ready
    && (req.arch == "" || n.arch == "" || n.arch == req.arch)
    && n.vcpuFree >= req.vcpus && n.memFree >= req.mem
    && (forall t :: t in n.taints ==> t in req.tolerations)
    && (forall k :: k in req.labels ==> req.labels[k] == if k in n.labels then n.labels[k] else "")
  }

  function Max(a: int, b: int): int {
    if a > b then a else b
  }

  function Score(n: Node, req: Request): real {
    var used := 1.0 - n.vcpuFree as real / Max(n.vcpuFree + req.vcpus, 1) as real;
    var s := used - n.load;
    if req.binpack then s else -s
  }

  /**
    The score in plain arithmetic: the share of the node's free and requested vCPUs that the
    request takes, less the load; spread mode turns its sign around.
   */
  lemma {:induction false} ScoreMeans(n: Node, req: Request)
    ensures var total := n.vcpuFree + req.vcpus;
            var share := (if req.binpack then Score(n, req) else -Score(n, req)) + n.load;
            && (total >= 1 ==> share * total as real == req.vcpus as real)
            && (total < 1 ==> share == 1.0 - n.vcpuFree as real)
  {
    var total := n.vcpuFree + req.vcpus;
    if total >= 1 {
      var free, all := n.vcpuFree as real, total as real;
      var q := free / all;
      assert q * all == free;
      assert (1.0 - q) * all == all - q * all;
    } else {
      assert n.vcpuFree as real / 1.0 == n.vcpuFree as real;
    }
  }

  /** The comparison of the sort, made reflexive. */
  predicate Precedes(a: Node, b: Node, req: Request) {
    Score(a, req) > Score(b, req) || (Score(a, req) == Score(b, req) && Strings.Leq(a.id, b.id))
  }

  // ---------------------------------------------------------------------------
  // The choice
  // ---------------------------------------------------------------------------

  /** A feasible node that no feasible node beats. */
  ghost predicate Best(n: Node, nodes: seq<Node>, req: Request) {
    && n in nodes && Feasible(n, req)
    && forall m :: m in nodes && Feasible(m, req) ==>
         Score(n, req) > Score(m, req) || (Score(n, req) == Score(m, req) && Strings.Leq(n.id, m.id))
  }

  /** Two best nodes carry the same id, so the answer does not depend on the sort. */
  lemma {:induction false} BestUnique(a: Node, b: Node, nodes: seq<Node>, req: Request)
    requires Best(a, nodes, req) && Best(b, nodes, req)
    ensures a.id == b.id
  {
    hide Feasible, Score;
    Strings.LeqAntisymmetric(a.id, b.id);
  }

  /** Shuffling the input, or repeating a node, does not change the id chosen. */
  lemma {:induction false} SameChoice(a: Node, nodes: seq<Node>, b: Node, other: seq<Node>, req: Request)
    requires Best(a, nodes, req) && Best(b, other, req)
    requires forall m :: m in nodes <==> m in other
    ensures a.id == b.id
  {
    hide Feasible, Precedes, Score;
    assert Best(a, other, req);
    BestUnique(a, b, other, req);
  }

  /** With equal loads and a request of at least one vCPU, free capacity alone decides. */
  lemma {:induction false} ScoreByFree(a: Node, b: Node, req: Request)
    requires req.vcpus >= 1 && a.vcpuFree >= req.vcpus && b.vcpuFree >= req.vcpus && a.load == b.load
    requires a.vcpuFree < b.vcpuFree
    ensures if req.binpack then Score(a, req) > Score(b, req) else Score(a, req) < Score(b, req)
  {
    RatioGrows(a.vcpuFree as real, b.vcpuFree as real, req.vcpus as real);
  }

  lemma {:induction false} RatioGrows(f: real, g: real, v: real)
    requires 0.0 < v && 0.0 < f < g
    ensures f / (f + v) < g / (g + v)
  {
    var b, d := f + v, g + v;
    var fg, fv, gv := f * g, f * v, g * v;
    assert f * d == fg + fv;
    assert g * b == fg + gv;
    Scale(f, g, v);
    CrossMultiply(f, b, g, d);
  }

  lemma {:induction false} Scale(f: real, g: real, v: real)
    requires f < g && v > 0.0
    ensures f * v < g * v
  {
  }

  lemma {:induction false} CrossMultiply(f: real, b: real, g: real, d: real)
    requires b > 0.0 && d > 0.0 && f * d < g * b
    ensures f / b < g / d
  {
    var x, y, k := f / b, g / d, b * d;
    assert x * b == f && y * d == g;
    assert f * d == x * k;
    assert g * b == y * k;
    assert k > 0.0;
    assert x >= y ==> x * k >= y * k;
  }

  /** More load lowers the score exactly under binpack; in spread mode it raises it. */
  lemma {:induction false} LoadPenalises(n: Node, low: real, high: real, req: Request)
    requires low < high
    ensures Score(n.(load := low), req) > Score(n.(load := high), req) <==> req.binpack
  {
  }

  /** Binpack takes a feasible node with the fewest free vCPUs, spread one with the most. */
  lemma {:induction false} BinpackOrSpread(n: Node, nodes: seq<Node>, req: Request)
    requires Best(n, nodes, req) && req.vcpus >= 1
    requires forall a, b :: a in nodes && b in nodes && Feasible(a, req) && Feasible(b, req) ==> a.load == b.load
    ensures forall m :: m in nodes && Feasible(m, req) ==>
              if req.binpack then n.vcpuFree <= m.vcpuFree else n.vcpuFree >= m.vcpuFree
  {
    hide Score;
    forall m | m in nodes && Feasible(m, req)
      ensures if req.binpack then n.vcpuFree <= m.vcpuFree else n.vcpuFree >= m.vcpuFree
    {
      if n.vcpuFree < m.vcpuFree {
        ScoreByFree(n, m, req);
      } else if m.vcpuFree < n.vcpuFree {
        ScoreByFree(m, n, req);
      }
    }
  }

  // ---------------------------------------------------------------------------
  // The scheduler
  // ---------------------------------------------------------------------------

  method Tolerates(taints: seq<string>, tol: seq<string>) returns (ok: bool)
    ensures ok <==> forall t :: t in taints ==> t in tol
  {
    var have: set<string> := {};
    var i := 0;
    while i < |tol|
      invariant 0 <= i <= |tol|
      invariant forall t :: t in have <==> t in tol[..i]
    {
      have := have + {tol[i]};
      assert tol[..i + 1] == tol[..i] + [tol[i]];
      i := i + 1;
    }
    assert tol[..i] == tol;
    i := 0;
    while i < |taints|
      invariant 0 <= i <= |taints|
      invariant forall t :: t in taints[..i] ==> t in tol
    {
      if taints[i] !in have {
        return false;
      }
      assert taints[..i + 1] == taints[..i] + [taints[i]];
      i := i + 1;
    }
    assert taints[..i] == taints;
    return true;
  }

  method Matches(labels: map<string, string>, want: map<string, string>) returns (ok: bool)
    ensures ok <==> forall k :: k in want ==> want[k] == if k in labels then labels[k] else ""
  {
    var left := want.Keys;
    while left != {}
      invariant left <= want.Keys
      invariant forall k :: k in want && k !in left ==> Get(labels, k) == want[k]
    {
      var k :| k in left;
      if Get(labels, k) != want[k] {
        return false;
      }
      left := left - {k};
    }
    return true;
  }

  ghost predicate Sorted(s: seq<Node>, req: Request) {
    forall i, j :: 0 <= i < j < |s| ==> Precedes(s[i], s[j], req)
  }

  lemma {:induction false} PrecedesTransitive(a: Node, b: Node, c: Node, req: Request)
    requires Precedes(a, b, req) && Precedes(b, c, req)
    ensures Precedes(a, c, req)
  {
    hide Score;
    if Strings.Leq(a.id, b.id) && Strings.Leq(b.id, c.id) {
      Strings.LeqTransitive(a.id, b.id, c.id);
    }
  }

  lemma {:induction false} PrecedesTotal(a: Node, b: Node, req: Request)
    ensures Precedes(a, b, req) || Precedes(b, a, req)
  {
    hide Score;
    Strings.LeqTotal(a.id, b.id);
  }

  /** Puts a node in its place in a sorted list. */
  method InsertNode(s: seq<Node>, n: Node, req: Request) returns (r: seq<Node>)
    requires Sorted(s, req)
    ensures Sorted(r, req) && multiset(r) == multiset(s) + multiset{n}
  {
    hide Precedes;
    var i := 0;
    while i < |s| && Precedes(s[i], n, req)
      invariant 0 <= i <= |s|
      invariant forall j :: 0 <= j < i ==> Precedes(s[j], n, req)
    {
      i := i + 1;
    }
    r := s[..i] + [n] + s[i..];
    assert s == s[..i] + s[i..];
    forall j | i <= j < |s| ensures Precedes(n, s[j], req) {
      PrecedesTotal(s[i], n, req);
      if j > i {
        PrecedesTransitive(n, s[i], s[j], req);
      }
    }
  }

  /** sort.Slice: some permutation in order. */
  method SortByScore(cands: seq<Node>, req: Request) returns (r: seq<Node>)
    ensures Sorted(r, req) && multiset(r) == multiset(cands)
  {
    r := [];
    var i := 0;
    while i < |cands|
      invariant 0 <= i <= |cands| && Sorted(r, req)
      invariant multiset(r) == multiset(cands[..i])
    {
      r := InsertNode(r, cands[i], req);
      assert cands[..i + 1] == cands[..i] + [cands[i]];
      i := i + 1;
    }
    assert cands[..i] == cands;
  }

  method Candidates(nodes: seq<Node>, req: Request) returns (cands: seq<Node>)
    ensures forall n :: n in cands <==> n in nodes && Feasible(n, req)
  {
    cands := [];
    var i := 0;
    while i < |nodes|
      invariant 0 <= i <= |nodes|
      invariant forall n :: n in cands <==> n in nodes[..i] && Feasible(n, req)
    {
      var n := nodes[i];
      assert nodes[..i + 1] == nodes[..i] + [n];
      i := i + 1;
      if !n.ready {
        continue;
      }
      if req.arch != "" && n.arch != "" && n.arch != req.arch {
        continue;
      }
      if n.vcpuFree < req.vcpus || n.memFree < req.mem {
        continue;
      }
      var tolerated := Tolerates(n.taints, req.tolerations);
      if !tolerated {
        continue;
      }
      var matched := Matches(n.labels, req.labels);
      if !matched {
        continue;
      }
      cands := cands + [n];
    }
    assert nodes[..i] == nodes;
  }

  /** The id of a best node, or "" exactly when no node is feasible. */
  method PickNode(nodes: seq<Node>, req: Request) returns (id: string)
    ensures (exists n :: n in nodes && Feasible(n, req)) ==> exists n :: Best(n, nodes, req) && n.id == id
    ensures !(exists n :: n in nodes && Feasible(n, req)) ==> id == ""
    ensures (forall n :: n in nodes ==> n.id != "") ==> (id == "" <==> !exists n :: n in nodes && Feasible(n, req))
  {
    hide Feasible, Precedes;
    var cands := Candidates(nodes, req);
    if |cands| == 0 {
      return "";
    }
    var sorted := SortByScore(cands, req);
    SameElements(sorted, cands);
    assert sorted != [] by {
      assert cands[0] in cands && cands[0] in sorted;
    }
    var first := sorted[0];
    forall m | m in nodes && Feasible(m, req) ensures Precedes(first, m, req) {
      assert m in sorted;
      var j :| 0 <= j < |sorted| && sorted[j] == m;
      if j == 0 {
        PrecedesTotal(first, first, req);
      }
    }
    BestIs(first, nodes, req);
    return first.id;
  }

  lemma {:induction false} BestIs(n: Node, nodes: seq<Node>, req: Request)
    requires n in nodes && Feasible(n, req) && forall m :: m in nodes && Feasible(m, req) ==> Precedes(n, m, req)
    ensures Best(n, nodes, req)
  {
    hide Feasible, Score;
    forall m | m in nodes && Feasible(m, req)
      ensures Score(n, req) > Score(m, req) || (Score(n, req) == Score(m, req) && Strings.Leq(n.id, m.id))
    {
      assert Precedes(n, m, req);
    }
  }

  lemma {:induction false} SameElements(a: seq<Node>, b: seq<Node>)
    requires multiset(a) == multiset(b)
    ensures forall n :: n in a <==> n in b
  {
    forall n ensures n in a <==> n in b {
      assert n in a <==> n in multiset(a);
      assert n in b <==> n in multiset(b);
    }
  }
}
