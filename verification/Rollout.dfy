/**
  Deployment records and everything that writes them: the store's upsert with its
  weight normalisation (backend/internal/store/store.go), the API handlers
  (backend/internal/api/handlers.go) and the reconciler
  (backend/internal/controller/deployment_controller.go), as one state machine.
 */
module Rollout {
  import opened Wrappers

  datatype Check = Check(name: string, status: string)

  datatype Deployment = Deployment(
    project: string,
    status: string,
    image: string,
    guestBase: string,
    environment: string,
    production: bool,
    weight: int,
    percent: int,
    rollbackTo: string,
    vmIDs: seq<string>,
    checks: seq<Check>)

  /** The deployments table, by id. */
  type Rows = map<string, Deployment>

  datatype Build = Build(status: string, image: string)

  datatype Replica = Replica(id: string, project: string, deployment: string, running: bool)

  /**
    What the reconciler meets besides the deployments: projects, builds, replicas, and
    whether the CHECK on the status column admits "completed".
   */
  datatype World = World(desired: map<string, int>, builds: map<string, Build>, replicas: seq<Replica>,
                         admitsCompleted: bool)

  /** `Unprocessable` answers a creation whose record is saved as failed; `Refused` is the database's answer. */
  datatype Outcome = Accepted | Unprocessable | NotFound | BadRequest | Conflict | Refused

  // ---------------------------------------------------------------------------
  // The store
  // ---------------------------------------------------------------------------

  /** CreateDeployment: a zero in one of the two weights is filled in from the other. */
  function Normalise(d: Deployment): Deployment {
    var w := if d.weight == 0 && d.percent != 0 then d.percent else d.weight;
    d.(weight := w, percent := if d.percent == 0 then w else d.percent)
  }

  /** An update leaves the project and the guest base of the stored row alone. */
  function Saved(row: Deployment, d: Deployment): Deployment {
    Normalise(d).(project := row.project, guestBase := row.guestBase)
  }

  function Upsert(rows: Rows, id: string, d: Deployment): Rows {
    rows[id := if id in rows then Saved(rows[id], d) else Normalise(d)]
  }

  /** A row as ListDeployments returns it. */
  function View(d: Deployment): Deployment {
    d.(weight := if d.weight == 0 then d.percent else d.weight,
       environment := if d.environment == "" then "preview" else d.environment,
       guestBase := if d.guestBase == "" then "alpine" else d.guestBase)
  }

  predicate Has(rows: Rows, project: string, id: string) {
    id in rows && rows[id].project == project
  }

  function Siblings(rows: Rows, project: string): set<string> {
    set x | x in rows && rows[x].project == project
  }

  ghost predicate ChecksPass(d: Deployment) {
    forall i :: 0 <= i < |d.checks| ==> d.checks[i].status == "passed"
  }

  // ---------------------------------------------------------------------------
  // The reconciler
  // ---------------------------------------------------------------------------

  datatype Phase = Building | Rolling | Promoting | Failed | Ready

  function PhaseOf(d: Deployment): Phase {
    if d.status == "failed" then Failed
    else if d.status == "completed" || d.status == "success" then
      if 0 < d.weight < 100 then Rolling
      else if d.production && d.weight == 100 then Promoting
      else Ready
    else Building
  }

  function Running(replicas: seq<Replica>, project: string, id: string): nat {
    if replicas == [] then 0
    else
      var r := replicas[|replicas| - 1];
      Running(replicas[..|replicas| - 1], project, id) +
      if r.project == project && r.deployment == id && r.running then 1 else 0
  }

  function VmIDs(replicas: seq<Replica>, project: string, id: string): seq<string> {
    if replicas == [] then []
    else
      var r := replicas[|replicas| - 1];
      VmIDs(replicas[..|replicas| - 1], project, id) +
      if r.project == project && r.deployment == id then [r.id] else []
  }

  function CopyCount(d: Deployment): (n: nat)
    ensures n > 0
  {
    if d.vmIDs == [] then 1 else |d.vmIDs|
  }

  function Desired(w: World, d: Deployment): (n: nat)
    ensures n > 0
  {
    if d.project in w.desired && w.desired[d.project] > 0 then w.desired[d.project] else CopyCount(d)
  }

  function Promoted(d: Deployment): Deployment {
    d.(weight := 100, percent := 100)
  }

  function Rolled(w: World, id: string, d: Deployment): Deployment {
    var running, desired := Running(w.replicas, d.project, id), Desired(w, d);
    var seen := d.(vmIDs := VmIDs(w.replicas, d.project, id));
    if running >= desired then Promoted(seen)
    else
      var share := running * 100 / desired;
      if share != d.weight then seen.(weight := share, percent := share) else seen
  }

  function RolledBack(rows: Rows, d: Deployment): Deployment {
    if Has(rows, d.project, d.rollbackTo) then
      var t := View(rows[d.rollbackTo]);
      d.(image := t.image, guestBase := t.guestBase, environment := t.environment, weight := t.weight,
         status := "completed", rollbackTo := "")
    else d.(rollbackTo := "")
  }

  function Built(w: World, id: string, d: Deployment): Option<Deployment> {
    if id !in w.builds then None
    else
      var b := w.builds[id];
      if b.status == "completed" || b.status == "success" then
        Some(d.(status := "completed", image := if b.image != "" then b.image else d.image))
      else if b.status == "failed" then Some(d.(status := "failed"))
      else None
  }

  /** What the reconciler saves for a deployment as listed, if anything. */
  function Decide(w: World, rows: Rows, id: string, d: Deployment): Option<Deployment> {
    if d.rollbackTo != "" then Some(RolledBack(rows, d))
    else
      match PhaseOf(d)
      case Building => Built(w, id, d)
      case Rolling => Some(Rolled(w, id, d))
      case Promoting => Some(Promoted(d))
      case Failed => Some(d)
      case Ready => None
  }

  /** Every other status the program writes passes the CHECK of the shipped schema. */
  predicate Admitted(w: World, d: Deployment) {
    d.status == "completed" ==> w.admitsCompleted
  }

  /** Reconciling a deployment as listed; a row the database refuses is not saved. */
  function DecidedRows(w: World, rows: Rows, id: string, d: Deployment): Rows {
    var n := Decide(w, rows, id, d);
    if n.Some? && Admitted(w, n.value) then Upsert(rows, id, n.value) else rows
  }

  function Reconciled(w: World, rows: Rows, id: string): Rows {
    if id !in rows then rows else DecidedRows(w, rows, id, View(rows[id]))
  }

  // ---------------------------------------------------------------------------
  // Rolling weight
  // ---------------------------------------------------------------------------

  /**
    A rolling deployment gets the whole route exactly when every desired replica
    runs; otherwise its share is the floor of the running percentage, below 100.
   */
  lemma {:induction false} RollingWeight(w: World, id: string, d: Deployment)
    requires PhaseOf(d) == Rolling
    ensures var running, desired, r := Running(w.replicas, d.project, id), Desired(w, d), Rolled(w, id, d);
            && (r.weight == 100 <==> running >= desired)
            && (running < desired ==>
                  0 <= r.weight < 100 && r.weight * desired <= 100 * running < (r.weight + 1) * desired)
  {
    var running, desired := Running(w.replicas, d.project, id), Desired(w, d);
    if running < desired {
      FloorShare(running, desired);
    }
  }

  lemma {:induction false} FloorShare(running: nat, desired: nat)
    requires running < desired
    ensures var s := running * 100 / desired; 0 <= s < 100 && s * desired <= 100 * running < (s + 1) * desired
  {
    var s := running * 100 / desired;
    assert s * desired + running * 100 % desired == running * 100;
    assert (s + 1) * desired == s * desired + desired;
    assert s >= 100 ==> s * desired >= 100 * desired;
  }

  // ---------------------------------------------------------------------------
  // Convergence
  // ---------------------------------------------------------------------------

  function Iterate(w: World, rows: Rows, id: string, n: nat): Rows {
    if n == 0 then rows else Reconciled(w, Iterate(w, rows, id, n - 1), id)
  }

  predicate Settled(w: World, rows: Rows, id: string) {
    Reconciled(w, rows, id) == rows
  }

  /** The project states a replica count. */
  predicate Counted(w: World, d: Deployment) {
    d.project in w.desired && w.desired[d.project] > 0
  }

  /** How many changing steps a record may still need. */
  function Rank(w: World, rows: Rows, id: string): nat
    requires id in rows
  {
    var d := View(rows[id]);
    var roll := if Counted(w, d) then 1 else 2;
    if d.rollbackTo != "" then roll + if Has(rows, d.project, d.rollbackTo) then 1 else 2
    else
      match PhaseOf(d)
      case Building => roll + 1
      case Rolling => if d.vmIDs == VmIDs(w.replicas, d.project, id) then 1 else roll
      case Promoting => 1
      case Failed => 1
      case Ready => 0
  }

  ghost predicate Progress(w: World, rows: Rows, id: string)
    requires id in rows
  {
    var next := Reconciled(w, rows, id);
    Settled(w, rows, id) || Settled(w, next, id) || Rank(w, next, id) < Rank(w, rows, id)
  }

  /** A weight that has left the open interval does not come back: the record is at rest. */
  lemma {:induction false} RolledOut(w: World, rows: Rows, id: string)
    requires id in rows && rows[id].rollbackTo == ""
    requires PhaseOf(View(rows[id])) != Rolling && PhaseOf(View(rows[id])) != Building
    requires Normalise(View(rows[id])) == View(rows[id]) && rows[id].environment != ""
    requires rows[id].weight == 0 ==> rows[id].percent == 0
    requires PhaseOf(View(rows[id])) == Promoting ==> rows[id].percent == 100
    ensures Settled(w, rows, id)
  {
    hide Rolled;
    assert Saved(rows[id], View(rows[id])) == rows[id];
    SettledRow(w, rows, id);
  }

  lemma {:induction false} RollingProgress(w: World, rows: Rows, id: string)
    requires id in rows && View(rows[id]).rollbackTo == "" && PhaseOf(View(rows[id])) == Rolling
    ensures Progress(w, rows, id)
    ensures Rank(w, rows, id) <= 1 ==> Settled(w, Reconciled(w, rows, id), id)
  {
    hide Running, VmIDs;
    var d := View(rows[id]);
    var r := Rolled(w, id, d);
    var next := Reconciled(w, rows, id);
    if Admitted(w, r) {
      RollingWeight(w, id, d);
      assert next == Upsert(rows, id, r);
      var d' := View(next[id]);
      assert d'.vmIDs == VmIDs(w.replicas, d.project, id);
      if PhaseOf(d') == Rolling {
        if Rank(w, rows, id) <= 1 {
          RollAgain(w, next, id);
        }
      } else {
        RolledOut(w, next, id);
      }
    }
  }

  /** The pool is as observed, so the share that was saved is the share seen again. */
  lemma {:induction false} RollAgain(w: World, rows: Rows, id: string)
    requires id in rows && rows[id].rollbackTo == "" && PhaseOf(View(rows[id])) == Rolling
    requires rows[id].environment != "" && rows[id].weight != 0 && rows[id].percent != 0
    requires var d := View(rows[id]);
             && d.vmIDs == VmIDs(w.replicas, d.project, id)
             && Running(w.replicas, d.project, id) < Desired(w, d)
             && d.weight == Running(w.replicas, d.project, id) * 100 / Desired(w, d)
    ensures Settled(w, rows, id)
  {
    hide Running, VmIDs, Desired;
    var d := View(rows[id]);
    assert Rolled(w, id, d) == d;
    assert Saved(rows[id], d) == rows[id];
    SettledRow(w, rows, id);
  }

  lemma {:induction false} RollbackProgress(w: World, rows: Rows, id: string)
    requires id in rows && rows[id].rollbackTo != ""
    ensures Progress(w, rows, id) && Rank(w, rows, id) > 1
  {
    hide Rolled, Built;
  }

  lemma {:induction false} BuildingProgress(w: World, rows: Rows, id: string)
    requires id in rows && rows[id].rollbackTo == "" && PhaseOf(View(rows[id])) == Building
    ensures Progress(w, rows, id) && Rank(w, rows, id) > 1
  {
    hide Rolled;
  }

  lemma {:induction false} StepProgress(w: World, rows: Rows, id: string)
    requires id in rows
    ensures Progress(w, rows, id)
    ensures Rank(w, rows, id) <= 1 ==> Settled(w, Reconciled(w, rows, id), id)
  {
    var d := View(rows[id]);
    if d.rollbackTo != "" {
      hide *;
      RollbackProgress(w, rows, id);
    } else {
      match PhaseOf(d)
      case Building => BuildingProgress(w, rows, id);
      case Rolling => RollingProgress(w, rows, id);
      case _ => StillProgress(w, rows, id);
    }
  }

  lemma {:induction false} StillProgress(w: World, rows: Rows, id: string)
    requires id in rows && rows[id].rollbackTo == ""
    requires PhaseOf(View(rows[id])) != Rolling && PhaseOf(View(rows[id])) != Building
    ensures Settled(w, Reconciled(w, rows, id), id)
  {
    hide Rolled;
    var next := Reconciled(w, rows, id);
    if PhaseOf(View(rows[id])) != Ready && Admitted(w, View(rows[id])) {
      RolledOut(w, next, id);
    }
  }

  lemma {:induction false} IterateAfter(w: World, rows: Rows, id: string, n: nat)
    ensures Iterate(w, rows, id, n + 1) == Iterate(w, Reconciled(w, rows, id), id, n)
  {
    if n > 0 {
      IterateAfter(w, rows, id, n - 1);
    }
  }

  lemma {:induction false} SettledStays(w: World, rows: Rows, id: string, n: nat)
    requires Settled(w, rows, id)
    ensures Iterate(w, rows, id, n) == rows
  {
    hide Reconciled;
    if n > 0 {
      SettledStays(w, rows, id, n - 1);
    }
  }

  lemma {:induction false} ConvergesByRank(w: World, rows: Rows, id: string, n: nat)
    requires id in rows && Rank(w, rows, id) <= n
    ensures Settled(w, Iterate(w, rows, id, n), id)
    decreases n
  {
    hide Reconciled, Rank;
    if n == 0 {
      RankZero(w, rows, id);
    } else {
      StepProgress(w, rows, id);
      IterateAfter(w, rows, id, n - 1);
      StaysIn(w, rows, id);
      var next := Reconciled(w, rows, id);
      if Settled(w, rows, id) {
        SettledStays(w, rows, id, n);
      } else if Settled(w, next, id) {
        SettledStays(w, next, id, n - 1);
      } else {
        ConvergesByRank(w, next, id, n - 1);
      }
    }
  }

  lemma {:induction false} RankZero(w: World, rows: Rows, id: string)
    requires id in rows && Rank(w, rows, id) == 0
    ensures Settled(w, rows, id)
  {
  }

  lemma {:induction false} StaysIn(w: World, rows: Rows, id: string)
    requires id in rows
    ensures id in Reconciled(w, rows, id) && forall x :: x in rows && x != id ==> Reconciled(w, rows, id)[x] == rows[x]
  {
  }

  /** Every rollback request names a deployment of its own project. */
  ghost predicate Linked(rows: Rows) {
    forall x :: x in rows && rows[x].rollbackTo != "" ==> Has(rows, rows[x].project, rows[x].rollbackTo)
  }

  /**
    With builds, replicas and the other deployments frozen, two reconcile steps reach a
    fixed point when the project states a replica count and three otherwise; a rollback
    request that names nothing, which no run leaves behind, would take one step more.
   */
  lemma {:induction false} Converges(w: World, rows: Rows, id: string)
    requires id in rows
    ensures Linked(rows) && Counted(w, rows[id]) ==> Settled(w, Iterate(w, rows, id, 2), id)
    ensures Linked(rows) || Counted(w, rows[id]) ==> Settled(w, Iterate(w, rows, id, 3), id)
    ensures Settled(w, Iterate(w, rows, id, 4), id)
  {
    hide Iterate, Settled;
    ConvergesByRank(w, rows, id, 4);
    if Linked(rows) || Counted(w, rows[id]) {
      ConvergesByRank(w, rows, id, 3);
    }
    if Linked(rows) && Counted(w, rows[id]) {
      ConvergesByRank(w, rows, id, 2);
    }
  }

  /** Both bounds are met by a record just created: its build has finished and one of two replicas runs. */
  lemma {:induction false} BoundsAreTight()
    ensures exists w: World, ops, id :: AdmissibleRun(ops) && id in Run(ops) && Counted(w, Run(ops)[id]) &&
              !Settled(w, Iterate(w, Run(ops), id, 1), id)
    ensures exists w: World, ops, id :: AdmissibleRun(ops) && id in Run(ops) && !Counted(w, Run(ops)[id]) &&
              !Settled(w, Iterate(w, Run(ops), id, 2), id)
  {
    var r0, r1 := Replica("a", "p", "d", true), Replica("b", "p", "d", false);
    var w := World(map["p" := 2], map["d" := Build("completed", "")], [r0, r1], true);
    var op := Create("p", "d", "", "", 30, "", ["x", "y", "z"], true);
    PoolOfTwo(r0, r1);
    CreatedAlone(op);
    var d1 := NewDeployment(op).(status := "completed");
    var d2 := d1.(vmIDs := ["a", "b"], weight := 33, percent := 33);
    hide Running, VmIDs, Reconciled, Desired, Run, AdmissibleRun;
    var rows := Run([op]);
    FirstStep(w, rows, "d");
    RollStep(w, "d", d1, 2, 50);
    assert Counted(w, rows["d"]) && !Settled(w, Iterate(w, rows, "d", 1), "d");
    var w' := w.(desired := map[]);
    FirstStep(w', rows, "d");
    RollStep(w', "d", d1, 3, 33);
    assert Iterate(w', rows, "d", 2) == Reconciled(w', Iterate(w', rows, "d", 1), "d");
    RollStep(w', "d", d2, 2, 50);
    assert !Counted(w', rows["d"]) && !Settled(w', Iterate(w', rows, "d", 2), "d");
  }

  lemma {:induction false} CreatedAlone(op: Op)
    requires op.Create? && op.rollbackTo == "" && op.imageKnown && 0 < op.traffic <= 100
    ensures AdmissibleRun([op]) && Run([op]) == map[op.id := NewDeployment(op)]
  {
    assert [op][..0] == [];
    assert Run([]) == map[] && Siblings(map[], op.project) == {};
    assert Run([op]) == Step(map[], op);
  }

  lemma {:induction false} PoolOfTwo(r0: Replica, r1: Replica)
    requires r0 == Replica("a", "p", "d", true) && r1 == Replica("b", "p", "d", false)
    ensures Running([r0, r1], "p", "d") == 1 && VmIDs([r0, r1], "p", "d") == ["a", "b"]
  {
    assert [r0, r1][..1] == [r0] && [r0][..0] == [];
    assert Running([r0], "p", "d") == 1 && VmIDs([r0], "p", "d") == [] + ["a"];
    assert Running([r0, r1], "p", "d") == 1;
    assert VmIDs([r0, r1], "p", "d") == [] + ["a"] + ["b"];
  }

  /** One of the desired replicas runs: a rolling record takes that share. */
  lemma {:induction false} RollStep(w: World, id: string, d: Deployment, desired: nat, share: int)
    requires d.rollbackTo == "" && d.status == "completed" && 0 < d.weight < 100 && d.percent > 0 && d.environment != ""
    requires Running(w.replicas, d.project, id) == 1 && Desired(w, View(d)) == desired > 1
    requires share == 100 / desired > 0 && share != d.weight && w.admitsCompleted
    ensures Reconciled(w, map[id := d], id) ==
            map[id := d.(vmIDs := VmIDs(w.replicas, d.project, id), weight := share, percent := share)]
    ensures !Settled(w, map[id := d], id)
  {
    hide Running, VmIDs, Desired;
    FloorShare(1, desired);
    var rows: Rows := map[id := d];
    assert Reconciled(w, rows, id)[id].weight == share;
    var rolled := d.(vmIDs := VmIDs(w.replicas, d.project, id), weight := share, percent := share);
    assert Reconciled(w, rows, id)[id] == rolled;
  }

  /** A finished build is noticed first. */
  lemma {:induction false} FirstStep(w: World, rows: Rows, id: string)
    requires id in rows && rows.Keys == {id} && rows[id].rollbackTo == "" && w.admitsCompleted
    requires rows[id].status == "ready" && rows[id].weight == rows[id].percent > 0 && rows[id].environment != ""
    requires id in w.builds && w.builds[id] == Build("completed", "")
    ensures Iterate(w, rows, id, 1) == map[id := rows[id].(status := "completed")]
  {
    assert Iterate(w, rows, id, 0) == rows;
    assert Reconciled(w, rows, id) == map[id := rows[id].(status := "completed")];
  }

  // ---------------------------------------------------------------------------
  // Convergence of the whole table
  // ---------------------------------------------------------------------------

  /** The same deployments in the same projects. */
  ghost predicate SameShape(rows: Rows, rows': Rows) {
    rows.Keys == rows'.Keys && forall x :: x in rows ==> rows'[x].project == rows[x].project
  }

  /** One cycle of the controller: every listed deployment is reconciled in turn. */
  function Pass(w: World, rows: Rows, ids: seq<string>): Rows
    decreases |ids|
  {
    if ids == [] then rows else Pass(w, Reconciled(w, rows, ids[0]), ids[1..])
  }

  function Passes(w: World, rows: Rows, orders: seq<seq<string>>): Rows
    decreases |orders|
  {
    if orders == [] then rows else Passes(w, Pass(w, rows, orders[0]), orders[1..])
  }

  /** The table as List enumerates it: every deployment once, in any order. */
  ghost predicate Lists(rows: Rows, ids: seq<string>) {
    && (forall i, j :: 0 <= i < j < |ids| ==> ids[i] != ids[j])
    && (forall x :: x in ids <==> x in rows)
  }

  ghost predicate AllSettled(w: World, rows: Rows) {
    forall x :: x in rows ==> Settled(w, rows, x)
  }

  /** A fixed point, or at most n changing steps away from one. */
  ghost predicate Within(w: World, rows: Rows, id: string, n: nat) {
    id in rows && (Settled(w, rows, id) || Rank(w, rows, id) <= n)
  }

  lemma {:induction false} ReconcileShape(w: World, rows: Rows, id: string)
    ensures SameShape(rows, Reconciled(w, rows, id))
    ensures forall x :: x in rows && x != id ==> Reconciled(w, rows, id)[x] == rows[x]
  {
    hide Decide;
  }

  /** Neither the rank nor being settled looks at the contents of other records. */
  lemma {:induction false} ShapeDecides(w: World, rows: Rows, rows': Rows, id: string)
    requires SameShape(rows, rows') && id in rows && rows[id] == rows'[id]
    ensures Rank(w, rows, id) == Rank(w, rows', id)
    ensures Settled(w, rows, id) <==> Settled(w, rows', id)
  {
    hide Rolled, Built;
    SettledRow(w, rows, id);
    SettledRow(w, rows', id);
    if rows[id].rollbackTo == "" {
      assert Decide(w, rows, id, View(rows[id])) == Decide(w, rows', id, View(rows[id]));
    }
  }

  lemma {:induction false} SettledRow(w: World, rows: Rows, id: string)
    requires id in rows
    ensures Settled(w, rows, id) <==>
            var n := Decide(w, rows, id, View(rows[id]));
            n.None? || !Admitted(w, n.value) || Saved(rows[id], n.value) == rows[id]
  {
    hide Decide, Saved;
  }

  lemma {:induction false} ReconcileCloser(w: World, rows: Rows, id: string, n: nat)
    requires Within(w, rows, id, n + 1)
    ensures Within(w, Reconciled(w, rows, id), id, n)
  {
    hide Reconciled, Rank;
    ReconcileShape(w, rows, id);
    StepProgress(w, rows, id);
  }

  lemma {:induction false} PassOthers(w: World, rows: Rows, ids: seq<string>, id: string)
    requires id !in ids && id in rows
    ensures SameShape(rows, Pass(w, rows, ids)) && Pass(w, rows, ids)[id] == rows[id]
    decreases |ids|
  {
    hide Reconciled;
    if ids != [] {
      ReconcileShape(w, rows, ids[0]);
      PassOthers(w, Reconciled(w, rows, ids[0]), ids[1..], id);
    }
  }

  lemma {:induction false} PassShape(w: World, rows: Rows, ids: seq<string>)
    ensures SameShape(rows, Pass(w, rows, ids))
    decreases |ids|
  {
    hide Reconciled;
    if ids != [] {
      ReconcileShape(w, rows, ids[0]);
      PassShape(w, Reconciled(w, rows, ids[0]), ids[1..]);
    }
  }

  /** A cycle brings every listed record one step closer, whatever it does to the others. */
  lemma {:induction false} PassCloser(w: World, rows: Rows, ids: seq<string>, id: string, n: nat)
    requires id in ids && (forall i, j :: 0 <= i < j < |ids| ==> ids[i] != ids[j])
    requires Within(w, rows, id, n + 1)
    ensures Within(w, Pass(w, rows, ids), id, n)
    decreases |ids|
  {
    hide Reconciled, Rank, Settled;
    var next, rest := Reconciled(w, rows, ids[0]), ids[1..];
    ReconcileShape(w, rows, ids[0]);
    if ids[0] == id {
      ReconcileCloser(w, rows, id, n);
      assert id !in rest;
      PassOthers(w, next, rest, id);
      ShapeDecides(w, next, Pass(w, next, rest), id);
    } else {
      ShapeDecides(w, rows, next, id);
      PassCloser(w, next, rest, id, n);
    }
  }

  lemma {:induction false} PassesConverge(w: World, rows: Rows, orders: seq<seq<string>>)
    requires forall i :: 0 <= i < |orders| ==> Lists(rows, orders[i])
    requires forall x :: x in rows ==> Within(w, rows, x, |orders|)
    ensures AllSettled(w, Passes(w, rows, orders))
    decreases |orders|
  {
    hide Pass, Settled, Rank;
    if orders == [] {
      forall x | x in rows ensures Settled(w, rows, x) {
        assert Within(w, rows, x, 0);
        if Rank(w, rows, x) == 0 {
          RankZero(w, rows, x);
        }
      }
    } else {
      var next := Pass(w, rows, orders[0]);
      PassShape(w, rows, orders[0]);
      forall x | x in next ensures Within(w, next, x, |orders| - 1) {
        assert x in rows && x in orders[0];
        PassCloser(w, rows, orders[0], x, |orders| - 1);
      }
      forall i | 0 <= i < |orders| - 1 ensures Lists(next, orders[1..][i]) {
        assert Lists(rows, orders[i + 1]);
      }
      PassesConverge(w, next, orders[1..]);
    }
  }

  lemma {:induction false} RankBound(w: World, rows: Rows, id: string)
    requires id in rows && Linked(rows)
    ensures Rank(w, rows, id) <= 3 && (Counted(w, rows[id]) ==> Rank(w, rows, id) <= 2)
  {
  }

  /**
    With builds and replicas frozen, three cycles of the controller over a table that a
    run can leave bring every record to rest, two where every project states a replica
    count, in whatever order each cycle lists them.
   */
  lemma {:induction false} TableConverges(w: World, rows: Rows, orders: seq<seq<string>>)
    requires Linked(rows) && forall i :: 0 <= i < |orders| ==> Lists(rows, orders[i])
    requires |orders| == 3 || (|orders| == 2 && forall x :: x in rows ==> Counted(w, rows[x]))
    ensures AllSettled(w, Passes(w, rows, orders))
  {
    hide Rank, Settled, Passes, Lists, Linked, Counted;
    forall x | x in rows ensures Within(w, rows, x, |orders|) {
      RankBound(w, rows, x);
    }
    PassesConverge(w, rows, orders);
  }

  /** And a table at rest is left alone by every later cycle. */
  lemma {:induction false} RestStays(w: World, rows: Rows, ids: seq<string>)
    requires AllSettled(w, rows)
    ensures Pass(w, rows, ids) == rows
    decreases |ids|
  {
    hide Reconciled;
    if ids != [] {
      assert Reconciled(w, rows, ids[0]) == rows by {
        if ids[0] in rows {
          assert Settled(w, rows, ids[0]);
        } else {
          ReconcileMissing(w, rows, ids[0]);
        }
      }
      RestStays(w, rows, ids[1..]);
    }
  }

  lemma {:induction false} ReconcileMissing(w: World, rows: Rows, id: string)
    requires id !in rows
    ensures Reconciled(w, rows, id) == rows
  {
  }

  // ---------------------------------------------------------------------------
  // Operations
  // ---------------------------------------------------------------------------

  datatype Op =
    | Create(project: string, id: string, image: string, guestBase: string, traffic: int, rollbackTo: string,
             vmIDs: seq<string>, imageKnown: bool)
    | SetRollout(project: string, id: string, pct: int)
    | SetChecks(project: string, id: string, required: seq<Check>)
    | Promote(project: string, id: string, booted: seq<string>)
    | Delete(project: string, id: string, stopped: bool)
    | Reconcile(world: World, id: string)

  function NewDeployment(op: Op): Deployment
    requires op.Create?
  {
    Deployment(op.project, if op.imageKnown then "ready" else "failed", op.image, op.guestBase, "preview", false,
               op.traffic, op.traffic, op.rollbackTo, if op.imageKnown then op.vmIDs else [], [])
  }

  /** The target record promotion leaves; its pool is booted only when it had none. */
  function Live(d: Deployment, booted: seq<string>): Deployment {
    d.(status := "live", production := true, environment := "production", weight := 100, percent := 100,
       vmIDs := if d.vmIDs == [] then booted else d.vmIDs)
  }

  function PromotedRows(rows: Rows, project: string, id: string, booted: seq<string>): Rows
    requires id in rows
  {
    map x | x in rows ::
      if x == id then Saved(rows[x], Live(View(rows[x]), booted))
      else if rows[x].project == project then Saved(rows[x], View(rows[x]).(production := false))
      else rows[x]
  }

  /** The row goes, and the foreign key of rollback requests that named it is cleared. */
  function DeletedRows(rows: Rows, id: string): Rows {
    map x | x in rows && x != id ::
      if rows[x].rollbackTo == id then rows[x].(rollbackTo := "") else rows[x]
  }

  ghost function Verdict(rows: Rows, op: Op): Outcome {
    match op
    case Create(_, _, _, _, traffic, _, _, known) =>
      if !(0 <= traffic <= 100) then BadRequest else if known then Accepted else Unprocessable
    case SetRollout(project, id, pct) =>
      if !Has(rows, project, id) then NotFound else if 0 <= pct <= 100 then Accepted else BadRequest
    case SetChecks(project, id, _) => if Has(rows, project, id) then Accepted else NotFound
    case Promote(project, id, _) =>
      if !Has(rows, project, id) || rows[id].image == "" then NotFound
      else if ChecksPass(rows[id]) then Accepted else Conflict
    case Delete(project, id, stopped) =>
      if !Has(rows, project, id) then NotFound
      else if rows[id].production || rows[id].environment == "production" || !stopped then Conflict
      else Accepted
    case Reconcile(w, id) =>
      if id !in rows then NotFound
      else
        var n := Decide(w, rows, id, View(rows[id]));
        if n.Some? && !Admitted(w, n.value) then Refused else Accepted
  }

  ghost function Step(rows: Rows, op: Op): Rows {
    if Verdict(rows, op) != Accepted && Verdict(rows, op) != Unprocessable then rows
    else
      match op
      case Create(_, id, _, _, _, _, _, _) => Upsert(rows, id, NewDeployment(op))
      case SetRollout(_, id, pct) => Upsert(rows, id, View(rows[id]).(percent := pct))
      case SetChecks(_, id, cs) => Upsert(rows, id, View(rows[id]).(checks := cs))
      case Promote(project, id, booted) => PromotedRows(rows, project, id, booted)
      case Delete(_, id, _) => DeletedRows(rows, id)
      case Reconcile(w, id) => Reconciled(w, rows, id)
  }

  /** Ids are generated, so a created one is new; it asks to roll back to a sibling as soon as there is one. */
  ghost predicate Admissible(rows: Rows, op: Op) {
    op.Create? ==>
      && op.id !in rows
      && if Siblings(rows, op.project) == {} then op.rollbackTo == "" else op.rollbackTo in Siblings(rows, op.project)
  }

  // ---------------------------------------------------------------------------
  // Invariants of every run
  // ---------------------------------------------------------------------------

  ghost predicate Bounded(d: Deployment) {
    0 <= d.weight <= 100 && 0 <= d.percent <= 100 && (d.weight == 0 <==> d.percent == 0)
  }

  ghost predicate Serves(rows: Rows, x: string, p: string) {
    x in rows && rows[x].production && rows[x].project == p
  }

  ghost predicate AllBounded(rows: Rows) {
    forall x :: x in rows ==> Bounded(rows[x])
  }

  /** At most one production deployment in a project, and one exactly in the promoted projects. */
  ghost predicate OneProduction(rows: Rows, promoted: set<string>) {
    && (forall x, y, p :: Serves(rows, x, p) && Serves(rows, y, p) ==> x == y)
    && (forall x, p :: Serves(rows, x, p) ==> p in promoted)
    && (forall p :: p in promoted ==> exists x :: Serves(rows, x, p))
  }

  /** `promoted` are the projects that have seen a promotion. */
  ghost predicate Invariant(rows: Rows, promoted: set<string>) {
    AllBounded(rows) && OneProduction(rows, promoted) && Linked(rows)
  }

  ghost function Promotes(rows: Rows, op: Op): set<string> {
    if op.Promote? && Verdict(rows, op) == Accepted then {op.project} else {}
  }

  lemma {:induction false} SameServers(rows: Rows, rows': Rows, promoted: set<string>)
    requires OneProduction(rows, promoted) && forall x, p :: Serves(rows', x, p) <==> Serves(rows, x, p)
    ensures OneProduction(rows', promoted)
  {
    hide Serves;
    forall p | p in promoted ensures exists x :: Serves(rows', x, p) {
      var x :| Serves(rows, x, p);
      assert Serves(rows', x, p);
    }
  }

  /** The step changes one row only, keeps its project and its production flag. */
  lemma {:induction false} OneRowStep(rows: Rows, rows': Rows, id: string, promoted: set<string>)
    requires Invariant(rows, promoted) && id in rows' && rows'.Keys == rows.Keys + {id} && Bounded(rows'[id])
    requires forall x :: x in rows && x != id ==> rows'[x] == rows[x]
    requires id in rows ==> rows'[id].project == rows[id].project && rows'[id].production == rows[id].production
    requires id !in rows ==> !rows'[id].production
    requires rows'[id].rollbackTo == "" || Has(rows, rows'[id].project, rows'[id].rollbackTo)
    ensures Invariant(rows', promoted)
  {
    hide OneProduction, Bounded;
    SameServers(rows, rows', promoted);
    LinkedAfter(rows, rows', id);
  }

  lemma {:induction false} LinkedAfter(rows: Rows, rows': Rows, id: string)
    requires Linked(rows) && id in rows' && rows'.Keys == rows.Keys + {id}
    requires forall x :: x in rows && x != id ==> rows'[x] == rows[x]
    requires id in rows ==> rows'[id].project == rows[id].project
    requires rows'[id].rollbackTo == "" || Has(rows, rows'[id].project, rows'[id].rollbackTo)
    ensures Linked(rows')
  {
  }

  lemma {:induction false} ReconcileBounded(w: World, rows: Rows, id: string)
    requires id in rows && AllBounded(rows)
    ensures Bounded(Reconciled(w, rows, id)[id])
    ensures Reconciled(w, rows, id)[id].production == rows[id].production
    ensures Reconciled(w, rows, id)[id].project == rows[id].project
    ensures var request := Reconciled(w, rows, id)[id].rollbackTo; request == "" || request == rows[id].rollbackTo
  {
    hide Running, VmIDs, Desired;
    var d := View(rows[id]);
    if d.rollbackTo == "" && PhaseOf(d) == Rolling {
      RollingWeight(w, id, d);
    }
  }

  lemma {:induction false} PromoteServers(rows: Rows, project: string, id: string, booted: seq<string>, x: string,
                                          p: string)
    requires Has(rows, project, id)
    ensures Serves(PromotedRows(rows, project, id, booted), x, p) <==>
            if p == project then x == id else Serves(rows, x, p)
  {
  }

  lemma {:induction false} PromoteBounded(rows: Rows, project: string, id: string, booted: seq<string>)
    requires AllBounded(rows) && Has(rows, project, id)
    ensures AllBounded(PromotedRows(rows, project, id, booted))
  {
  }

  lemma {:induction false} PromoteLinked(rows: Rows, project: string, id: string, booted: seq<string>)
    requires Linked(rows) && Has(rows, project, id)
    ensures Linked(PromotedRows(rows, project, id, booted))
  {
    var rows' := PromotedRows(rows, project, id, booted);
    forall x | x in rows' ensures rows'[x].rollbackTo == rows[x].rollbackTo && rows'[x].project == rows[x].project {
    }
  }

  lemma {:induction false} PromoteKeeps(rows: Rows, project: string, id: string, booted: seq<string>,
                                        promoted: set<string>)
    requires Invariant(rows, promoted) && Has(rows, project, id)
    ensures Invariant(PromotedRows(rows, project, id, booted), promoted + {project})
  {
    hide PromotedRows, Serves, AllBounded, Linked;
    var rows' := PromotedRows(rows, project, id, booted);
    PromoteLinked(rows, project, id, booted);
    PromoteBounded(rows, project, id, booted);
    forall x, p ensures Serves(rows', x, p) <==> if p == project then x == id else Serves(rows, x, p) {
      PromoteServers(rows, project, id, booted, x, p);
    }
    forall p | p in promoted + {project} ensures exists x :: Serves(rows', x, p) {
      if p == project {
        assert Serves(rows', id, p);
      } else {
        var x :| Serves(rows, x, p);
        assert Serves(rows', x, p);
      }
    }
  }

  lemma {:induction false} DeleteKeeps(rows: Rows, id: string, promoted: set<string>)
    requires Invariant(rows, promoted) && id in rows && !rows[id].production
    ensures Invariant(DeletedRows(rows, id), promoted)
  {
    hide OneProduction;
    SameServers(rows, DeletedRows(rows, id), promoted);
  }

  lemma {:induction false} StepKeeps(rows: Rows, op: Op, promoted: set<string>)
    requires Invariant(rows, promoted) && Admissible(rows, op)
    ensures Invariant(Step(rows, op), promoted + Promotes(rows, op))
  {
    hide Decide, Reconciled, PromotedRows, DeletedRows, ChecksPass, OneProduction, Upsert, Linked, AllBounded;
    assert promoted + {} == promoted;
    if Verdict(rows, op) == Accepted || Verdict(rows, op) == Unprocessable {
      match op
      case Promote(project, id, booted) => PromoteKeeps(rows, project, id, booted, promoted);
      case Delete(_, id, _) => DeleteKeeps(rows, id, promoted);
      case Reconcile(w, id) =>
        ReconcileKeeps(w, rows, id, promoted);
      case _ => SaveKeeps(rows, op, promoted);
    }
  }

  /** Creations, percentages and checks save one row. */
  lemma {:induction false} SaveKeeps(rows: Rows, op: Op, promoted: set<string>)
    requires Invariant(rows, promoted) && Admissible(rows, op) && (op.Create? || op.SetRollout? || op.SetChecks?)
    requires Verdict(rows, op) == Accepted || Verdict(rows, op) == Unprocessable
    ensures Invariant(Step(rows, op), promoted)
  {
    hide Decide, Reconciled, PromotedRows, DeletedRows, ChecksPass, OneProduction;
    OneRowStep(rows, Step(rows, op), op.id, promoted);
  }

  lemma {:induction false} ReconcileKeeps(w: World, rows: Rows, id: string, promoted: set<string>)
    requires Invariant(rows, promoted) && id in rows
    ensures Invariant(Reconciled(w, rows, id), promoted)
  {
    hide Reconciled, OneProduction;
    ReconcileBounded(w, rows, id);
    StaysIn(w, rows, id);
    ReconcileKeys(w, rows, id);
    OneRowStep(rows, Reconciled(w, rows, id), id, promoted);
  }

  lemma {:induction false} ReconcileKeys(w: World, rows: Rows, id: string)
    requires id in rows
    ensures Reconciled(w, rows, id).Keys == rows.Keys + {id}
  {
  }

  ghost function Run(ops: seq<Op>): Rows {
    if ops == [] then map[] else Step(Run(ops[..|ops| - 1]), ops[|ops| - 1])
  }

  ghost function PromotedBy(ops: seq<Op>): set<string> {
    if ops == [] then {}
    else PromotedBy(ops[..|ops| - 1]) + Promotes(Run(ops[..|ops| - 1]), ops[|ops| - 1])
  }

  ghost predicate AdmissibleRun(ops: seq<Op>) {
    forall i :: 0 <= i < |ops| ==> Admissible(Run(ops[..i]), ops[i])
  }

  /**
    Over every run of creations, rollouts, checks, promotions, deletions and reconcile
    steps: both weights stay in 0..100, no project has two production deployments, a
    project has exactly one precisely from its first promotion on, and every pending
    rollback request names a deployment of its own project.
   */
  lemma {:induction false} EveryRun(ops: seq<Op>)
    requires AdmissibleRun(ops)
    ensures Invariant(Run(ops), PromotedBy(ops))
  {
    if ops != [] {
      var init := ops[..|ops| - 1];
      forall i | 0 <= i < |init| ensures Admissible(Run(init[..i]), init[i]) {
        assert init[..i] == ops[..i];
      }
      EveryRun(init);
      StepKeeps(Run(init), ops[|ops| - 1], PromotedBy(init));
    }
  }

  /**
    A rollback request is honoured in one step exactly when the database admits the status
    it writes: the record takes the image, environment and weight of the named sibling and
    keeps its own identity, pool, checks and production flag.  Otherwise it stays as it is,
    request included.
   */
  lemma {:induction false} RollbackRestores(w: World, rows: Rows, id: string)
    requires id in rows && rows[id].rollbackTo != "" && AllBounded(rows) && Linked(rows)
    ensures var d, d', t := rows[id], Reconciled(w, rows, id)[id], rows[rows[id].rollbackTo];
            && (w.admitsCompleted <==> d'.rollbackTo == "")
            && (w.admitsCompleted ==>
                && d'.project == d.project && d'.production == d.production
                && d'.vmIDs == d.vmIDs && d'.checks == d.checks
                && d'.image == t.image && d'.status == "completed"
                && d'.environment == View(t).environment
                && d'.weight == if t.weight == 0 then d.percent else t.weight)
            && (!w.admitsCompleted ==> Reconciled(w, rows, id) == rows)
  {
  }

  /**
    Creating a deployment in a project that has one asks for a rollback at once, so its
    first reconcile keeps the image it was created with exactly when the named sibling has
    the same image or the database refuses the rollback.
   */
  lemma {:induction false} CreatedImageSurvives(w: World, rows: Rows, op: Op)
    requires op.Create? && Admissible(rows, op) && Verdict(rows, op) == Accepted && op.rollbackTo != ""
    ensures op.rollbackTo in Siblings(rows, op.project)
    ensures Reconciled(w, Step(rows, op), op.id)[op.id].image == op.image <==>
            rows[op.rollbackTo].image == op.image || !w.admitsCompleted
  {
    var made := Step(rows, op);
    assert made[op.id].image == op.image && made[op.id].rollbackTo == op.rollbackTo;
    assert Has(made, op.project, op.rollbackTo) && made[op.rollbackTo] == rows[op.rollbackTo];
  }

  /** What a row can be when the CHECK of the shipped schema holds: never rolling, promoting or ready. */
  ghost predicate Plain(d: Deployment) {
    d.status == "ready" || d.status == "failed" || d.status == "live"
  }

  ghost predicate ShippedCheck(ops: seq<Op>) {
    forall i :: 0 <= i < |ops| && ops[i].Reconcile? ==> !ops[i].world.admitsCompleted
  }

  lemma {:induction false} StepPlain(rows: Rows, op: Op)
    requires (forall x :: x in rows ==> Plain(rows[x])) && (op.Reconcile? ==> !op.world.admitsCompleted)
    ensures forall x :: x in Step(rows, op) ==> Plain(Step(rows, op)[x])
  {
    hide Decide, DecidedRows, ChecksPass;
    if op.Reconcile? && op.id in rows {
      DecidePlain(op.world, rows, op.id);
    }
  }

  lemma {:induction false} DecidePlain(w: World, rows: Rows, id: string)
    requires id in rows && Plain(rows[id]) && !w.admitsCompleted
    ensures DecidedRows(w, rows, id, View(rows[id])).Keys == rows.Keys
    ensures Plain(DecidedRows(w, rows, id, View(rows[id]))[id])
    ensures forall x :: x in rows && x != id ==> DecidedRows(w, rows, id, View(rows[id]))[x] == rows[x]
  {
    hide Rolled;
  }

  /**
    Under the CHECK of the shipped schema no run ever stores a completed deployment, so
    every record stays in the building or the failed phase: no rollback is honoured, no
    finished build is noticed and no weight is stepped by the reconciler.
   */
  lemma {:induction false} ShippedSchemaNeverRolls(ops: seq<Op>, x: string)
    requires ShippedCheck(ops) && x in Run(ops)
    ensures PhaseOf(View(Run(ops)[x])) == Building || PhaseOf(View(Run(ops)[x])) == Failed
  {
    RunPlain(ops);
  }

  lemma {:induction false} RunPlain(ops: seq<Op>)
    requires ShippedCheck(ops)
    ensures forall x :: x in Run(ops) ==> Plain(Run(ops)[x])
  {
    hide Plain, Step;
    if ops != [] {
      RunPlain(ops[..|ops| - 1]);
      StepPlain(Run(ops[..|ops| - 1]), ops[|ops| - 1]);
    }
  }

  // ---------------------------------------------------------------------------
  // What each operation leaves, field by field
  // ---------------------------------------------------------------------------

  /** Every record but one is as before, and none has come or gone. */
  ghost predicate OnlyAt(rows: Rows, rows': Rows, id: string) {
    rows'.Keys == rows.Keys && forall x :: x in rows && x != id ==> rows'[x] == rows[x]
  }

  /** A record as saving it again leaves it: an empty environment is filled in. */
  ghost function Resaved(d: Deployment): Deployment {
    d.(environment := if d.environment == "" then "preview" else d.environment)
  }

  /**
    A record that waits for its build: nothing happens without a finished or failed build, a
    failed one marks it failed, and a finished one marks it completed and brings its image,
    where the database admits that status.
   */
  lemma {:induction false} BuildingPass(w: World, rows: Rows, id: string)
    requires id in rows && Bounded(rows[id]) && rows[id].rollbackTo == ""
    requires rows[id].status != "failed" && rows[id].status != "completed" && rows[id].status != "success"
    ensures var d, rows' := rows[id], Reconciled(w, rows, id);
            && OnlyAt(rows, rows', id)
            && (id !in w.builds ==> rows' == rows)
            && (id in w.builds ==>
                  var b := w.builds[id];
                  if b.status == "failed" then rows'[id] == Resaved(d).(status := "failed")
                  else if b.status == "completed" || b.status == "success" then
                    if !w.admitsCompleted then rows' == rows
                    else
                      var image := if b.image != "" then b.image else d.image;
                      rows'[id] == Resaved(d).(status := "completed", image := image)
                  else rows' == rows)
  {
  }

  /** A failed record stays failed. */
  lemma {:induction false} FailedPass(w: World, rows: Rows, id: string)
    requires id in rows && Bounded(rows[id]) && rows[id].rollbackTo == "" && rows[id].status == "failed"
    ensures OnlyAt(rows, Reconciled(w, rows, id), id) && Reconciled(w, rows, id)[id] == Resaved(rows[id])
  {
  }

  /**
    A finished record, where the database admits it: strictly between 0 and 100 it records
    the pool and takes the running share, or all of the route once enough replicas run; a
    production record at 100 is saved at 100; any other is left alone.
   */
  lemma {:induction false} FinishedPass(w: World, rows: Rows, id: string)
    requires id in rows && Bounded(rows[id]) && rows[id].rollbackTo == ""
    requires rows[id].status == "success" || (rows[id].status == "completed" && w.admitsCompleted)
    ensures var d, rows' := rows[id], Reconciled(w, rows, id);
            var running, pool := Running(w.replicas, d.project, id), VmIDs(w.replicas, d.project, id);
            var desired :=
              if d.project in w.desired && w.desired[d.project] > 0 then w.desired[d.project]
              else if d.vmIDs == [] then 1 else |d.vmIDs|;
            && OnlyAt(rows, rows', id)
            && (0 < d.weight < 100 && running >= desired ==>
                  rows'[id] == Resaved(d).(vmIDs := pool, weight := 100, percent := 100))
            && (0 < d.weight < 100 && running < desired ==>
                  var share := running * 100 / desired;
                  rows'[id] == Resaved(d).(vmIDs := pool, weight := share,
                                           percent := if share == d.weight then d.percent else share))
            && (d.weight == 100 && d.production ==> rows'[id] == Resaved(d).(percent := 100))
            && (d.weight == 0 || (d.weight == 100 && !d.production) ==> rows' == rows)
  {
    hide Running, VmIDs;
    var d := View(rows[id]);
    if PhaseOf(d) == Rolling {
      RollingWeight(w, id, d);
    }
  }

  /** Where the database refuses the status, a completed record is left alone. */
  lemma {:induction false} RefusedPass(w: World, rows: Rows, id: string)
    requires id in rows && rows[id].rollbackTo == "" && rows[id].status == "completed" && !w.admitsCompleted
    ensures Reconciled(w, rows, id) == rows
  {
    hide Running, VmIDs, Desired;
  }

  /** The running count counts the deployment's running replicas, one by one from the front. */
  lemma {:induction false} RunningCounts(r: Replica, replicas: seq<Replica>, project: string, id: string)
    ensures Running([], project, id) == 0
    ensures Running([r] + replicas, project, id) ==
            (if r.project == project && r.deployment == id && r.running then 1 else 0) + Running(replicas, project, id)
    decreases |replicas|
  {
    var all := [r] + replicas;
    if replicas == [] {
      assert all == [r] && [r][..0] == [];
    } else {
      assert all[..|all| - 1] == [r] + replicas[..|replicas| - 1];
      RunningCounts(r, replicas[..|replicas| - 1], project, id);
    }
  }

  /** The pool lists the deployment's replicas, running or not, in order. */
  lemma {:induction false} PoolLists(r: Replica, replicas: seq<Replica>, project: string, id: string)
    ensures VmIDs([], project, id) == []
    ensures VmIDs([r] + replicas, project, id) ==
            (if r.project == project && r.deployment == id then [r.id] else []) + VmIDs(replicas, project, id)
    decreases |replicas|
  {
    var all := [r] + replicas;
    if replicas == [] {
      assert all == [r] && [r][..0] == [];
    } else {
      assert all[..|all| - 1] == [r] + replicas[..|replicas| - 1];
      PoolLists(r, replicas[..|replicas| - 1], project, id);
    }
  }

  /** A creation that is not refused adds one preview record with the percentage it asks for. */
  lemma {:induction false} CreateLeaves(rows: Rows, op: Op)
    requires op.Create? && op.id !in rows
    ensures Verdict(rows, op) == BadRequest <==> op.traffic < 0 || op.traffic > 100
    ensures Verdict(rows, op) == Unprocessable <==> 0 <= op.traffic <= 100 && !op.imageKnown
    ensures op.traffic < 0 || op.traffic > 100 ==> Step(rows, op) == rows
    ensures 0 <= op.traffic <= 100 ==>
              var status, pool := if op.imageKnown then "ready" else "failed", if op.imageKnown then op.vmIDs else [];
              Step(rows, op) == rows[op.id := Deployment(op.project, status, op.image, op.guestBase, "preview", false,
                                                         op.traffic, op.traffic, op.rollbackTo, pool, [])]
  {
  }

  /** Setting a percentage or the checks changes nothing else of a reachable record. */
  lemma {:induction false} SettingsLeave(rows: Rows, op: Op)
    requires op.SetRollout? || op.SetChecks?
    requires op.id in rows ==> Bounded(rows[op.id])
    ensures op.id !in rows || rows[op.id].project != op.project ==> Verdict(rows, op) == NotFound
    ensures Verdict(rows, op) != Accepted ==> Step(rows, op) == rows
    ensures Verdict(rows, op) == Accepted ==>
              var d, d' := rows[op.id], Step(rows, op)[op.id];
              && OnlyAt(rows, Step(rows, op), op.id)
              && (op.SetChecks? ==> d' == Resaved(d).(checks := op.required))
              && (op.SetRollout? ==>
                    && 0 <= op.pct <= 100
                    && d' == Resaved(d).(weight := if d.weight == 0 then op.pct else d.weight,
                                         percent := if op.pct == 0 then d.weight else op.pct))
  {
  }

  /** Promotion: the target becomes the live production record, its siblings lose the flag, nobody else changes. */
  lemma {:induction false} PromoteLeaves(rows: Rows, op: Op, x: string)
    requires op.Promote? && AllBounded(rows) && x in rows
    ensures Verdict(rows, op) == NotFound <==>
            op.id !in rows || rows[op.id].project != op.project || rows[op.id].image == ""
    ensures Verdict(rows, op) == Conflict <==>
            (&& op.id in rows && rows[op.id].project == op.project && rows[op.id].image != ""
             && exists i :: 0 <= i < |rows[op.id].checks| && rows[op.id].checks[i].status != "passed")
    ensures Verdict(rows, op) != Accepted ==> Step(rows, op) == rows
    ensures Verdict(rows, op) == Accepted ==>
              var d, rows' := rows[x], Step(rows, op);
              && rows'.Keys == rows.Keys
              && (d.project != op.project ==> rows'[x] == d)
              && (d.project == op.project && x != op.id ==> rows'[x] == Resaved(d).(production := false))
              && (x == op.id ==>
                    rows'[x] == d.(status := "live", production := true, environment := "production",
                                   weight := 100, percent := 100,
                                   vmIDs := if d.vmIDs == [] then op.booted else d.vmIDs))
  {
  }

  /** Deletion: refused for production records and while a VM will not stop; otherwise one row goes. */
  lemma {:induction false} DeleteLeaves(rows: Rows, op: Op)
    requires op.Delete?
    ensures Verdict(rows, op) == NotFound <==> op.id !in rows || rows[op.id].project != op.project
    ensures Verdict(rows, op) == Conflict <==>
            (&& op.id in rows && rows[op.id].project == op.project
             && (rows[op.id].production || rows[op.id].environment == "production" || !op.stopped))
    ensures Verdict(rows, op) != Accepted ==> Step(rows, op) == rows
    ensures Verdict(rows, op) == Accepted ==>
              var rows' := Step(rows, op);
              && rows'.Keys == rows.Keys - {op.id}
              && forall x :: x in rows' ==>
                   rows'[x] == if rows[x].rollbackTo == op.id then rows[x].(rollbackTo := "") else rows[x]
  {
  }

  /** The upsert: a missing weight is filled in from the other, and an existing row keeps project and guest base. */
  lemma {:induction false} UpsertLeaves(rows: Rows, id: string, d: Deployment)
    ensures var d' := Upsert(rows, id, d)[id];
            && (forall x :: x in rows && x != id ==> Upsert(rows, id, d)[x] == rows[x])
            && Upsert(rows, id, d).Keys == rows.Keys + {id}
            && d'.weight == (if d.weight != 0 then d.weight else d.percent)
            && d'.percent == (if d.percent != 0 then d.percent else d.weight)
            && d'.project == (if id in rows then rows[id].project else d.project)
            && d'.guestBase == (if id in rows then rows[id].guestBase else d.guestBase)
            && d' == d.(weight := d'.weight, percent := d'.percent, project := d'.project, guestBase := d'.guestBase)
  {
  }

  /**
    Promotion routes everything to the target but takes nothing away: a sibling, the
    previous production record included, is left without weight exactly when it had none.
   */
  lemma {:induction false} PromotionKeepsOldWeights(rows: Rows, op: Op, x: string)
    requires op.Promote? && Verdict(rows, op) == Accepted && AllBounded(rows) && x in rows
    ensures var d, d' := rows[x], Step(rows, op)[x];
            && (x == op.id ==> d'.production && d'.weight == 100 == d'.percent && d'.status == "live")
            && (x != op.id && d.project == op.project ==>
                  !d'.production && d'.weight == d.weight && d'.percent == d.percent && d'.image == d.image &&
                  d'.vmIDs == d.vmIDs && (d'.weight == 0 <==> d.weight == 0))
            && (d.project != op.project ==> d' == d)
  {
  }

  /**
    Setting a percentage on a reachable record sticks exactly when it is not zero or
    nothing is routed: zero over a routed record is filled in again from the weight.
   */
  lemma {:induction false} RolloutSticks(rows: Rows, op: Op)
    requires op.SetRollout? && Verdict(rows, op) == Accepted && Bounded(rows[op.id])
    ensures Step(rows, op)[op.id].percent == op.pct <==> op.pct != 0 || rows[op.id].weight == 0
    ensures Step(rows, op)[op.id].weight == if rows[op.id].weight == 0 then op.pct else rows[op.id].weight
  {
  }

  // ---------------------------------------------------------------------------
  // The control plane
  // ---------------------------------------------------------------------------

  lemma {:induction false} RunningSnoc(replicas: seq<Replica>, i: nat, project: string, id: string)
    requires i < |replicas|
    ensures var r := replicas[i];
            && Running(replicas[..i + 1], project, id) ==
                 Running(replicas[..i], project, id) +
                 (if r.project == project && r.deployment == id && r.running then 1 else 0)
            && VmIDs(replicas[..i + 1], project, id) ==
                 VmIDs(replicas[..i], project, id) + (if r.project == project && r.deployment == id then [r.id] else [])
  {
    assert replicas[..i + 1][..i] == replicas[..i];
  }

  lemma {:induction false} SavedKeeps(row: Deployment, d: Deployment)
    ensures Saved(row, d).project == row.project && Saved(row, d).guestBase == row.guestBase
  {
  }

  lemma {:induction false} SavedSame(a: Deployment, b: Deployment, d: Deployment)
    requires a.project == b.project && a.guestBase == b.guestBase
    ensures Saved(a, d) == Saved(b, d)
  {
  }

  /**
    One turn of the promotion loop.  The original goes on to zero the weight of the
    previous production record, but tests the flag it has just cleared.
   */
  function Marked(d: Deployment, isTarget: bool): Deployment {
    var m := d.(production := isTarget);
    if isTarget then m.(environment := "production", weight := 100, percent := 100, status := "live")
    else if m.production then m.(weight := 0, production := false)
    else m
  }

  function Rewritten(rows: Rows, done: set<string>, id: string): Rows {
    map x | x in rows :: if x in done then Saved(rows[x], Marked(View(rows[x]), x == id)) else rows[x]
  }

  /** Saving the target once more after the loop gives the promoted table. */
  lemma {:induction false} TargetLast(rows: Rows, project: string, id: string, booted: seq<string>)
    requires Has(rows, project, id)
    ensures Upsert(Rewritten(rows, Siblings(rows, project), id), id, Live(View(rows[id]), booted)) ==
            PromotedRows(rows, project, id, booted)
  {
    hide View, Normalise;
    var r := Rewritten(rows, Siblings(rows, project), id);
    SavedKeeps(rows[id], Marked(View(rows[id]), true));
    SavedSame(r[id], rows[id], Live(View(rows[id]), booted));
  }

  method AllChecksPassed(d: Deployment) returns (ok: bool)
    ensures ok <==> ChecksPass(d)
  {
    var i := 0;
    while i < |d.checks|
      invariant 0 <= i <= |d.checks|
      invariant forall j :: 0 <= j < i ==> d.checks[j].status == "passed"
    {
      if d.checks[i].status != "passed" {
        return false;
      }
      i := i + 1;
    }
    return true;
  }

  /** What reconciling a deployment as listed answers and leaves, phase by phase and field by field. */
  ghost predicate ReconcileLeaves(w: World, rows: Rows, id: string, d: Deployment, r: Outcome, rows': Rows) {
    && (d.rollbackTo == "" && d.status !in {"failed", "completed", "success"} ==>
        if id in w.builds && w.builds[id].status == "failed" then
          r == Accepted && rows' == Upsert(rows, id, d.(status := "failed"))
        else if id in w.builds && w.builds[id].status in {"completed", "success"} then
          var image := if w.builds[id].image != "" then w.builds[id].image else d.image;
          if w.admitsCompleted then
            r == Accepted && rows' == Upsert(rows, id, d.(status := "completed", image := image))
          else r == Refused && rows' == rows
        else r == Accepted && rows' == rows)
    && (d.rollbackTo == "" && d.status == "failed" ==> r == Accepted && rows' == Upsert(rows, id, d))
    && (d.rollbackTo == "" && d.status in {"completed", "success"} && !(0 < d.weight < 100) ==>
        if d.production && d.weight == 100 then
          if d.status == "completed" && !w.admitsCompleted then r == Refused && rows' == rows
          else r == Accepted && rows' == Upsert(rows, id, d.(weight := 100, percent := 100))
        else r == Accepted && rows' == rows)
    && (d.rollbackTo != "" && !(d.rollbackTo in rows && rows[d.rollbackTo].project == d.project) ==>
        if d.status == "completed" && !w.admitsCompleted then r == Refused && rows' == rows
        else r == Accepted && rows' == Upsert(rows, id, d.(rollbackTo := "")))
    && (d.rollbackTo != "" && d.rollbackTo in rows && rows[d.rollbackTo].project == d.project ==>
        var t := rows[d.rollbackTo];
        var n := d.(image := t.image, status := "completed", rollbackTo := "",
                    weight := if t.weight == 0 then t.percent else t.weight,
                    environment := if t.environment == "" then "preview" else t.environment,
                    guestBase := if t.guestBase == "" then "alpine" else t.guestBase);
        if w.admitsCompleted then r == Accepted && rows' == Upsert(rows, id, n)
        else r == Refused && rows' == rows)
  }

  class ControlPlane {
    var rows: Rows

    constructor ()
      ensures rows == map[]
    {
      rows := map[];
    }

    method CreateDeployment(id: string, d: Deployment)
      modifies this
      ensures rows == Upsert(old(rows), id, d)
    {
      var n := d;
      if n.weight == 0 && n.percent != 0 {
        n := n.(weight := n.percent);
      }
      if n.percent == 0 {
        n := n.(percent := n.weight);
      }
      if id in rows {
        n := n.(project := rows[id].project, guestBase := rows[id].guestBase);
      }
      rows := rows[id := n];
    }

    method HandleCreate(op: Op) returns (r: Outcome)
      requires op.Create? && Admissible(rows, op)
      modifies this
      ensures r == Verdict(old(rows), op) && rows == Step(old(rows), op)
    {
      if op.traffic < 0 || op.traffic > 100 {
        return BadRequest;
      }
      var d := Deployment(op.project, "preview", op.image, op.guestBase, "preview", false, op.traffic, op.traffic,
                          op.rollbackTo, [], []);
      CreateDeployment(op.id, d);
      if !op.imageKnown {
        d := d.(status := "failed");
        CreateDeployment(op.id, d);
        assert rows[op.id] == Upsert(old(rows), op.id, NewDeployment(op))[op.id];
        return Unprocessable;
      }
      d := d.(vmIDs := op.vmIDs, status := "ready");
      CreateDeployment(op.id, d);
      assert rows[op.id] == Upsert(old(rows), op.id, NewDeployment(op))[op.id];
      return Accepted;
    }

    method HandleSetRollout(op: Op) returns (r: Outcome)
      requires op.SetRollout?
      modifies this
      ensures r == Verdict(old(rows), op) && rows == Step(old(rows), op)
    {
      if !Has(rows, op.project, op.id) {
        return NotFound;
      }
      if op.pct < 0 || op.pct > 100 {
        return BadRequest;
      }
      CreateDeployment(op.id, View(rows[op.id]).(percent := op.pct));
      return Accepted;
    }

    method HandleSetChecks(op: Op) returns (r: Outcome)
      requires op.SetChecks?
      modifies this
      ensures r == Verdict(old(rows), op) && rows == Step(old(rows), op)
    {
      if !Has(rows, op.project, op.id) {
        return NotFound;
      }
      CreateDeployment(op.id, View(rows[op.id]).(checks := op.required));
      return Accepted;
    }

    /** The promotion loop: every deployment of the project is marked and saved. */
    method RewriteSiblings(project: string, id: string)
      modifies this
      ensures rows == Rewritten(old(rows), Siblings(old(rows), project), id)
    {
      hide Saved, Marked;
      var left := Siblings(rows, project);
      while left != {}
        invariant left <= Siblings(old(rows), project)
        invariant rows == Rewritten(old(rows), Siblings(old(rows), project) - left, id)
      {
        var x :| x in left;
        CreateDeployment(x, Marked(View(rows[x]), x == id));
        left := left - {x};
      }
    }

    /** Flips production to the target: every sibling is rewritten, the target last. */
    method HandlePromote(op: Op) returns (r: Outcome)
      requires op.Promote?
      modifies this
      ensures r == Verdict(old(rows), op) && rows == Step(old(rows), op)
    {
      if !Has(rows, op.project, op.id) || View(rows[op.id]).image == "" {
        return NotFound;
      }
      var target := View(rows[op.id]);
      var passed := AllChecksPassed(target);
      if !passed {
        return Conflict;
      }
      hide ChecksPass, PromotedRows;
      if target.vmIDs == [] {
        target := target.(vmIDs := op.booted);
      }
      RewriteSiblings(op.project, op.id);
      target := target.(status := "live", production := true, environment := "production");
      target := target.(weight := 100, percent := 100);
      CreateDeployment(op.id, target);
      TargetLast(old(rows), op.project, op.id, op.booted);
      return Accepted;
    }

    method HandleDelete(op: Op) returns (r: Outcome)
      requires op.Delete?
      modifies this
      ensures r == Verdict(old(rows), op) && rows == Step(old(rows), op)
    {
      if !Has(rows, op.project, op.id) {
        return NotFound;
      }
      var d := View(rows[op.id]);
      if d.production || d.environment == "production" {
        return Conflict;
      }
      if !op.stopped {
        return Conflict;
      }
      rows := DeletedRows(rows, op.id);
      return Accepted;
    }

    /** The database answers the save. */
    method UpdateStatus(w: World, id: string, d: Deployment) returns (r: Outcome)
      modifies this
      ensures r == if Admitted(w, d) then Accepted else Refused
      ensures rows == if Admitted(w, d) then Upsert(old(rows), id, d) else old(rows)
    {
      if d.status == "completed" && !w.admitsCompleted {
        return Refused;
      }
      CreateDeployment(id, d);
      return Accepted;
    }

    method ReconcileRolling(w: World, id: string, d: Deployment) returns (r: Outcome)
      modifies this
      ensures var n := Rolled(w, id, d);
              && r == (if Admitted(w, n) then Accepted else Refused)
              && rows == if Admitted(w, n) then Upsert(old(rows), id, n) else old(rows)
      ensures var running, pool := Running(w.replicas, d.project, id), VmIDs(w.replicas, d.project, id);
              var desired :=
                if d.project in w.desired && w.desired[d.project] > 0 then w.desired[d.project]
                else if d.vmIDs == [] then 1 else |d.vmIDs|;
              var share := if running >= desired then 100 else running * 100 / desired;
              var percent := if running < desired && share == d.weight then d.percent else share;
              if d.status == "completed" && !w.admitsCompleted then r == Refused && rows == old(rows)
              else r == Accepted &&
                   rows == Upsert(old(rows), id, d.(vmIDs := pool, weight := share, percent := percent))
    {
      hide Upsert;
      var running, vmIDs := 0, [];
      var i := 0;
      while i < |w.replicas|
        invariant 0 <= i <= |w.replicas| && rows == old(rows)
        invariant running == Running(w.replicas[..i], d.project, id)
        invariant vmIDs == VmIDs(w.replicas[..i], d.project, id)
      {
        RunningSnoc(w.replicas, i, d.project, id);
        var vm := w.replicas[i];
        if vm.project == d.project && vm.deployment == id {
          if vm.running {
            running := running + 1;
          }
          vmIDs := vmIDs + [vm.id];
        }
        i := i + 1;
      }
      assert w.replicas[..i] == w.replicas;
      var desired := CopyCount(d);
      if d.project in w.desired && w.desired[d.project] > 0 {
        desired := w.desired[d.project];
      }
      var next := d.(vmIDs := vmIDs);
      if running >= desired {
        r := UpdateStatus(w, id, next.(weight := 100, percent := 100));
        return;
      }
      var share := running * 100 / desired;
      if share != d.weight {
        next := next.(weight := share, percent := share);
      }
      r := UpdateStatus(w, id, next);
    }

    /** Reconciles a deployment as it was listed, which the table may have left behind. */
    method Reconcile(w: World, id: string, d: Deployment) returns (r: Outcome)
      modifies this
      ensures rows == DecidedRows(w, old(rows), id, d)
      ensures var n := Decide(w, old(rows), id, d); r == if n.Some? && !Admitted(w, n.value) then Refused else Accepted
      ensures ReconcileLeaves(w, old(rows), id, d, r, rows)
    {
      hide Rolled, Upsert;
      r := Accepted;
      if d.rollbackTo != "" {
        r := UpdateStatus(w, id, RolledBack(rows, d));
      } else {
        match PhaseOf(d)
        case Building =>
          var b := Built(w, id, d);
          if b.Some? {
            r := UpdateStatus(w, id, b.value);
          }
        case Rolling => r := ReconcileRolling(w, id, d);
        case Promoting => r := UpdateStatus(w, id, Promoted(d));
        case Failed => r := UpdateStatus(w, id, d.(status := "failed"));
        case Ready =>
      }
    }

    method ReconcileOne(op: Op) returns (r: Outcome)
      requires op.Reconcile?
      modifies this
      ensures r == Verdict(old(rows), op) && rows == Step(old(rows), op)
    {
      hide Decide, Upsert, ReconcileLeaves;
      if op.id !in rows {
        return NotFound;
      }
      r := Reconcile(op.world, op.id, View(rows[op.id]));
    }

    /** One cycle: everything is listed first, then reconciled from the listing; an error does not stop it. */
    method ReconcileAll(w: World, ids: seq<string>)
      requires Lists(rows, ids)
      modifies this
      ensures rows == Pass(w, old(rows), ids)
    {
      hide Decide, Upsert, Pass, View, ReconcileLeaves;
      ghost var before := rows;
      var listed := map x | x in rows :: View(rows[x]);
      var i := 0;
      assert ids[0..] == ids;
      while i < |ids|
        invariant 0 <= i <= |ids| && rows.Keys == before.Keys
        invariant forall k :: i <= k < |ids| ==> rows[ids[k]] == before[ids[k]]
        invariant Pass(w, rows, ids[i..]) == Pass(w, before, ids)
      {
        assert ids[i] in before;
        ReconcileShape(w, rows, ids[i]);
        PassCons(w, rows, ids[i..]);
        assert ids[i..][1..] == ids[i + 1..];
        var outcome := Reconcile(w, ids[i], listed[ids[i]]);
        i := i + 1;
      }
      PassNil(w, rows);
      assert ids[i..] == [];
    }
  }

  lemma {:induction false} PassCons(w: World, rows: Rows, ids: seq<string>)
    requires ids != []
    ensures Pass(w, rows, ids) == Pass(w, Reconciled(w, rows, ids[0]), ids[1..])
  {
  }

  lemma {:induction false} PassNil(w: World, rows: Rows)
    ensures Pass(w, rows, []) == rows
  {
  }
}
