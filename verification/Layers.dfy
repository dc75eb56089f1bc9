/**
  Applying OCI layers to a root filesystem (backend/internal/buildkit/builder.go).

  The code walks the tar entries of each layer in order and edits one directory
  tree.  The reference is the declarative reading of the OCI Image Format
  Specification, "Image Layer Filesystem Changeset": a layer's own entries win, a
  whiteout or an opaque whiteout hides what lower layers put there, a symbolic link
  hides what was inside a directory it replaces, and everything else shows through.
  An entry whose way leads through a symbolic link acts wherever the link points, which
  may be outside the tree; the model stops at such an entry with an error of its own.
 */
module Layers {
  import opened Wrappers

  /** Cleaned names below the root, as component sequences; [] is the root itself. */
  type Path = seq<string>

  datatype Node = Dir | File(content: string) | Link(target: string)

  /** Every node but the root, which always exists. */
  type Tree = map<Path, Node>

  datatype Kind = TypeDir | TypeReg | TypeSymlink | TypeOther

  /** `data` is the content of a file or the target of a link. */
  datatype Entry = Entry(path: Path, kind: Kind, data: string)

  datatype Error = NotADirectory(path: Path) | IsADirectory(path: Path) | ThroughLink(path: Path)

  /** What one tar entry asks for. */
  datatype Change =
    | Skip
    | MakeDir(path: Path)
    | PutFile(path: Path, content: string)
    | PutLink(path: Path, target: string)
    | Whiteout(path: Path)
    | OpaqueDir(dir: Path)

  const WH := ".wh."
  const OPAQUE := ".wh..wh..opq"

  function ChangeOf(e: Entry): Change {
    if e.path == [] then Skip
    else
      var dir, base := e.path[..|e.path| - 1], e.path[|e.path| - 1];
      if WH <= base then
        if base == OPAQUE then OpaqueDir(dir) else Whiteout(dir + [base[|WH|..]])
      else
        match e.kind
        case TypeDir => MakeDir(e.path)
        case TypeReg => PutFile(e.path, e.data)
        case TypeSymlink => PutLink(e.path, e.data)
        case TypeOther => Skip
  }

  /** A whiteout must name an entry of its directory. */
  predicate WellNamed(e: Entry) {
    e.path == [] ||
    (var base := e.path[|e.path| - 1];
     WH <= base ==> base[|WH|..] != "" && base[|WH|..] != "." && base[|WH|..] != "..")
  }

  // ---------------------------------------------------------------------------
  // Declarative overlay
  // ---------------------------------------------------------------------------

  /** The last component of an entry's name, and the directory before it. */
  ghost function BaseOf(e: Entry): string
    requires e.path != []
  {
    e.path[|e.path| - 1]
  }

  ghost function DirOf(e: Entry): Path
    requires e.path != []
  {
    e.path[..|e.path| - 1]
  }

  /** The node an entry puts at `p`: the entry itself, or a directory leading to it. */
  ghost function Adds(e: Entry, p: Path): Option<Node> {
    if e.path == [] || ".wh." <= BaseOf(e) || p == [] || !(p <= e.path) then None
    else
      match e.kind
      case TypeDir => Some(Dir)
      case TypeReg => Some(if p == e.path then File(e.data) else Dir)
      case TypeSymlink => Some(if p == e.path then Link(e.data) else Dir)
      case TypeOther => None
  }

  /** What an entry hides of the layers below. */
  ghost predicate Hides(e: Entry, p: Path) {
    && e.path != []
    && if BaseOf(e) == ".wh..wh..opq" then DirOf(e) <= p && p != DirOf(e)
       else if ".wh." <= BaseOf(e) then DirOf(e) + [BaseOf(e)[4..]] <= p
       else e.kind == TypeSymlink && e.path <= p && p != e.path
  }

  ghost function LastAdd(layer: seq<Entry>, p: Path): Option<Node> {
    if layer == [] then None
    else
      var own := Adds(layer[|layer| - 1], p);
      if own.Some? then own else LastAdd(layer[..|layer| - 1], p)
  }

  ghost predicate HiddenBy(layer: seq<Entry>, p: Path) {
    exists i :: 0 <= i < |layer| && Hides(layer[i], p)
  }

  ghost function Lookup(t: Tree, p: Path): Option<Node> {
    if p in t then Some(t[p]) else None
  }

  /** One layer over what is below it, at one path; the order of entries does not matter. */
  ghost function OverlayAt(layer: seq<Entry>, below: Option<Node>, p: Path): Option<Node> {
    var own := LastAdd(layer, p);
    if own.Some? then own else if HiddenBy(layer, p) then None else below
  }

  ghost predicate IsOverlay(below: Tree, layer: seq<Entry>, t: Tree) {
    forall p :: Lookup(t, p) == OverlayAt(layer, Lookup(below, p), p)
  }

  /** The stack of layers, lowest first, over an empty root. */
  ghost function StackAt(layers: seq<seq<Entry>>, p: Path): Option<Node> {
    if layers == [] then None
    else OverlayAt(layers[|layers| - 1], StackAt(layers[..|layers| - 1], p), p)
  }

  ghost predicate IsStack(layers: seq<seq<Entry>>, t: Tree) {
    forall p :: Lookup(t, p) == StackAt(layers, p)
  }

  /** Whatever an entry adds and a later whiteout of the same layer covers is added again. */
  ghost predicate Ordered(layer: seq<Entry>) {
    forall i, j, p :: 0 <= i < j < |layer| && Adds(layer[i], p).Some? && Hides(layer[j], p) ==>
      AddedAfter(layer, j, p)
  }

  ghost predicate AddedAfter(layer: seq<Entry>, j: int, p: Path) {
    exists k :: j < k < |layer| && 0 <= k && Adds(layer[k], p).Some?
  }

  // ---------------------------------------------------------------------------
  // The tree after one entry
  // ---------------------------------------------------------------------------

  /** The root is not stored, and every node sits in a directory. */
  ghost predicate WellFormed(t: Tree) {
    && [] !in t
    && forall p :: p in t && |p| >= 2 ==> p[..|p| - 1] in t && t[p[..|p| - 1]] == Dir
  }

  predicate LeafAt(t: Tree, p: Path) {
    p in t && !t[p].Dir?
  }

  /** Some component of the path, the last one included, is a file or a link. */
  ghost predicate Blocked(t: Tree, p: Path) {
    exists k :: 1 <= k <= |p| && LeafAt(t, p[..k])
  }

  /** Some component of the path, the last one included, is a link. */
  predicate Linked(t: Tree, p: Path) {
    exists k :: 1 <= k <= |p| && p[..k] in t && t[p[..k]].Link?
  }

  /**
    Exactly when the operating system refuses, because of a file in the way or a file over a
    directory, or the entry leads through a link.
   */
  ghost predicate Conflict(t: Tree, c: Change) {
    match c
    case Skip => false
    case MakeDir(q) => Blocked(t, q)
    case PutFile(q, _) => q == [] || Blocked(t, q[..|q| - 1]) || (q in t && !t[q].File?)
    case PutLink(q, _) => q == [] || Blocked(t, q[..|q| - 1])
    case Whiteout(q) => q != [] && Linked(t, q[..|q| - 1])
    case OpaqueDir(d) => Linked(t, d)
  }

  function Prefixes(p: Path): set<Path> {
    set k | 1 <= k <= |p| :: p[..k]
  }

  function Mkdirs(t: Tree, p: Path): Tree {
    map q | q in t.Keys + Prefixes(p) :: if q in t then t[q] else Dir
  }

  function Without(t: Tree, p: Path): Tree {
    map q | q in t && !(p <= q) :: t[q]
  }

  function Emptied(t: Tree, d: Path): Tree {
    map q | q in t && (!(d <= q) || d == q) :: t[q]
  }

  function Apply(t: Tree, c: Change): Tree {
    match c
    case Skip => t
    case MakeDir(q) => Mkdirs(t, q)
    case PutFile(q, s) => if q == [] then t else Mkdirs(t, q[..|q| - 1])[q := File(s)]
    case PutLink(q, s) => if q == [] then t else Without(Mkdirs(t, q[..|q| - 1]), q)[q := Link(s)]
    case Whiteout(q) => Without(t, q)
    case OpaqueDir(d) => Emptied(t, d)
  }

  lemma {:induction false} PrefixIff(p: Path, q: Path)
    ensures q in Prefixes(p) <==> q != [] && q <= p
  {
    if q != [] && q <= p {
      assert q == p[..|q|];
    }
  }

  lemma {:induction false} MkdirsAt(t: Tree, p: Path, q: Path)
    requires !Blocked(t, p)
    ensures Lookup(Mkdirs(t, p), q) == if q != [] && q <= p then Some(Dir) else Lookup(t, q)
  {
    PrefixIff(p, q);
    if q != [] && q <= p {
      assert !LeafAt(t, p[..|q|]);
      assert q == p[..|q|];
    }
  }

  /** The node a change puts at `p`, and what it hides. */
  ghost function ChangeAdds(c: Change, p: Path): Option<Node> {
    match c
    case MakeDir(q) => if p != [] && p <= q then Some(Dir) else None
    case PutFile(q, s) => if p == q then Some(File(s)) else if p != [] && p <= q then Some(Dir) else None
    case PutLink(q, s) => if p == q then Some(Link(s)) else if p != [] && p <= q then Some(Dir) else None
    case _ => None
  }

  ghost predicate ChangeHides(c: Change, p: Path) {
    match c
    case Whiteout(q) => q <= p
    case OpaqueDir(d) => d <= p && d != p
    case PutLink(q, _) => q <= p && q != p
    case _ => false
  }

  lemma {:induction false} ChangeAt(t: Tree, c: Change, p: Path)
    requires !Conflict(t, c)
    ensures Lookup(Apply(t, c), p) ==
            if ChangeAdds(c, p).Some? then ChangeAdds(c, p) else if ChangeHides(c, p) then None else Lookup(t, p)
  {
    match c
    case MakeDir(q) => MkdirsAt(t, q, p);
    case PutFile(q, s) =>
      var d := q[..|q| - 1];
      MkdirsAt(t, d, p);
      if p != q {
        assert p <= d <==> p <= q;
      }
    case PutLink(q, s) =>
      var d := q[..|q| - 1];
      MkdirsAt(t, d, p);
      if p != q {
        assert p <= d <==> p <= q;
      }
    case _ =>
  }

  /** The target directory of a whiteout needs no care, but a tree never loses its shape. */
  lemma {:induction false} ApplyKeepsWellFormed(t: Tree, c: Change)
    requires WellFormed(t) && !Conflict(t, c)
    requires c.Whiteout? ==> c.path != []
    ensures WellFormed(Apply(t, c))
  {
    hide Apply;
    var t' := Apply(t, c);
    ChangeAt(t, c, []);
    assert Lookup(t, []) == None;
    forall p | p in t' && |p| >= 2 ensures p[..|p| - 1] in t' && t'[p[..|p| - 1]] == Dir {
      var up := p[..|p| - 1];
      ChangeAt(t, c, p);
      ChangeAt(t, c, up);
      assert Lookup(t', p).Some?;
      UpAdds(c, p);
      if ChangeAdds(c, p).None? {
        assert Lookup(t, p).Some?;
      }
      assert Lookup(t', up) == Some(Dir);
    }
  }

  lemma {:induction false} UpAdds(c: Change, p: Path)
    requires |p| >= 2
    ensures ChangeAdds(c, p).Some? ==> ChangeAdds(c, p[..|p| - 1]) == Some(Dir)
    ensures ChangeHides(c, p[..|p| - 1]) ==> ChangeHides(c, p)
    ensures (&& ChangeAdds(c, p).None? && ChangeAdds(c, p[..|p| - 1]).Some?
             && !((c.PutFile? || c.PutLink?) && c.path == p[..|p| - 1])) ==>
              ChangeAdds(c, p[..|p| - 1]) == Some(Dir)
  {
  }

  lemma {:induction false} ChangeMeans(e: Entry, p: Path)
    ensures ChangeAdds(ChangeOf(e), p) == Adds(e, p) && (ChangeHides(ChangeOf(e), p) <==> Hides(e, p))
  {
  }

  /** One entry, seen at one path: it adds a node there, hides what was there, or leaves it. */
  lemma {:induction false} ApplyAt(t: Tree, e: Entry, p: Path)
    requires !Conflict(t, ChangeOf(e))
    ensures Lookup(Apply(t, ChangeOf(e)), p) ==
            if Adds(e, p).Some? then Adds(e, p) else if Hides(e, p) then None else Lookup(t, p)
  {
    hide Apply, Conflict, ChangeOf, ChangeAdds, ChangeHides, Adds, Hides;
    ChangeAt(t, ChangeOf(e), p);
    ChangeMeans(e, p);
  }

  /** A component of the path other than a directory, up to and including the first `n`. */
  ghost predicate LeafOnWay(t: Tree, p: Path, n: nat)
    requires n <= |p|
  {
    exists k :: 1 <= k <= n && p[..k] in t && t[p[..k]] != Dir
  }

  ghost predicate LinkOnWay(t: Tree, p: Path) {
    exists k :: 1 <= k <= |p| && p[..k] in t && t[p[..k]].Link?
  }

  /**
    When an entry is refused: a file or link on the way to it, a directory or link where its
    file would go, or, for a whiteout, a link on the way to its directory.
   */
  ghost predicate Refused(t: Tree, e: Entry) {
    && e.path != []
    && if ".wh." <= BaseOf(e) then LinkOnWay(t, DirOf(e))
       else
         match e.kind
         case TypeDir => LeafOnWay(t, e.path, |e.path|)
         case TypeReg => LeafOnWay(t, e.path, |e.path| - 1) || (e.path in t && !t[e.path].File?)
         case TypeSymlink => LeafOnWay(t, e.path, |e.path| - 1)
         case TypeOther => false
  }

  lemma {:induction false} BlockedWay(t: Tree, p: Path, n: nat)
    requires n <= |p|
    ensures Blocked(t, p[..n]) <==> LeafOnWay(t, p, n)
  {
    forall k | 1 <= k <= n ensures p[..n][..k] == p[..k] {
    }
    if LeafOnWay(t, p, n) {
      var k :| 1 <= k <= n && p[..k] in t && t[p[..k]] != Dir;
      assert LeafAt(t, p[..n][..k]);
    }
    if Blocked(t, p[..n]) {
      var k :| 1 <= k <= |p[..n]| && LeafAt(t, p[..n][..k]);
      assert p[..k] in t && t[p[..k]] != Dir;
    }
  }

  lemma {:induction false} ConflictMeans(t: Tree, e: Entry)
    ensures Conflict(t, ChangeOf(e)) <==> Refused(t, e)
  {
    if e.path != [] {
      BlockedWay(t, e.path, |e.path|);
      BlockedWay(t, e.path, |e.path| - 1);
      assert e.path[..|e.path|] == e.path;
      hide Blocked, LeafOnWay;
      if ".wh." <= BaseOf(e) {
        WhiteoutDir(e);
      }
    }
  }

  /** Nothing at any path other than the ones the entry adds or hides has changed. */
  ghost predicate Leaves(t: Tree, e: Entry, t': Tree) {
    forall p :: Lookup(t', p) == if Adds(e, p).Some? then Adds(e, p) else if Hides(e, p) then None else Lookup(t, p)
  }

  /** The edit made for an entry is refused and leaves what the entry alone says. */
  lemma {:induction false} EntryMeans(t: Tree, e: Entry)
    ensures Conflict(t, ChangeOf(e)) <==> Refused(t, e)
    ensures !Conflict(t, ChangeOf(e)) ==> Leaves(t, e, Apply(t, ChangeOf(e)))
  {
    hide Conflict, ChangeOf, Apply, Refused, Adds, Hides;
    ConflictMeans(t, e);
    if !Conflict(t, ChangeOf(e)) {
      forall p
        ensures Lookup(Apply(t, ChangeOf(e)), p) ==
                if Adds(e, p).Some? then Adds(e, p) else if Hides(e, p) then None else Lookup(t, p)
      {
        ApplyAt(t, e, p);
      }
    }
  }

  /** Directory, file and link entries, spelled out. */
  lemma {:induction false} PlainEntryLeaves(t: Tree, e: Entry, t': Tree, p: Path)
    requires Leaves(t, e, t') && e.path != [] && !(".wh." <= e.path[|e.path| - 1]) && !e.kind.TypeOther?
    ensures p != [] && p <= e.path && p != e.path ==> Lookup(t', p) == Some(Dir)
    ensures Lookup(t', e.path) ==
            Some(match e.kind case TypeDir => Dir case TypeReg => File(e.data) case _ => Link(e.data))
    ensures e.path <= p && p != e.path ==> Lookup(t', p) == if e.kind.TypeSymlink? then None else Lookup(t, p)
    ensures !(p <= e.path) && !(e.path <= p) ==> Lookup(t', p) == Lookup(t, p)
  {
    assert Lookup(t', p) == if Adds(e, p).Some? then Adds(e, p) else if Hides(e, p) then None else Lookup(t, p);
    assert Lookup(t', e.path) == Adds(e, e.path);
  }

  /** Whiteouts, spelled out. */
  lemma {:induction false} WhiteoutLeaves(t: Tree, e: Entry, t': Tree, dir: Path, name: string, p: Path)
    requires Leaves(t, e, t')
    ensures e.path == dir + [".wh..wh..opq"] ==>
              Lookup(t', p) == if dir <= p && p != dir then None else Lookup(t, p)
    ensures e.path == dir + [".wh." + name] && ".wh." + name != ".wh..wh..opq" ==>
              Lookup(t', p) == if dir + [name] <= p then None else Lookup(t, p)
  {
    var base := ".wh." + name;
    assert base[4..] == name && ".wh." <= base;
    assert ".wh." <= ".wh..wh..opq";
    if e.path == dir + [base] || e.path == dir + [".wh..wh..opq"] {
      assert e.path[..|e.path| - 1] == dir;
      assert Lookup(t', p) == if Adds(e, p).Some? then Adds(e, p) else if Hides(e, p) then None else Lookup(t, p);
    }
  }

  /** Entries for the root itself, and kinds the unpacker does not know, leave the tree alone. */
  lemma {:induction false} SkippedEntryLeaves(t: Tree, e: Entry, t': Tree)
    requires Leaves(t, e, t')
    requires e.path == [] || (e.kind.TypeOther? && !(".wh." <= e.path[|e.path| - 1]))
    ensures t' == t
  {
    forall p ensures Lookup(t', p) == Lookup(t, p) {
    }
    forall p ensures p in t' <==> p in t {
      assert Lookup(t', p) == Lookup(t, p);
    }
    forall p | p in t ensures t'[p] == t[p] {
      assert Lookup(t', p) == Lookup(t, p);
    }
  }

  // ---------------------------------------------------------------------------
  // A whole layer
  // ---------------------------------------------------------------------------

  function ApplyAll(t: Tree, layer: seq<Entry>): Tree {
    if layer == [] then t else Apply(ApplyAll(t, layer[..|layer| - 1]), ChangeOf(layer[|layer| - 1]))
  }

  ghost predicate Succeeds(t: Tree, layer: seq<Entry>) {
    forall i :: 0 <= i < |layer| ==> !Conflict(ApplyAll(t, layer[..i]), ChangeOf(layer[i]))
  }

  lemma {:induction false} SucceedsInit(t: Tree, layer: seq<Entry>)
    requires layer != [] && Succeeds(t, layer)
    ensures Succeeds(t, layer[..|layer| - 1])
    ensures !Conflict(ApplyAll(t, layer[..|layer| - 1]), ChangeOf(layer[|layer| - 1]))
  {
    var init := layer[..|layer| - 1];
    forall i | 0 <= i < |init| ensures !Conflict(ApplyAll(t, init[..i]), ChangeOf(init[i])) {
      assert init[..i] == layer[..i];
    }
  }

  /** The last entry of the layer that concerns a path, as an edit of what was below. */
  ghost function FinalAt(layer: seq<Entry>, below: Option<Node>, p: Path): Option<Node> {
    if layer == [] then below
    else
      var e := layer[|layer| - 1];
      if Adds(e, p).Some? then Adds(e, p)
      else if Hides(e, p) then None
      else FinalAt(layer[..|layer| - 1], below, p)
  }

  lemma {:induction false} ApplyAllAt(t: Tree, layer: seq<Entry>, p: Path)
    requires Succeeds(t, layer)
    ensures Lookup(ApplyAll(t, layer), p) == FinalAt(layer, Lookup(t, p), p)
  {
    if layer != [] {
      SucceedsInit(t, layer);
      ApplyAllAt(t, layer[..|layer| - 1], p);
      ApplyAt(ApplyAll(t, layer[..|layer| - 1]), layer[|layer| - 1], p);
    }
  }

  /** At this path no whiteout of the layer undoes an earlier entry of the layer for good. */
  ghost predicate OrderedAt(layer: seq<Entry>, p: Path) {
    forall i, j :: 0 <= i < j < |layer| && Adds(layer[i], p).Some? && Hides(layer[j], p) ==>
      AddedAfter(layer, j, p)
  }

  lemma {:induction false} LastAddExists(layer: seq<Entry>, p: Path)
    ensures LastAdd(layer, p).Some? <==> exists i :: 0 <= i < |layer| && Adds(layer[i], p).Some?
  {
    if layer != [] {
      var init := layer[..|layer| - 1];
      LastAddExists(init, p);
      if Adds(layer[|layer| - 1], p).None? && LastAdd(layer, p).Some? {
        var i :| 0 <= i < |init| && Adds(init[i], p).Some?;
        assert Adds(layer[i], p).Some?;
      }
      forall i | 0 <= i < |layer| && Adds(layer[i], p).Some? ensures LastAdd(layer, p).Some? {
        if i < |init| {
          assert Adds(init[i], p).Some?;
        }
      }
    }
  }

  lemma {:induction false} HiddenSnoc(init: seq<Entry>, e: Entry, p: Path)
    ensures HiddenBy(init + [e], p) <==> HiddenBy(init, p) || Hides(e, p)
  {
    var layer := init + [e];
    if HiddenBy(init, p) {
      var i :| 0 <= i < |init| && Hides(init[i], p);
      assert Hides(layer[i], p);
    }
    if Hides(e, p) {
      assert Hides(layer[|init|], p);
    }
  }

  lemma {:induction false} OrderedInit(init: seq<Entry>, e: Entry, p: Path)
    requires Adds(e, p).None? && !Hides(e, p)
    ensures OrderedAt(init + [e], p) <==> OrderedAt(init, p)
  {
    var layer := init + [e];
    forall j ensures AddedAfter(layer, j, p) <==> AddedAfter(init, j, p) {
      if AddedAfter(layer, j, p) {
        var k :| j < k < |layer| && 0 <= k && Adds(layer[k], p).Some?;
        assert Adds(init[k], p).Some?;
      }
      if AddedAfter(init, j, p) {
        var k :| j < k < |init| && 0 <= k && Adds(init[k], p).Some?;
        assert Adds(layer[k], p).Some?;
      }
    }
    forall i | 0 <= i < |init| ensures layer[i] == init[i] {
    }
  }

  /** Editing in order agrees with the overlay at a path exactly when the layer is ordered there. */
  lemma {:induction false} FinalIsOverlay(layer: seq<Entry>, below: Option<Node>, p: Path)
    ensures FinalAt(layer, below, p) == OverlayAt(layer, below, p) <==> OrderedAt(layer, p)
  {
    if layer != [] {
      var init, e := layer[..|layer| - 1], layer[|layer| - 1];
      assert layer == init + [e];
      HiddenSnoc(init, e, p);
      if Adds(e, p).Some? {
        forall j | 0 <= j < |layer| - 1 ensures AddedAfter(layer, j, p) {
          assert Adds(layer[|layer| - 1], p).Some?;
        }
        assert !Hides(e, p);
        assert OrderedAt(layer, p);
      } else if Hides(e, p) {
        LastAddExists(layer, p);
        if LastAdd(layer, p).Some? {
          var i :| 0 <= i < |layer| && Adds(layer[i], p).Some?;
          assert Hides(layer[|layer| - 1], p) && !AddedAfter(layer, |layer| - 1, p);
        }
      } else {
        OrderedInit(init, e, p);
        FinalIsOverlay(init, below, p);
      }
    }
  }

  /**
    A layer that applies without error yields the declarative overlay exactly when no
    whiteout in it follows, for good, an entry of the same layer that it covers.
   */
  lemma {:induction false} LayerIsOverlay(t: Tree, layer: seq<Entry>)
    requires Succeeds(t, layer)
    ensures IsOverlay(t, layer, ApplyAll(t, layer)) <==> Ordered(layer)
  {
    hide ApplyAll, FinalAt, OverlayAt;
    forall p
      ensures Lookup(ApplyAll(t, layer), p) == OverlayAt(layer, Lookup(t, p), p) <==> OrderedAt(layer, p)
    {
      ApplyAllAt(t, layer, p);
      FinalIsOverlay(layer, Lookup(t, p), p);
    }
    if Ordered(layer) {
      forall p ensures OrderedAt(layer, p) {
      }
    }
    if forall p :: OrderedAt(layer, p) {
      forall i, j, p | 0 <= i < j < |layer| && Adds(layer[i], p).Some? && Hides(layer[j], p)
        ensures AddedAfter(layer, j, p)
      {
        assert OrderedAt(layer, p);
      }
    }
  }

  lemma {:induction false} LayerKeepsWellFormed(t: Tree, layer: seq<Entry>)
    requires WellFormed(t) && Succeeds(t, layer)
    ensures WellFormed(ApplyAll(t, layer))
  {
    if layer != [] {
      SucceedsInit(t, layer);
      LayerKeepsWellFormed(t, layer[..|layer| - 1]);
      ApplyKeepsWellFormed(ApplyAll(t, layer[..|layer| - 1]), ChangeOf(layer[|layer| - 1]));
    }
  }

  // ---------------------------------------------------------------------------
  // The stack of layers
  // ---------------------------------------------------------------------------

  function Unpacked(layers: seq<seq<Entry>>): Tree {
    if layers == [] then map[] else ApplyAll(Unpacked(layers[..|layers| - 1]), layers[|layers| - 1])
  }

  ghost predicate AllSucceed(layers: seq<seq<Entry>>) {
    forall i :: 0 <= i < |layers| ==> Succeeds(Unpacked(layers[..i]), layers[i])
  }

  ghost predicate AllOrdered(layers: seq<seq<Entry>>) {
    forall i :: 0 <= i < |layers| ==> Ordered(layers[i])
  }

  lemma {:induction false} PrefixSucceeds(layers: seq<seq<Entry>>, n: nat)
    requires n <= |layers| && AllSucceed(layers)
    ensures AllSucceed(layers[..n])
  {
    forall i | 0 <= i < n ensures Succeeds(Unpacked(layers[..n][..i]), layers[..n][i]) {
      assert layers[..n][..i] == layers[..i];
    }
  }

  lemma {:induction false} TopLayer(layers: seq<seq<Entry>>)
    requires layers != [] && AllSucceed(layers) && AllOrdered(layers)
    ensures var low, top := layers[..|layers| - 1], layers[|layers| - 1];
            Succeeds(Unpacked(low), top) && Ordered(top) && AllSucceed(low) && AllOrdered(low)
  {
    hide Succeeds, Ordered, Unpacked;
    PrefixSucceeds(layers, |layers| - 1);
  }

  lemma {:induction false} OneMoreLayer(layers: seq<seq<Entry>>)
    requires layers != []
    requires var low, top := layers[..|layers| - 1], layers[|layers| - 1];
             IsStack(low, Unpacked(low)) && IsOverlay(Unpacked(low), top, ApplyAll(Unpacked(low), top))
    ensures IsStack(layers, Unpacked(layers))
  {
    hide ApplyAll, OverlayAt;
  }

  /** Ordered layers unpack to the stack, and so does every lower part of it. */
  lemma {:induction false} OrderedUnpack(layers: seq<seq<Entry>>)
    requires AllSucceed(layers) && AllOrdered(layers)
    ensures IsStack(layers, Unpacked(layers))
  {
    if layers != [] {
      hide Succeeds, ApplyAll, Ordered, Unpacked, AllSucceed, AllOrdered, IsStack, IsOverlay;
      var low, top := layers[..|layers| - 1], layers[|layers| - 1];
      TopLayer(layers);
      OrderedUnpack(low);
      LayerIsOverlay(Unpacked(low), top);
      OneMoreLayer(layers);
    }
  }

  /**
    Unpacking agrees with the overlay after every layer exactly when all layers are
    ordered; the tree is then well formed as well.
   */
  lemma {:induction false} UnpackIsStack(layers: seq<seq<Entry>>)
    requires AllSucceed(layers)
    ensures (forall n :: 0 <= n <= |layers| ==> IsStack(layers[..n], Unpacked(layers[..n]))) <==> AllOrdered(layers)
  {
    if AllOrdered(layers) {
      forall n | 0 <= n <= |layers| ensures IsStack(layers[..n], Unpacked(layers[..n])) {
        PrefixSucceeds(layers, n);
        OrderedUnpack(layers[..n]);
      }
    }
    if forall n :: 0 <= n <= |layers| ==> IsStack(layers[..n], Unpacked(layers[..n])) {
      forall i | 0 <= i < |layers| ensures Ordered(layers[i]) {
        hide IsStack, Unpacked, Ordered;
        StackOrders(layers, i);
      }
    }
  }

  /** Two neighbouring heights that agree with the overlay show the layer between them to be ordered. */
  lemma {:induction false} StackOrders(layers: seq<seq<Entry>>, i: nat)
    requires i < |layers| && AllSucceed(layers)
    requires IsStack(layers[..i], Unpacked(layers[..i])) && IsStack(layers[..i + 1], Unpacked(layers[..i + 1]))
    ensures Ordered(layers[i])
  {
    hide Succeeds, ApplyAll, OverlayAt, Ordered;
    var low, both := layers[..i], layers[..i + 1];
    assert both[..i] == low && both[i] == layers[i];
    assert Unpacked(both) == ApplyAll(Unpacked(low), layers[i]);
    forall p ensures Lookup(Unpacked(both), p) == OverlayAt(layers[i], Lookup(Unpacked(low), p), p) {
      assert StackAt(both, p) == OverlayAt(both[i], StackAt(both[..i], p), p);
    }
    LayerIsOverlay(Unpacked(low), layers[i]);
  }

  lemma {:induction false} UnpackKeepsWellFormed(layers: seq<seq<Entry>>)
    requires AllSucceed(layers)
    ensures WellFormed(Unpacked(layers))
  {
    EmptyWellFormed();
    hide WellFormed, Succeeds, ApplyAll;
    if layers != [] {
      var n := |layers| - 1;
      var low := layers[..n];
      assert Succeeds(Unpacked(low), layers[n]);
      PrefixSucceeds(layers, n);
      hide AllSucceed;
      UnpackKeepsWellFormed(low);
      LayerKeepsWellFormed(Unpacked(low), layers[n]);
    }
  }

  lemma {:induction false} EmptyWellFormed()
    ensures WellFormed(map[])
  {
  }

  lemma {:induction false} LateEntries()
    ensures ChangeOf(Entry(["a"], TypeReg, "x")) == PutFile(["a"], "x")
    ensures ChangeOf(Entry([".wh.a"], TypeReg, "")) == Whiteout(["a"])
    ensures Adds(Entry(["a"], TypeReg, "x"), ["a"]).Some? && Adds(Entry([".wh.a"], TypeReg, ""), ["a"]).None?
    ensures Hides(Entry([".wh.a"], TypeReg, ""), ["a"])
  {
    assert ".wh.a"[|WH|..] == "a" && ".wh.a"[4..] == "a";
    assert |".wh.a"| != |OPAQUE|;
    assert [] + ["a"] == ["a"];
  }

  lemma {:induction false} LateSucceeds(f: Entry, w: Entry)
    requires ChangeOf(f) == PutFile(["a"], "x") && ChangeOf(w) == Whiteout(["a"])
    ensures Succeeds(map[], [f, w])
  {
    hide ChangeOf;
    var layer := [f, w];
    assert layer[..0] == [] && ["a"][..0] == [];
    assert !Conflict(map[], ChangeOf(f));
    assert forall t :: !Linked(t, []);
  }

  /** A whiteout listed after the file it covers removes it, where the overlay keeps it. */
  lemma {:induction false} LateWhiteoutRemoves()
    ensures var layer := [Entry(["a"], TypeReg, "x"), Entry([".wh.a"], TypeReg, "")];
            Succeeds(map[], layer) && !IsOverlay(map[], layer, ApplyAll(map[], layer))
  {
    hide ChangeOf, Adds, Hides, Succeeds, ApplyAll, IsOverlay;
    LateEntries();
    var layer := [Entry(["a"], TypeReg, "x"), Entry([".wh.a"], TypeReg, "")];
    LateSucceeds(layer[0], layer[1]);
    assert Adds(layer[0], ["a"]).Some? && Hides(layer[1], ["a"]);
    assert !AddedAfter(layer, 1, ["a"]);
    LayerIsOverlay(map[], layer);
  }

  // ---------------------------------------------------------------------------
  // The unpacker
  // ---------------------------------------------------------------------------

  class Rootfs {
    var nodes: Tree

    constructor ()
      ensures nodes == map[]
    {
      nodes := map[];
    }

    /** os.MkdirAll: parents first, stopping at a file. */
    method MkdirAll(p: Path) returns (r: Result<(), Error>)
      requires WellFormed(nodes)
      modifies this
      ensures r.Err? <==> Blocked(old(nodes), p)
      ensures nodes == if r.Ok? then Mkdirs(old(nodes), p) else old(nodes)
    {
      var k := 0;
      while k < |p|
        invariant 0 <= k <= |p|
        invariant !Blocked(old(nodes), p[..k])
        invariant nodes == Mkdirs(old(nodes), p[..k])
      {
        var q := p[..k + 1];
        BlockedSnoc(old(nodes), p, k);
        MkdirsSnoc(old(nodes), p, k);
        if q in nodes && !nodes[q].Dir? {
          BlockedEarly(old(nodes), p, k);
          AlreadyThere(old(nodes), q, k);
          assert q[..k] == p[..k];
          return Err(if nodes[q].File? then NotADirectory(q) else ThroughLink(q));
        }
        if q !in nodes {
          nodes := nodes[q := Dir];
        }
        k := k + 1;
      }
      assert p[..k] == p;
      return Ok(());
    }

    /** os.ReadDir followed by os.RemoveAll of every entry found, in any order. */
    method EmptyDir(dir: Path)
      requires WellFormed(nodes)
      modifies this
      ensures nodes == Emptied(old(nodes), dir)
    {
      hide Without, WellFormed, ReadDir;
      var found := ReadDir(nodes, dir);
      var left := found;
      while left != {}
        invariant left <= found
        invariant nodes == map q | q in old(nodes) && !(Inside(dir, q) && q[|dir|] in found - left) :: old(nodes)[q]
      {
        var name :| name in left;
        RemoveChild(nodes, dir, name);
        nodes := Without(nodes, dir + [name]);
        left := left - {name};
      }
      forall q | q in old(nodes) && Inside(dir, q) ensures q[|dir|] in found {
        ChildThere(old(nodes), dir, q);
      }
    }

    method ApplyEntry(e: Entry) returns (r: Result<(), Error>)
      requires WellFormed(nodes) && WellNamed(e)
      modifies this
      ensures r.Err? <==> Refused(old(nodes), e)
      ensures if r.Ok? then Leaves(old(nodes), e, nodes) else nodes == old(nodes)
      ensures r.Err? <==> Conflict(old(nodes), ChangeOf(e))
      ensures r.Ok? ==> nodes == Apply(old(nodes), ChangeOf(e))
    {
      hide Mkdirs, WellFormed, Emptied, Without, Refused, Leaves;
      EntryMeans(nodes, e);
      if e.path == [] {
        return Ok(());
      }
      var dir, base := e.path[..|e.path| - 1], e.path[|e.path| - 1];
      if WH <= base {
        WhiteoutDir(e);
        if Linked(nodes, dir) {
          return Err(ThroughLink(dir));
        }
        if base == OPAQUE {
          EmptyDir(dir);
        } else {
          nodes := Without(nodes, dir + [base[|WH|..]]);
        }
        return Ok(());
      }
      match e.kind
      case TypeDir =>
        r := MkdirAll(e.path);
      case TypeReg =>
        var made := MkdirAll(dir);
        if made.Err? {
          return made;
        }
        FileSlot(old(nodes), e.path);
        if e.path in nodes && !nodes[e.path].File? {
          AlreadyThere(old(nodes), e.path, |dir|);
          return Err(if nodes[e.path] == Dir then IsADirectory(e.path) else ThroughLink(e.path));
        }
        nodes := nodes[e.path := File(e.data)];
        return Ok(());
      case TypeSymlink =>
        var made := MkdirAll(dir);
        if made.Err? {
          return made;
        }
        nodes := Without(nodes, e.path);
        nodes := nodes[e.path := Link(e.data)];
        return Ok(());
      case TypeOther =>
        return Ok(());
    }

    method ApplyLayer(layer: seq<Entry>) returns (r: Result<(), Error>)
      requires WellFormed(nodes) && forall i :: 0 <= i < |layer| ==> WellNamed(layer[i])
      modifies this
      ensures r.Ok? <==> Succeeds(old(nodes), layer)
      ensures r.Ok? ==> nodes == ApplyAll(old(nodes), layer)
      ensures r.Err? ==>
                exists k :: 0 <= k < |layer| && nodes == ApplyAll(old(nodes), layer[..k]) && Refused(nodes, layer[k])
      ensures WellFormed(nodes)
    {
      hide Conflict, Apply, WellFormed, ChangeOf, Refused, Leaves;
      var i := 0;
      while i < |layer|
        invariant 0 <= i <= |layer| && WellFormed(nodes)
        invariant nodes == ApplyAll(old(nodes), layer[..i])
        invariant Succeeds(old(nodes), layer[..i])
      {
        var e := ApplyEntry(layer[i]);
        if e.Err? {
          return e;
        }
        assert layer[..i + 1][..i] == layer[..i];
        SucceedsSnoc(old(nodes), layer, i);
        WhiteoutNamed(layer[i]);
        ApplyKeepsWellFormed(ApplyAll(old(nodes), layer[..i]), ChangeOf(layer[i]));
        i := i + 1;
      }
      assert layer[..i] == layer;
      return Ok(());
    }

    method UnpackOCI(layers: seq<seq<Entry>>) returns (r: Result<(), Error>)
      requires nodes == map[]
      requires forall i, j :: 0 <= i < |layers| && 0 <= j < |layers[i]| ==> WellNamed(layers[i][j])
      modifies this
      ensures r.Ok? <==> AllSucceed(layers)
      ensures r.Ok? ==> nodes == Unpacked(layers)
      ensures r.Ok? && AllOrdered(layers) ==> IsStack(layers, nodes)
      ensures WellFormed(nodes)
    {
      hide Succeeds, AllSucceed, ApplyAll, IsStack, Ordered, WellNamed;
      EmptyStack();
      var i := 0;
      while i < |layers|
        invariant 0 <= i <= |layers| && WellFormed(nodes)
        invariant nodes == Unpacked(layers[..i])
        invariant AllSucceed(layers[..i])
      {
        StackSnoc(layers, i);
        var e := ApplyLayer(layers[i]);
        if e.Err? {
          return e;
        }
        assert layers[..i + 1][..i] == layers[..i];
        i := i + 1;
      }
      assert layers[..i] == layers;
      if AllOrdered(layers) {
        OrderedUnpack(layers);
      }
      return Ok(());
    }
  }

  /** Strictly below a directory. */
  predicate Inside(dir: Path, q: Path) {
    |q| > |dir| && dir <= q
  }

  function ReadDir(t: Tree, dir: Path): set<string> {
    set q | q in t && |q| == |dir| + 1 && dir <= q :: q[|dir|]
  }

  lemma {:induction false} RemoveChild(t: Tree, dir: Path, name: string)
    ensures Without(t, dir + [name]) == map q | q in t && !(Inside(dir, q) && q[|dir|] == name) :: t[q]
  {
    forall q ensures dir + [name] <= q <==> Inside(dir, q) && q[|dir|] == name {
      if Inside(dir, q) && q[|dir|] == name {
        assert q[..|dir| + 1] == dir + [name];
      }
    }
  }

  lemma {:induction false} ChildThere(t: Tree, dir: Path, q: Path)
    requires WellFormed(t) && q in t && Inside(dir, q)
    ensures q[|dir|] in ReadDir(t, dir)
    decreases |q|
  {
    if |q| > |dir| + 1 {
      ChildThere(t, dir, q[..|q| - 1]);
    }
  }

  lemma {:induction false} BlockedSnoc(t: Tree, p: Path, k: nat)
    requires k < |p|
    ensures Blocked(t, p[..k + 1]) <==> Blocked(t, p[..k]) || LeafAt(t, p[..k + 1])
  {
    forall j | 1 <= j <= k ensures p[..k + 1][..j] == p[..k][..j] {
    }
    if Blocked(t, p[..k]) {
      var j :| 1 <= j <= k && LeafAt(t, p[..k][..j]);
      assert LeafAt(t, p[..k + 1][..j]);
    }
    if LeafAt(t, p[..k + 1]) {
      assert p[..k + 1][..k + 1] == p[..k + 1];
    }
    if Blocked(t, p[..k + 1]) {
      var j :| 1 <= j <= k + 1 && LeafAt(t, p[..k + 1][..j]);
      if j <= k {
        assert LeafAt(t, p[..k][..j]);
      } else {
        assert p[..k + 1][..j] == p[..k + 1];
      }
    }
  }

  lemma {:induction false} BlockedEarly(t: Tree, p: Path, k: nat)
    requires k < |p| && LeafAt(t, p[..k + 1])
    ensures Blocked(t, p)
  {
  }

  lemma {:induction false} MkdirsSnoc(t: Tree, p: Path, k: nat)
    requires k < |p|
    ensures var q := p[..k + 1];
            && Mkdirs(t, q) == (if q in t then Mkdirs(t, p[..k]) else Mkdirs(t, p[..k])[q := Dir])
            && Lookup(Mkdirs(t, p[..k]), q) == Lookup(t, q)
  {
    var q := p[..k + 1];
    forall x ensures x in Prefixes(q) <==> x in Prefixes(p[..k]) || x == q {
      PrefixIff(q, x);
      PrefixIff(p[..k], x);
      if x <= q && x != q {
        assert x <= p[..k];
      }
    }
    PrefixIff(p[..k], q);
  }

  /** The parents of a node exist, so making them again changes nothing. */
  lemma {:induction false} AlreadyThere(t: Tree, p: Path, k: nat)
    requires WellFormed(t) && p in t && |p| == k + 1
    ensures Mkdirs(t, p[..k]) == t && !Blocked(t, p[..k])
  {
    if k > 0 {
      var up := p[..k];
      assert up in t && t[up] == Dir;
      AlreadyThere(t, up, k - 1);
      assert p[..k] == up && up[..k] == up;
      MkdirsSnoc(t, up, k - 1);
      BlockedSnoc(t, up, k - 1);
    }
  }

  lemma {:induction false} FileSlot(t: Tree, p: Path)
    requires p != []
    ensures Lookup(Mkdirs(t, p[..|p| - 1]), p) == Lookup(t, p)
  {
    PrefixIff(p[..|p| - 1], p);
  }

  lemma {:induction false} SucceedsSnoc(t: Tree, layer: seq<Entry>, i: nat)
    requires i < |layer|
    ensures Succeeds(t, layer[..i + 1]) <==>
              Succeeds(t, layer[..i]) && !Conflict(ApplyAll(t, layer[..i]), ChangeOf(layer[i]))
  {
    hide Conflict, ApplyAll;
    var both := layer[..i + 1];
    forall j | 0 <= j <= i ensures both[..j] == layer[..j] && both[j] == layer[j] {
    }
    forall j | 0 <= j < i ensures layer[..i][..j] == layer[..j] && layer[..i][j] == layer[j] {
    }
  }

  lemma {:induction false} EmptyStack()
    ensures AllSucceed([]) && WellFormed(map[])
  {
  }

  lemma {:induction false} StackSnoc(layers: seq<seq<Entry>>, i: nat)
    requires i < |layers|
    ensures AllSucceed(layers[..i + 1]) <==>
              AllSucceed(layers[..i]) && Succeeds(Unpacked(layers[..i]), layers[i])
    ensures AllSucceed(layers) ==> AllSucceed(layers[..i + 1])
  {
    hide Succeeds, Unpacked;
    var both := layers[..i + 1];
    forall j | 0 <= j <= i ensures both[..j] == layers[..j] && both[j] == layers[j] {
    }
    forall j | 0 <= j < i ensures layers[..i][..j] == layers[..j] && layers[..i][j] == layers[j] {
    }
  }

  lemma {:induction false} WhiteoutDir(e: Entry)
    requires e.path != [] && WH <= e.path[|e.path| - 1]
    ensures var dir, c := e.path[..|e.path| - 1], ChangeOf(e);
            && (c.Whiteout? ==> c.path != [] && c.path[..|c.path| - 1] == dir)
            && (c.OpaqueDir? ==> c.dir == dir) && (c.Whiteout? || c.OpaqueDir?)
  {
  }

  /** A link replaces a directory with everything in it, where a file is refused. */
  lemma {:induction false} LinkReplacesDirectory(t: Tree, q: Path, target: string, p: Path)
    requires q != [] && !Blocked(t, q[..|q| - 1]) && q in t && t[q] == Dir && q <= p
    ensures Conflict(t, PutFile(q, target)) && !Conflict(t, PutLink(q, target))
    ensures Lookup(Apply(t, PutLink(q, target)), p) == if p == q then Some(Link(target)) else None
  {
    ChangeAt(t, PutLink(q, target), p);
  }

  lemma {:induction false} WhiteoutNamed(e: Entry)
    ensures ChangeOf(e).Whiteout? ==> ChangeOf(e).path != []
  {
  }
}
