/**
  Writables, the nodes of the persistent object graph, and how writeAttribute turns a
  Writable into an absolute location by walking its parent chain.
 */
module Writables {
  import opened Wrappers
  import opened Faults

  /**
    One Writable. `parent` is the arena index of its parent (None for a root) and
    `position` the location of its HDF5FilePosition (None while it has no position).
   */
  datatype Writable = Writable(written: bool, dirty: bool, parent: Option<nat>, position: Option<string>)

  /** The Writables in the order the object graph allocated them. */
  type Arena = seq<Writable>

  /** Parents are allocated before their children, so every parent chain ends at a root. */
  predicate WellFormed(ws: Arena) {
    forall i :: 0 <= i < |ws| && ws[i].parent.Some? ==> ws[i].parent.value < i
  }

  /** The parent chain as the walk in writeAttribute pushes it: the target first, the root last. */
  function Ancestry(ws: Arena, w: nat): (chain: seq<nat>)
    requires WellFormed(ws) && w < |ws|
    ensures |chain| >= 1 && chain[0] == w
    ensures forall k :: 0 <= k < |chain| ==> chain[k] < |ws|
    ensures forall k :: 0 <= k < |chain| - 1 ==> ws[chain[k]].parent == Some(chain[k + 1])
    ensures ws[chain[|chain| - 1]].parent.None?
    decreases w
  {
    match ws[w].parent
    case None => [w]
    case Some(p) => [w] + Ancestry(ws, p)
  }

  /** The parent chain in the order the location is built: the root first, the target last. */
  function RootFirst(ws: Arena, w: nat): (path: seq<nat>)
    requires WellFormed(ws) && w < |ws|
    ensures |path| >= 1 && path[|path| - 1] == w
    ensures forall k :: 0 <= k < |path| ==> path[k] < |ws|
    decreases w
  {
    match ws[w].parent
    case None => [w]
    case Some(p) => RootFirst(ws, p) + [w]
  }

  /** The location of each node on `path`, concatenated in order; the first node without a position faults. */
  function LocationAlong(ws: Arena, path: seq<nat>): (r: Result<string, Fault>)
    requires forall k :: 0 <= k < |path| ==> path[k] < |ws|
    ensures r.Ok? <==> forall k :: 0 <= k < |path| ==> ws[path[k]].position.Some?
    ensures r.Err? ==> r.error.NoPosition? && r.error.writable in path && ws[r.error.writable].position.None?
    decreases |path|
  {
    if path == [] then Ok("")
    else
      var prefix :- LocationAlong(ws, path[..|path| - 1]);
      var last := path[|path| - 1];
      match ws[last].position
      case None => Err(NoPosition(last))
      case Some(location) => Ok(prefix + location)
  }

  /**
    The absolute location of a Writable: its parent's location followed by its own. The
    parent is resolved first, so the root-most node without a position is the one that faults.
   */
  function AbsoluteLocation(ws: Arena, w: nat): (r: Result<string, Fault>)
    requires WellFormed(ws) && w < |ws|
    ensures r.Err? ==> r.error.NoPosition? && r.error.writable <= w && ws[r.error.writable].position.None?
    ensures r.Ok? ==> ws[w].position.Some? && |ws[w].position.value| <= |r.value|
    ensures r.Ok? ==> r.value[|r.value| - |ws[w].position.value|..] == ws[w].position.value
    decreases w
  {
    var above :- match ws[w].parent
      case None => Ok("")
      case Some(p) => AbsoluteLocation(ws, p);
    match ws[w].position
    case None => Err(NoPosition(w))
    case Some(location) => Ok(above + location)
  }

  lemma {:induction false} RootFirstReversesAncestry(ws: Arena, w: nat)
    requires WellFormed(ws) && w < |ws|
    ensures |RootFirst(ws, w)| == |Ancestry(ws, w)|
    ensures forall k :: 0 <= k < |RootFirst(ws, w)| ==>
      RootFirst(ws, w)[k] == Ancestry(ws, w)[|Ancestry(ws, w)| - 1 - k]
    decreases w
  {
    match ws[w].parent
    case None =>
    case Some(p) =>
      RootFirstReversesAncestry(ws, p);
  }

  /** Once a prefix of the path faults, the whole path faults the same way. */
  lemma {:induction false} LocationAlongFaultPersists(ws: Arena, path: seq<nat>, n: nat)
    requires forall k :: 0 <= k < |path| ==> path[k] < |ws|
    requires n <= |path| && LocationAlong(ws, path[..n]).Err?
    ensures LocationAlong(ws, path) == LocationAlong(ws, path[..n])
    decreases |path| - n
  {
    if n < |path| {
      assert path[..n + 1][..n] == path[..n];
      LocationAlongFaultPersists(ws, path, n + 1);
    } else {
      assert path[..n] == path;
    }
  }

  /** Extending a path by one node appends that node's location, or faults when it has none. */
  lemma LocationAlongStep(ws: Arena, path: seq<nat>, n: nat)
    requires forall k :: 0 <= k < |path| ==> path[k] < |ws|
    requires n < |path| && LocationAlong(ws, path[..n]).Ok?
    ensures LocationAlong(ws, path[..n + 1]) ==
      match ws[path[n]].position
      case None => Err(NoPosition(path[n]))
      case Some(l) => Ok(LocationAlong(ws, path[..n]).value + l)
  {
    assert path[..n + 1][..n] == path[..n];
  }

  /** Concatenating along the root-first chain is the parent-then-child definition. */
  lemma {:induction false} LocationAlongRootFirst(ws: Arena, w: nat)
    requires WellFormed(ws) && w < |ws|
    ensures LocationAlong(ws, RootFirst(ws, w)) == AbsoluteLocation(ws, w)
    decreases w
  {
    var path := RootFirst(ws, w);
    match ws[w].parent
    case None =>
      assert path[..0] == [];
    case Some(p) =>
      LocationAlongRootFirst(ws, p);
      assert path[..|path| - 1] == RootFirst(ws, p);
  }

  /** A location resolves exactly when every node on the parent chain has a position. */
  lemma {:induction false} AbsoluteLocationDefined(ws: Arena, w: nat)
    requires WellFormed(ws) && w < |ws|
    ensures AbsoluteLocation(ws, w).Ok? <==>
      forall k :: 0 <= k < |Ancestry(ws, w)| ==> ws[Ancestry(ws, w)[k]].position.Some?
    decreases w
  {
    match ws[w].parent
    case None =>
      assert Ancestry(ws, w) == [w];
    case Some(p) =>
      AbsoluteLocationDefined(ws, p);
      var chain := Ancestry(ws, w);
      assert chain[1..] == Ancestry(ws, p);
      assert forall k :: 1 <= k < |chain| ==> chain[k] == Ancestry(ws, p)[k - 1];
  }

  /**
    A fault names a node of the chain that has no position, and every ancestor of that node
    has one: the fault is raised at the root-most gap.
   */
  lemma {:induction false} AbsoluteLocationFault(ws: Arena, w: nat)
    requires WellFormed(ws) && w < |ws|
    requires AbsoluteLocation(ws, w).Err?
    ensures AbsoluteLocation(ws, w).error.NoPosition?
    ensures var g := AbsoluteLocation(ws, w).error.writable;
      g < |ws| && ws[g].position.None? && g in Ancestry(ws, w) && AbsoluteLocation(ws, g).Err? &&
      (ws[g].parent.Some? ==> AbsoluteLocation(ws, ws[g].parent.value).Ok?)
    decreases w
  {
    match ws[w].parent
    case None =>
    case Some(p) =>
      if AbsoluteLocation(ws, p).Err? {
        AbsoluteLocationFault(ws, p);
      }
  }

  /** A node without a position, met after a prefix that resolves, is the fault of the whole path. */
  lemma PathGap(ws: Arena, path: seq<nat>, n: nat)
    requires forall k :: 0 <= k < |path| ==> path[k] < |ws|
    requires n < |path| && LocationAlong(ws, path[..n]).Ok? && ws[path[n]].position.None?
    ensures LocationAlong(ws, path) == Err(NoPosition(path[n]))
  {
    LocationAlongStep(ws, path, n);
    LocationAlongFaultPersists(ws, path, n + 1);
  }

  /** A stack read from its top down: the last element pushed comes first. */
  function Reversed(s: seq<nat>): (r: seq<nat>)
    ensures |r| == |s| && forall k :: 0 <= k < |s| ==> r[k] == s[|s| - 1 - k]
  {
    seq(|s|, k requires 0 <= k < |s| => s[|s| - 1 - k])
  }

  /** Popping the pushed parent chain visits the Writables root first. */
  lemma AncestryReversed(ws: Arena, w: nat)
    requires WellFormed(ws) && w < |ws|
    ensures Reversed(Ancestry(ws, w)) == RootFirst(ws, w)
  {
    RootFirstReversesAncestry(ws, w);
  }

  /** The first loop of writeAttribute: push the target and every ancestor on a stack. */
  method ParentChain(ws: Arena, writable: nat) returns (hierarchy: seq<nat>)
    requires WellFormed(ws) && writable < |ws|
    ensures hierarchy == Ancestry(ws, writable)
  {
    hierarchy := [];
    var current: Option<nat> := Some(writable);
    ghost var chain := Ancestry(ws, writable);
    while current.Some?
      invariant |hierarchy| <= |chain| && hierarchy == chain[..|hierarchy|]
      invariant current == if |hierarchy| < |chain| then Some(chain[|hierarchy|]) else None
      decreases |chain| - |hierarchy|
    {
      var c := current.value;
      hierarchy := hierarchy + [c];
      current := ws[c].parent;
    }
    assert chain[..|chain|] == chain;
  }

  /**
    The second loop of writeAttribute: pop the stack, appending each Writable's position
    location, and fault on the first Writable that has none.
   */
  method StackLocation(ws: Arena, stack: seq<nat>) returns (r: Result<string, Fault>)
    requires forall k :: 0 <= k < |stack| ==> stack[k] < |ws|
    ensures r == LocationAlong(ws, Reversed(stack))
  {
    ghost var path := Reversed(stack);
    var hierarchy := stack;
    var location := "";
    while hierarchy != []
      invariant |hierarchy| <= |stack| && hierarchy == stack[..|hierarchy|]
      invariant LocationAlong(ws, path[..|path| - |hierarchy|]) == Ok(location)
    {
      var w := hierarchy[|hierarchy| - 1];
      ghost var done := |path| - |hierarchy|;
      assert w == path[done];
      match ws[w].position {
        case None =>
          PathGap(ws, path, done);
          return Err(NoPosition(w));
        case Some(l) =>
          LocationAlongStep(ws, path, done);
          location := location + l;
      }
      hierarchy := hierarchy[..|hierarchy| - 1];
    }
    assert path[..|path|] == path;
    r := Ok(location);
  }

  /** The location computation of writeAttribute: stack the parent chain, then pop it. */
  method ResolveLocation(ws: Arena, writable: nat) returns (r: Result<string, Fault>)
    requires WellFormed(ws) && writable < |ws|
    ensures r == AbsoluteLocation(ws, writable)
  {
    var hierarchy := ParentChain(ws, writable);
    r := StackLocation(ws, hierarchy);
    AncestryReversed(ws, writable);
    LocationAlongRootFirst(ws, writable);
  }
}
