/**
  The abstract store that stands in for the HDF5 library: the groups of the open file, keyed
  by absolute location, each with the names of its sub-groups and its attributes.
 */
module HDF5File {
  import opened Wrappers
  import opened Faults
  import opened Attributes
  import opened HDF5Types

  /** What H5Acreate fixes for an attribute: its datatype and its dataspace. */
  datatype AttributeLayout = AttributeLayout(h5type: H5Type, extent: Extent)

  /** A group (the root group included): its sub-group names and its attributes. */
  datatype Group = Group(children: set<string>, attributes: map<string, AttributeLayout>)

  const EmptyGroup := Group({}, map[])

  /** The file that m_fileID refers to: its name and its groups by absolute location. */
  datatype FileImage = FileImage(name: string, nodes: map<string, Group>)

  /** A handle on the stack createFile keeps: the file itself, or a group at a location. */
  datatype Handle = FileHandle | GroupHandle(location: string)

  function HandleLocation(h: Handle): string {
    match h
    case FileHandle => "/"
    case GroupHandle(location) => location
  }

  /** The absolute location of the group `name` created inside the group at `parent`. */
  function ChildPath(parent: string, name: string): string {
    if parent == "/" then "/" + name else parent + "/" + name
  }

  /** The location of the group reached by descending through `segments` from the root. */
  function PathOf(segments: seq<string>): (path: string)
    ensures |path| >= 1 && path[0] == '/'
    ensures segments != [] ==> |segments[|segments| - 1]| < |path|
    decreases |segments|
  {
    if segments == [] then "/"
    else ChildPath(PathOf(segments[..|segments| - 1]), segments[|segments| - 1])
  }

  /** H5Gcreate: a new, empty group `name` inside the group at `parent`. */
  function AddGroup(nodes: map<string, Group>, parent: string, name: string): (r: map<string, Group>)
    requires parent in nodes
    ensures r.Keys == nodes.Keys + {ChildPath(parent, name)}
    ensures r[ChildPath(parent, name)] == EmptyGroup
    ensures ChildPath(parent, name) != parent ==>
      r[parent] == nodes[parent].(children := nodes[parent].children + {name})
    ensures forall l :: l in nodes && l != parent && l != ChildPath(parent, name) ==> r[l] == nodes[l]
  {
    var p := nodes[parent];
    nodes[parent := p.(children := p.children + {name})][ChildPath(parent, name) := EmptyGroup]
  }

  /** The groups of a freshly truncated file after the base path `segments` is created in it. */
  function BaseGroups(segments: seq<string>): (nodes: map<string, Group>)
    ensures PathOf(segments) in nodes
    decreases |segments|
  {
    if segments == [] then map["/" := EmptyGroup]
    else
      var above := segments[..|segments| - 1];
      AddGroup(BaseGroups(above), PathOf(above), segments[|segments| - 1])
  }

  predicate NonEmptySegments(segments: seq<string>) {
    forall k :: 0 <= k < |segments| ==> segments[k] != []
  }

  /** Each further segment makes the location strictly longer. */
  lemma {:induction false} PathOfLonger(segments: seq<string>, j: nat, k: nat)
    requires NonEmptySegments(segments) && j < k <= |segments|
    ensures |PathOf(segments[..j])| < |PathOf(segments[..k])|
    decreases k - j
  {
    assert segments[..k][..k - 1] == segments[..k - 1];
    assert PathOf(segments[..k]) == ChildPath(PathOf(segments[..k - 1]), segments[k - 1]);
    if j < k - 1 {
      PathOfLonger(segments, j, k - 1);
    }
  }

  /** The base path creates a group at every prefix of the segments. */
  lemma {:induction false} BaseGroupsPrefixes(segments: seq<string>)
    ensures forall k :: 0 <= k <= |segments| ==> PathOf(segments[..k]) in BaseGroups(segments)
    decreases |segments|
  {
    if segments == [] {
      assert segments[..0] == [];
    } else {
      var n := |segments|;
      var above := segments[..n - 1];
      BaseGroupsPrefixes(above);
      forall k | 0 <= k <= n
        ensures PathOf(segments[..k]) in BaseGroups(segments)
      {
        if k < n {
          assert above[..k] == segments[..k];
        } else {
          assert segments[..n] == segments;
        }
      }
    }
  }

  /** The base path creates no group other than those at the prefixes of the segments. */
  lemma {:induction false} BaseGroupsOnlyPrefixes(segments: seq<string>)
    ensures forall location :: location in BaseGroups(segments) ==>
      exists k :: 0 <= k <= |segments| && location == PathOf(segments[..k])
    decreases |segments|
  {
    if segments == [] {
      assert segments[..0] == [];
    } else {
      var n := |segments|;
      var above := segments[..n - 1];
      BaseGroupsOnlyPrefixes(above);
      assert PathOf(segments) == ChildPath(PathOf(above), segments[n - 1]);
      forall location | location in BaseGroups(segments)
        ensures exists k :: 0 <= k <= n && location == PathOf(segments[..k])
      {
        if location == PathOf(segments) {
          assert segments[..n] == segments;
        } else {
          assert location in BaseGroups(above);
          var k :| 0 <= k <= n - 1 && location == PathOf(above[..k]);
          assert above[..k] == segments[..k];
          assert location == PathOf(segments[..k]);
        }
      }
    }
  }

  /** The groups of the new file are exactly the root and the groups at the prefixes of the segments. */
  lemma BaseGroupsLocations(segments: seq<string>)
    ensures forall k :: 0 <= k <= |segments| ==> PathOf(segments[..k]) in BaseGroups(segments)
    ensures forall location :: location in BaseGroups(segments) ==>
      exists k :: 0 <= k <= |segments| && location == PathOf(segments[..k])
  {
    BaseGroupsPrefixes(segments);
    BaseGroupsOnlyPrefixes(segments);
  }

  /**
    The base path is a chain of nested groups: the group at each prefix of the segments holds
    exactly the next segment, the innermost one is empty, and none has attributes.
   */
  lemma {:induction false} BaseGroupsNested(segments: seq<string>)
    requires NonEmptySegments(segments)
    ensures forall k :: 0 <= k < |segments| ==>
      PathOf(segments[..k]) in BaseGroups(segments) &&
      BaseGroups(segments)[PathOf(segments[..k])] == Group({segments[k]}, map[])
    ensures BaseGroups(segments)[PathOf(segments)] == EmptyGroup
    decreases |segments|
  {
    if segments != [] {
      var n := |segments|;
      var above := segments[..n - 1];
      var last := segments[n - 1];
      assert NonEmptySegments(above);
      BaseGroupsNested(above);
      var before := BaseGroups(above);
      var parent := PathOf(above);
      var child := ChildPath(parent, last);
      assert segments[..n] == segments;
      assert segments[..n - 1] == above;
      PathOfLonger(segments, n - 1, n);
      assert before[parent] == EmptyGroup;
      forall k | 0 <= k < n
        ensures PathOf(segments[..k]) in BaseGroups(segments)
        ensures BaseGroups(segments)[PathOf(segments[..k])] == Group({segments[k]}, map[])
      {
        if k < n - 1 {
          PathOfLonger(segments, k, n - 1);
          PathOfLonger(segments, k, n);
          assert above[..k] == segments[..k];
          assert before[PathOf(above[..k])] == Group({above[k]}, map[]);
        }
      }
    }
  }

  /** The handles of a stack holding the file and then the group at every prefix of `segments[..n]`. */
  predicate GroupStack(segments: seq<string>, groups: seq<Handle>, n: nat) {
    && n <= |segments| && |groups| == n + 1 && groups[0] == FileHandle
    && forall k :: 1 <= k <= n ==> groups[k] == GroupHandle(PathOf(segments[..k]))
  }

  /** One more segment: one more group, created inside the group of the segments before it. */
  lemma BaseGroupsStep(segments: seq<string>, i: nat)
    requires i < |segments|
    ensures PathOf(segments[..i + 1]) == ChildPath(PathOf(segments[..i]), segments[i])
    ensures BaseGroups(segments[..i + 1]) == AddGroup(BaseGroups(segments[..i]), PathOf(segments[..i]), segments[i])
  {
    assert segments[..i + 1][..i] == segments[..i];
  }

  /**
    The creating loop of createFile: starting from the file handle, create one group per
    segment inside the group on top of the handle stack and push it.
   */
  method PushGroups(segments: seq<string>) returns (nodes: map<string, Group>, groups: seq<Handle>)
    ensures nodes == BaseGroups(segments)
    ensures GroupStack(segments, groups, |segments|)
  {
    nodes := map["/" := EmptyGroup];
    groups := [FileHandle];
    var i := 0;
    while i < |segments|
      invariant 0 <= i <= |segments|
      invariant nodes == BaseGroups(segments[..i])
      invariant GroupStack(segments, groups, i)
    {
      var top := HandleLocation(groups[|groups| - 1]);
      assert top == PathOf(segments[..i]);
      BaseGroupsStep(segments, i);
      nodes := AddGroup(nodes, top, segments[i]);
      groups := groups + [GroupHandle(ChildPath(top, segments[i]))];
      i := i + 1;
    }
    assert segments[..|segments|] == segments;
  }

  /** The closing loop of createFile: close and pop groups until the file handle is on top again. */
  method CloseGroups(segments: seq<string>, stack: seq<Handle>) returns (open: seq<Handle>, closed: seq<Handle>)
    requires GroupStack(segments, stack, |segments|)
    ensures open == [FileHandle]
    ensures |closed| == |segments|
    ensures forall k :: 0 <= k < |closed| ==> closed[k] == GroupHandle(PathOf(segments[..|segments| - k]))
  {
    var groups := stack;
    closed := [];
    while groups[|groups| - 1] != FileHandle
      invariant 1 <= |groups| <= |stack| && groups == stack[..|groups|]
      invariant |closed| == |stack| - |groups|
      invariant forall k :: 0 <= k < |closed| ==> closed[k] == stack[|stack| - 1 - k]
      decreases |groups|
    {
      closed := closed + [groups[|groups| - 1]];
      groups := groups[..|groups| - 1];
    }
    open := groups;
  }

  /**
    The base-path loops of createFile: push one new group per segment, then pop and close them
    until only the file handle is left.
   */
  method CreateGroups(segments: seq<string>) returns (nodes: map<string, Group>, open: seq<Handle>, closed: seq<Handle>)
    ensures nodes == BaseGroups(segments)
    ensures open == [FileHandle]
    ensures |closed| == |segments|
    ensures forall k :: 0 <= k < |closed| ==> closed[k] == GroupHandle(PathOf(segments[..|segments| - k]))
  {
    var groups;
    nodes, groups := PushGroups(segments);
    open, closed := CloseGroups(segments, groups);
  }

  /** H5Oopen succeeds: there is an open file and it has a group at `location`. */
  function NodeExists(file: Option<FileImage>, location: string): (b: bool)
    ensures file.None? ==> !b
    ensures b ==> location in file.value.nodes
  {
    file.Some? && location in file.value.nodes
  }

  /**
    H5Aexists: the group at `location` has an attribute `name`. On a node H5Oopen could not
    open there is no attribute, so the test `H5Aexists(node_id, name) == 0` alone decides
    between creating and opening.
   */
  function AttributeExists(file: Option<FileImage>, location: string, name: string): (b: bool)
    ensures b ==> NodeExists(file, location)
    ensures b ==> name in file.value.nodes[location].attributes
  {
    NodeExists(file, location) && name in file.value.nodes[location].attributes
  }

  /**
    `after` differs from `before` at most by attribute `name` of the group at `location`:
    same file, same groups, same sub-groups, every other attribute as it was.
   */
  predicate OnlyAttributeAdded(before: Option<FileImage>, after: Option<FileImage>, location: string, name: string) {
    && (before.None? ==> after.None?)
    && (before.Some? ==>
          && after.Some?
          && after.value.name == before.value.name
          && after.value.nodes.Keys == before.value.nodes.Keys
          && (forall l :: l in before.value.nodes && l != location ==> after.value.nodes[l] == before.value.nodes[l])
          && (location in before.value.nodes ==>
                var b := before.value.nodes[location];
                var a := after.value.nodes[location];
                && a.children == b.children
                && a.attributes.Keys <= b.attributes.Keys + {name}
                && (forall n :: n in b.attributes && n != name ==> n in a.attributes && a.attributes[n] == b.attributes[n])))
  }

  /**
    The create-or-open decision of writeAttribute at a resolved location: an attribute that
    does not exist yet is created with the datatype and dataspace of the value; an existing one
    is opened and keeps its layout. Without an open file, or without a group at the location,
    the native open fails, H5Aexists reports an error rather than 0, the open branch is taken
    and nothing changes.
   */
  function OpenOrCreate(file: Option<FileImage>, location: string, name: string, att: Attribute): (r: Result<Option<FileImage>, Fault>)
    ensures r.Err? <==> NodeExists(file, location) && !AttributeExists(file, location, name) && att.dtype in {VEC_STRING, UNDEFINED}
    ensures r.Err? ==> r == Err(H5DataType(att).error)
    ensures r.Ok? ==> OnlyAttributeAdded(file, r.value, location, name)
    ensures r.Ok? && NodeExists(file, location) ==> AttributeExists(r.value, location, name)
    ensures AttributeExists(file, location, name) ==> r == Ok(file)
    ensures !NodeExists(file, location) ==> r == Ok(file)
    ensures r.Ok? && !AttributeExists(file, location, name) && NodeExists(file, location) ==>
      H5DataType(att).Ok? && H5DataSpace(att).Ok? &&
      r.value.value.nodes[location].attributes[name] == AttributeLayout(H5DataType(att).value, H5DataSpace(att).value)
  {
    if NodeExists(file, location) && !AttributeExists(file, location, name) then
      match (H5DataType(att), H5DataSpace(att))
      case (Err(f), _) => Err(f)
      case (_, Err(f)) => Err(f)
      case (Ok(h5type), Ok(extent)) =>
        var g := file.value.nodes[location];
        var created := g.(attributes := g.attributes[name := AttributeLayout(h5type, extent)]);
        Ok(Some(file.value.(nodes := file.value.nodes[location := created])))
    else
      Ok(file)
  }
}
