/** What the drain, the dispatch table and the two handlers guarantee, stated over the specifications. */
module FlushProperties {
  import opened Wrappers
  import opened Faults
  import opened Attributes
  import opened HDF5Types
  import opened HDF5File
  import opened Writables
  import opened Auxiliary
  import opened HDF5

  /** The switch of flush, kind by kind. */
  lemma DispatchTable(directory: string, world: World, task: IOTask)
    requires WellFormed(world.writables) && task.writable < |world.writables|
    ensures task.operation in CreateFileOps ==>
      Dispatch(directory, world, task) == CreateFileSpec(directory, world, task.writable, task.parameter)
    ensures task.operation in WriteAttributeOps ==>
      Dispatch(directory, world, task) == WriteAttributeSpec(world, task.writable, task.parameter)
    ensures task.operation !in CreateFileOps + WriteAttributeOps ==>
      Dispatch(directory, world, task) == Completed(world)
  {
  }

  /** Draining two queues one after the other is draining their concatenation, unless the first faults. */
  lemma {:induction false} DrainAppend(directory: string, world: World, first: seq<IOTask>, second: seq<IOTask>)
    requires WellFormed(world.writables) && TargetsIn(first + second, |world.writables|)
    ensures TargetsIn(first, |world.writables|) && TargetsIn(second, |world.writables|)
    ensures var d := Drain(directory, world, first);
      Drain(directory, world, first + second) ==
        if d.fault.None? then Drain(directory, d.world, second)
        else Drained(d.world, d.remaining + second, d.fault)
    decreases |first|
  {
    assert forall k :: 0 <= k < |first| ==> first[k] == (first + second)[k];
    assert forall k :: 0 <= k < |second| ==> second[k] == (first + second)[|first| + k];
    if first == [] {
      assert first + second == second;
    } else {
      assert (first + second)[0] == first[0];
      assert (first + second)[1..] == first[1..] + second;
      match Dispatch(directory, world, first[0])
      case Completed(next) =>
        DrainAppend(directory, next, first[1..], second);
      case Raised(next, f) =>
    }
  }

  /** The tail of a queue seen from index `k - 1` is the queue seen from `k`. */
  lemma SliceShift(queue: seq<IOTask>, k: nat)
    requires 1 <= k < |queue|
    ensures queue[1..][k - 1..] == queue[k..] && queue[1..][k - 1] == queue[k]
  {
  }

  /** Draining a non-empty prefix whose front task completes continues with the rest of the prefix. */
  lemma DrainPrefixStep(directory: string, world: World, queue: seq<IOTask>, k: nat)
    requires WellFormed(world.writables) && TargetsIn(queue, |world.writables|)
    requires 1 <= k <= |queue| && Dispatch(directory, world, queue[0]).Completed?
    ensures var next := Dispatch(directory, world, queue[0]).world;
      TargetsIn(queue[1..][..k - 1], |next.writables|) &&
      Drain(directory, world, queue[..k]) == Drain(directory, next, queue[1..][..k - 1])
  {
    assert queue[..k][0] == queue[0] && queue[..k][1..] == queue[1..][..k - 1];
  }

  /**
    A drain that faults has applied every task before the failing one, left the failing task at
    the front of the queue, and dispatched nothing behind it.
   */
  lemma {:induction false} DrainStopsAtFault(directory: string, world: World, queue: seq<IOTask>)
    requires WellFormed(world.writables) && TargetsIn(queue, |world.writables|)
    requires Drain(directory, world, queue).fault.Some?
    ensures var d := Drain(directory, world, queue);
      var k := |queue| - |d.remaining|;
      var applied := Drain(directory, world, queue[..k]);
      0 <= k < |queue| && d.remaining == queue[k..] &&
      applied.fault.None? &&
      Dispatch(directory, applied.world, queue[k]) == Raised(d.world, d.fault.value)
    decreases |queue|
  {
    var d := Drain(directory, world, queue);
    var r := Dispatch(directory, world, queue[0]);
    if r.Completed? {
      var tail := queue[1..];
      assert d == Drain(directory, r.world, tail);
      DrainStopsAtFault(directory, r.world, tail);
      var k := |queue| - |d.remaining|;
      DrainPrefixStep(directory, world, queue, k);
      SliceShift(queue, k);
    } else {
      assert queue[..0] == [];
    }
  }

  /** A drain without a fault empties the queue and applies its tasks one after another, front first. */
  lemma {:induction false} DrainInOrder(directory: string, world: World, task: IOTask, rest: seq<IOTask>)
    requires WellFormed(world.writables) && TargetsIn([task] + rest, |world.writables|)
    requires Drain(directory, world, [task] + rest).fault.None?
    ensures Drain(directory, world, [task] + rest).remaining == []
    ensures Dispatch(directory, world, task).Completed?
    ensures Drain(directory, world, [task] + rest) == Drain(directory, Dispatch(directory, world, task).world, rest)
  {
    assert ([task] + rest)[0] == task;
    assert ([task] + rest)[1..] == rest;
  }

  /** A queue of one task: its outcome, still queued when it faults. */
  lemma DrainOne(directory: string, world: World, task: IOTask)
    requires WellFormed(world.writables) && task.writable < |world.writables|
    ensures var r := Dispatch(directory, world, task);
      Drain(directory, world, [task]) ==
        if r.Completed? then Drained(r.world, [], None) else Drained(r.world, [task], Some(r.fault))
  {
    assert [task][0] == task && [task][1..] == [];
  }

  /** Tasks of the kinds the switch ignores change nothing, and the queue drains without fault. */
  lemma {:induction false} IgnoredTasksChangeNothing(directory: string, world: World, queue: seq<IOTask>)
    requires WellFormed(world.writables) && TargetsIn(queue, |world.writables|)
    requires forall k :: 0 <= k < |queue| ==> queue[k].operation !in CreateFileOps + WriteAttributeOps
    ensures Drain(directory, world, queue) == Drained(world, [], None)
    decreases |queue|
  {
    if queue != [] {
      assert Dispatch(directory, world, queue[0]) == Completed(world);
      IgnoredTasksChangeNothing(directory, world, queue[1..]);
    }
  }

  /** No drain ever clears a `written` flag. */
  lemma {:induction false} DrainKeepsWritten(directory: string, world: World, queue: seq<IOTask>, i: nat)
    requires WellFormed(world.writables) && TargetsIn(queue, |world.writables|)
    requires i < |world.writables| && world.writables[i].written
    ensures Drain(directory, world, queue).world.writables[i].written
    decreases |queue|
  {
    if queue != [] {
      match Dispatch(directory, world, queue[0])
      case Completed(next) =>
        DrainKeepsWritten(directory, next, queue[1..], i);
      case Raised(next, f) =>
    }
  }

  /** A Writable becomes written during a drain only through a createFile task aimed at it. */
  lemma {:induction false} WrittenOnlyByCreateFile(directory: string, world: World, queue: seq<IOTask>, i: nat)
    requires WellFormed(world.writables) && TargetsIn(queue, |world.writables|)
    requires i < |world.writables| && !world.writables[i].written
    requires Drain(directory, world, queue).world.writables[i].written
    ensures exists k :: 0 <= k < |queue| && queue[k].writable == i && queue[k].operation in CreateFileOps
    decreases |queue|
  {
    var head := queue[0];
    match Dispatch(directory, world, head)
    case Completed(next) =>
      if head.writable == i && head.operation in CreateFileOps {
        assert queue[0] == head;
      } else {
        assert next.writables[i] == world.writables[i];
        WrittenOnlyByCreateFile(directory, next, queue[1..], i);
        var k :| 0 <= k < |queue[1..]| && queue[1..][k].writable == i && queue[1..][k].operation in CreateFileOps;
        assert queue[k + 1] == queue[1..][k];
      }
    case Raised(next, f) =>
      assert next.writables[i] == world.writables[i] || (head.writable == i && head.operation in CreateFileOps);
  }

  /** createFile on a Writable it has already created is a no-op, whatever the parameters. */
  lemma CreateFileIdempotent(directory: string, world: World, w: nat, params: Parameters, again: Parameters)
    requires w < |world.writables|
    requires CreateFileSpec(directory, world, w, params).Completed?
    ensures var first := CreateFileSpec(directory, world, w, params).world;
      CreateFileSpec(directory, first, w, again) == Completed(first)
  {
  }

  /** Queueing the same file-creation task twice has the effect of queueing it once. */
  lemma CreateFileTwiceIsOnce(directory: string, world: World, task: IOTask)
    requires WellFormed(world.writables) && task.writable < |world.writables|
    requires task.operation in CreateFileOps
    ensures var once := Drain(directory, world, [task]);
      var twice := Drain(directory, world, [task, task]);
      twice.world == once.world && twice.fault == once.fault
  {
    assert [task] + [task] == [task, task];
    DrainAppend(directory, world, [task], [task]);
    DispatchTable(directory, world, task);
    DrainOne(directory, world, task);
    var r := Dispatch(directory, world, task);
    if r.Completed? {
      CreateFileIdempotent(directory, world, task.writable, task.parameter, task.parameter);
      DispatchTable(directory, r.world, task);
      DrainOne(directory, r.world, task);
    }
  }

  /**
    A successful createFile names the file `directory + name + ".h5"` and leaves in it the base
    path as a chain of nested groups, one per segment of the base path with `%T/` removed, in
    order, and no other group.
   */
  lemma CreateFileLayout(directory: string, world: World, w: nat, params: Parameters)
    requires w < |world.writables| && !world.writables[w].written
    requires StringParameter(params, "name").Ok? && StringParameter(params, "basePath").Ok?
    ensures var r := CreateFileSpec(directory, world, w, params);
      var segments := Split(ReplaceFirst(params["basePath"].s, "%T/", ""), '/');
      && r.Completed? && r.world.file.Some?
      && r.world.file.value.name == directory + params["name"].s + ".h5"
      && (forall k :: 0 <= k < |segments| ==>
            PathOf(segments[..k]) in r.world.file.value.nodes &&
            r.world.file.value.nodes[PathOf(segments[..k])] == Group({segments[k]}, map[]))
      && PathOf(segments) in r.world.file.value.nodes
      && r.world.file.value.nodes[PathOf(segments)] == EmptyGroup
      && (forall location :: location in r.world.file.value.nodes ==>
            exists k :: 0 <= k <= |segments| && location == PathOf(segments[..k]))
  {
    var segments := Split(ReplaceFirst(params["basePath"].s, "%T/", ""), '/');
    BaseGroupsNested(segments);
    BaseGroupsLocations(segments);
  }

  /** A string-vector attribute can never be written: the datatype lookup always faults. */
  lemma VecStringNeverWritten(world: World, w: nat, params: Parameters)
    requires WellFormed(world.writables) && w < |world.writables|
    requires "attribute" in params && params["attribute"].VecString?
    ensures WriteAttributeSpec(world, w, params).Raised? && WriteAttributeSpec(world, w, params).world == world
  {
    assert params["attribute"].dtype == VEC_STRING;
  }

  /** Once the location and the name are there, a string vector faults as a type mismatch. */
  lemma VecStringMismatch(world: World, w: nat, params: Parameters, names: seq<string>)
    requires WellFormed(world.writables) && w < |world.writables|
    requires AbsoluteLocation(world.writables, w).Ok?
    requires "attribute" in params && params["attribute"] == VecString(names)
    requires StringParameter(params, "name").Ok?
    ensures WriteAttributeSpec(world, w, params) == Raised(world, TypeMismatch)
  {
  }

  /** Once the location and the parameters are there, an UNDEFINED value faults as an unknown datatype. */
  lemma UndefinedAttributeFaults(world: World, w: nat, params: Parameters)
    requires WellFormed(world.writables) && w < |world.writables|
    requires AbsoluteLocation(world.writables, w).Ok?
    requires "attribute" in params && params["attribute"] == Undefined
    requires StringParameter(params, "name").Ok?
    ensures WriteAttributeSpec(world, w, params) == Raised(world, UnknownDatatype)
  {
    assert params["attribute"].dtype == UNDEFINED;
  }

  /**
    A successful writeAttribute leaves the attribute present at the resolved location when that
    location is a group of the open file, keeps an existing attribute's layout, and touches no
    other attribute and no group.
   */
  lemma WriteAttributeEffect(world: World, w: nat, params: Parameters)
    requires WellFormed(world.writables) && w < |world.writables|
    requires WriteAttributeSpec(world, w, params).Completed?
    ensures var after := WriteAttributeSpec(world, w, params).world.file;
      var location := AbsoluteLocation(world.writables, w).value;
      var name := params["name"].s;
      && OnlyAttributeAdded(world.file, after, location, name)
      && (NodeExists(world.file, location) ==> AttributeExists(after, location, name))
      && (AttributeExists(world.file, location, name) ==> after == world.file)
      && (NodeExists(world.file, location) && !AttributeExists(world.file, location, name) ==>
            after.value.nodes[location].attributes[name] ==
              AttributeLayout(H5DataType(params["attribute"]).value, H5DataSpace(params["attribute"]).value))
  {
  }

  /** Right after createFile, a root Writable sits at "/", a group of the new file with no attributes. */
  lemma CreatedRootIsBare(directory: string, world: World, w: nat, params: Parameters)
    requires WellFormed(world.writables) && w < |world.writables|
    requires world.writables[w].parent.None? && !world.writables[w].written
    requires StringParameter(params, "name").Ok? && StringParameter(params, "basePath").Ok?
    ensures var next := CreateFileSpec(directory, world, w, params).world;
      && AbsoluteLocation(next.writables, w) == Ok("/")
      && NodeExists(next.file, "/") && next.file.value.nodes["/"].attributes == map[]
  {
    var next := CreateFileSpec(directory, world, w, params).world;
    assert AbsoluteLocation(next.writables, w) == Ok("/") by {
      assert "" + "/" == "/";
    }
    var segments := BasePathSegments(params["basePath"].s);
    BaseGroupsNested(segments);
    assert segments[..0] == [];
    if segments != [] {
      assert next.file.value.nodes[PathOf(segments[..0])] == Group({segments[0]}, map[]);
    }
  }

  /**
    Creating a file for a root Writable and then writing an attribute to it places the attribute
    at "/" with the datatype and dataspace of its value.
   */
  lemma FileThenAttribute(directory: string, world: World, w: nat, fileParams: Parameters, attParams: Parameters)
    requires WellFormed(world.writables) && w < |world.writables|
    requires world.writables[w].parent.None? && !world.writables[w].written
    requires StringParameter(fileParams, "name").Ok? && StringParameter(fileParams, "basePath").Ok?
    requires StringParameter(attParams, "name").Ok? && "attribute" in attParams
    requires attParams["attribute"].dtype !in {VEC_STRING, UNDEFINED}
    ensures var d := Drain(directory, world, [IOTask(w, CREATE_FILE, fileParams), IOTask(w, WRITE_ATT, attParams)]);
      var att := attParams["attribute"];
      && d.fault.None? && d.remaining == []
      && d.world.file.Some? && "/" in d.world.file.value.nodes
      && attParams["name"].s in d.world.file.value.nodes["/"].attributes
      && d.world.file.value.nodes["/"].attributes[attParams["name"].s] ==
           AttributeLayout(H5DataType(att).value, H5DataSpace(att).value)
  {
    var create := IOTask(w, CREATE_FILE, fileParams);
    var write := IOTask(w, WRITE_ATT, attParams);
    assert [create] + [write] == [create, write];
    DrainAppend(directory, world, [create], [write]);
    DispatchTable(directory, world, create);
    DrainOne(directory, world, create);
    var next := CreateFileSpec(directory, world, w, fileParams).world;
    CreatedRootIsBare(directory, world, w, fileParams);
    DispatchTable(directory, next, write);
    WriteAttributeEffect(next, w, attParams);
    DrainOne(directory, next, write);
  }
}
