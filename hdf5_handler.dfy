/**
  The HDF5 backend: the deferred-task queue, its drain (flush) and the two task handlers it
  dispatches to, createFile and writeAttribute. Each handler is specified by a function on the
  backend-visible world (the Writables and the open file) and implemented by a method of the
  handler class that updates the same state in place.
 */
module HDF5 {
  import opened Wrappers
  import opened Faults
  import opened Attributes
  import opened HDF5Types
  import opened HDF5File
  import opened Writables
  import opened Auxiliary

  datatype Operation =
    | CREATE_FILE | CREATE_PATH | CREATE_DATASET | EXTEND_DATASET
    | OPEN_FILE | OPEN_PATH | OPEN_DATASET
    | DELETE_FILE | DELETE_PATH | DELETE_DATASET | DELETE_ATT
    | WRITE_DATASET | WRITE_ATT | READ_DATASET | READ_ATT
    | LIST_PATHS | LIST_DATASETS | LIST_ATTS

  /** The kinds flush hands to createFile, and those it hands to writeAttribute. */
  const CreateFileOps: set<Operation> := {CREATE_FILE, CREATE_DATASET}
  const WriteAttributeOps: set<Operation> := {CREATE_PATH, WRITE_ATT}

  type Parameters = map<string, Attribute>

  /** An IOTask: the arena index of its Writable, its operation and its parameters. */
  datatype IOTask = IOTask(writable: nat, operation: Operation, parameter: Parameters)

  /** Every task of the queue refers to a Writable of the arena. */
  predicate TargetsIn(queue: seq<IOTask>, n: nat) {
    forall k :: 0 <= k < |queue| ==> queue[k].writable < n
  }

  /** What the backend reads and changes: the Writables and the file m_fileID refers to. */
  datatype World = World(writables: Arena, file: Option<FileImage>)

  /** The state after one task, and the fault it raised, if any. */
  datatype Outcome = Completed(world: World) | Raised(world: World, fault: Fault) {
    function Error(): Option<Fault> {
      if Raised? then Some(fault) else None
    }
  }

  /** The state after a drain, what is still queued, and the fault that stopped it, if any. */
  datatype Drained = Drained(world: World, remaining: seq<IOTask>, fault: Option<Fault>)

  /** `parameters.at(key)`. */
  function Parameter(params: Parameters, key: string): (r: Result<Attribute, Fault>)
    ensures r.Ok? <==> key in params
    ensures r.Ok? ==> r.value == params[key]
    ensures r.Err? ==> r.error == MissingParameter(key)
  {
    if key in params then Ok(params[key]) else Err(MissingParameter(key))
  }

  /** `parameters.at(key).get<std::string>()`. */
  function StringParameter(params: Parameters, key: string): (r: Result<string, Fault>)
    ensures r.Ok? <==> key in params && params[key].String?
    ensures r.Ok? ==> r.value == params[key].s
    ensures r.Err? ==> r.error == if key in params then TypeMismatch else MissingParameter(key)
  {
    var att :- Parameter(params, key);
    GetString(att)
  }

  /** The groups createFile makes for a base path: `%T/` removed, then split at `/`. */
  function BasePathSegments(basePath: string): (segments: seq<string>)
    ensures NonEmptySegments(segments)
    ensures forall k :: 0 <= k < |segments| ==> '/' !in segments[k]
  {
    Split(ReplaceFirst(basePath, "%T/", ""), '/')
  }

  /** The Writable as createFile leaves it: written, clean, positioned at the root "/". */
  function Materialized(w: Writable): (m: Writable)
    ensures m.written && !m.dirty && m.position == Some("/")
    ensures m.parent == w.parent
  {
    w.(dirty := false, written := true, position := Some("/"))
  }

  /**
    createFile. A written Writable is left alone. Otherwise the file `directory + name + ".h5"`
    is created (truncating), then the base path is created in it as nested groups, and the
    Writable is marked. "name" is read before the file is created and "basePath" after, so a
    missing base path leaves the new, empty file behind with the Writable unmarked.
   */
  function CreateFileSpec(directory: string, world: World, w: nat, params: Parameters): (r: Outcome)
    requires w < |world.writables|
    ensures |r.world.writables| == |world.writables|
    ensures forall i :: 0 <= i < |world.writables| && i != w ==> r.world.writables[i] == world.writables[i]
    ensures forall i :: 0 <= i < |world.writables| ==> r.world.writables[i].parent == world.writables[i].parent
    ensures world.writables[w].written ==> r == Completed(world)
    ensures r.Raised? ==> r.world.writables == world.writables
    ensures r.Completed? <==>
      world.writables[w].written ||
      (StringParameter(params, "name").Ok? && StringParameter(params, "basePath").Ok?)
    ensures !world.writables[w].written && StringParameter(params, "name").Err? ==> r == Raised(world, StringParameter(params, "name").error)
    ensures !world.writables[w].written && StringParameter(params, "name").Ok? &&
            StringParameter(params, "basePath").Err? ==>
      r.Raised? && r.fault == StringParameter(params, "basePath").error
    ensures r.Raised? && StringParameter(params, "name").Ok? ==>
      r.world.file == Some(FileImage(directory + params["name"].s + ".h5", map["/" := EmptyGroup]))
    ensures r.Completed? ==> r.world.writables[w].written
    ensures r.Completed? && !world.writables[w].written ==>
      !r.world.writables[w].dirty && r.world.writables[w].position == Some("/")
  {
    if world.writables[w].written then Completed(world)
    else
      match StringParameter(params, "name")
      case Err(f) => Raised(world, f)
      case Ok(name) =>
        var fileName := directory + name + ".h5";
        var truncated := world.(file := Some(FileImage(fileName, map["/" := EmptyGroup])));
        match StringParameter(params, "basePath")
        case Err(f) => Raised(truncated, f)
        case Ok(basePath) =>
          Completed(World(world.writables[w := Materialized(world.writables[w])],
                          Some(FileImage(fileName, BaseGroups(BasePathSegments(basePath))))))
  }

  /**
    writeAttribute as a computation of the new file: resolve the location, read "attribute" and
    "name", create the attribute or open the existing one, then write its value, which needs the
    datatype once more.
   */
  function AttributeWrite(world: World, w: nat, params: Parameters): (r: Result<Option<FileImage>, Fault>)
    requires WellFormed(world.writables) && w < |world.writables|
    ensures r.Ok? <==>
      AbsoluteLocation(world.writables, w).Ok? && "attribute" in params &&
      StringParameter(params, "name").Ok? && params["attribute"].dtype !in {VEC_STRING, UNDEFINED}
    ensures r.Ok? ==>
      OnlyAttributeAdded(world.file, r.value, AbsoluteLocation(world.writables, w).value, params["name"].s)
    ensures AbsoluteLocation(world.writables, w).Err? ==> r == Err(AbsoluteLocation(world.writables, w).error)
    ensures AbsoluteLocation(world.writables, w).Ok? && "attribute" !in params ==>
      r == Err(MissingParameter("attribute"))
    ensures (AbsoluteLocation(world.writables, w).Ok? && "attribute" in params &&
             StringParameter(params, "name").Err?) ==>
      r == Err(StringParameter(params, "name").error)
    ensures (AbsoluteLocation(world.writables, w).Ok? && "attribute" in params &&
             StringParameter(params, "name").Ok? && H5DataType(params["attribute"]).Err?) ==>
      r == Err(H5DataType(params["attribute"]).error)
  {
    var location :- AbsoluteLocation(world.writables, w);
    var att :- Parameter(params, "attribute");
    var name :- StringParameter(params, "name");
    var file :- OpenOrCreate(world.file, location, name, att);
    var writeType :- H5DataType(att);
    Ok(file)
  }

  /**
    writeAttribute. It never changes a Writable; it faults before changing the file, and it
    succeeds exactly when the location resolves, both parameters are present and the value is
    neither UNDEFINED nor a string vector.
   */
  function WriteAttributeSpec(world: World, w: nat, params: Parameters): (r: Outcome)
    requires WellFormed(world.writables) && w < |world.writables|
    ensures r.world.writables == world.writables
    ensures r.Raised? ==> r.world == world
    ensures r.Completed? <==>
      AbsoluteLocation(world.writables, w).Ok? && "attribute" in params &&
      StringParameter(params, "name").Ok? && params["attribute"].dtype !in {VEC_STRING, UNDEFINED}
    ensures r.Raised? ==> AttributeWrite(world, w, params) == Err(r.fault)
    ensures AbsoluteLocation(world.writables, w).Err? ==>
      r == Raised(world, AbsoluteLocation(world.writables, w).error)
  {
    match AttributeWrite(world, w, params)
    case Err(f) => Raised(world, f)
    case Ok(file) => Completed(world.(file := file))
  }

  /** One pass of the switch in flush. Kinds the switch does not route fall through unchanged. */
  function Dispatch(directory: string, world: World, task: IOTask): (r: Outcome)
    requires WellFormed(world.writables) && task.writable < |world.writables|
    ensures WellFormed(r.world.writables) && |r.world.writables| == |world.writables|
    ensures forall i :: 0 <= i < |world.writables| && (i != task.writable || task.operation !in CreateFileOps) ==>
      r.world.writables[i] == world.writables[i]
    ensures forall i :: 0 <= i < |world.writables| && world.writables[i].written ==> r.world.writables[i].written
  {
    match task.operation
    case CREATE_DATASET | CREATE_FILE => CreateFileSpec(directory, world, task.writable, task.parameter)
    case CREATE_PATH | WRITE_ATT => WriteAttributeSpec(world, task.writable, task.parameter)
    case _ => Completed(world)
  }

  /**
    flush: dispatch the front task, pop it, repeat until the queue is empty. A fault leaves the
    loop before the pop, so the failing task and everything behind it stay queued.
   */
  function Drain(directory: string, world: World, queue: seq<IOTask>): (d: Drained)
    requires WellFormed(world.writables) && TargetsIn(queue, |world.writables|)
    ensures WellFormed(d.world.writables) && |d.world.writables| == |world.writables|
    ensures d.fault.None? <==> d.remaining == []
    ensures |d.remaining| <= |queue| && d.remaining == queue[|queue| - |d.remaining|..]
    decreases |queue|
  {
    if queue == [] then Drained(world, [], None)
    else
      match Dispatch(directory, world, queue[0])
      case Completed(next) => Drain(directory, next, queue[1..])
      case Raised(next, f) => Drained(next, queue, Some(f))
  }

  /**
    The HDF5 handler: its queue of deferred tasks, the Writables those tasks point to, and the
    file it has open.
   */
  class HDF5IOHandler {
    const directory: string
    var work: seq<IOTask>
    var writables: Arena
    var file: Option<FileImage>

    ghost predicate Valid()
      reads this
    {
      WellFormed(writables) && TargetsIn(work, |writables|)
    }

    function State(): World
      reads this
    {
      World(writables, file)
    }

    constructor (directory: string, writables: Arena)
      requires WellFormed(writables)
      ensures Valid() && this.directory == directory
      ensures State() == World(writables, None) && work == []
    {
      this.directory := directory;
      this.writables := writables;
      this.file := None;
      this.work := [];
    }

    /** Queue a task behind every task already queued. */
    method Enqueue(task: IOTask)
      requires Valid() && task.writable < |writables|
      modifies this
      ensures Valid() && work == old(work) + [task] && State() == old(State())
    {
      work := work + [task];
    }

    /** flush: run the queued tasks front first; stop at the first fault, leaving that task queued. */
    method Flush() returns (fault: Option<Fault>)
      requires Valid()
      modifies this
      ensures Valid()
      ensures var d := Drain(directory, old(State()), old(work));
        State() == d.world && work == d.remaining && fault == d.fault
    {
      while work != []
        invariant Valid()
        invariant Drain(directory, State(), work) == Drain(directory, old(State()), old(work))
        decreases |work|
      {
        var task := work[0];
        ghost var before := State();
        var f := Execute(task);
        if f.Some? {
          assert Drain(directory, before, work) == Drained(State(), work, f);
          return f;
        }
        assert Drain(directory, before, work) == Drain(directory, State(), work[1..]);
        work := work[1..];
      }
      return None;
    }

    /** The switch of flush: route one task to its handler. */
    method Execute(task: IOTask) returns (fault: Option<Fault>)
      requires Valid() && task.writable < |writables|
      modifies this
      ensures Valid() && work == old(work)
      ensures var o := Dispatch(directory, old(State()), task);
        State() == o.world && fault == o.Error()
    {
      match task.operation
      case CREATE_DATASET | CREATE_FILE =>
        fault := CreateFile(task.writable, task.parameter);
      case CREATE_PATH | WRITE_ATT =>
        fault := WriteAttribute(task.writable, task.parameter);
      case _ =>
        fault := None;
    }

    method CreateFile(writable: nat, parameters: Parameters) returns (fault: Option<Fault>)
      requires Valid() && writable < |writables|
      modifies this
      ensures Valid() && work == old(work)
      ensures var o := CreateFileSpec(directory, old(State()), writable, parameters);
        State() == o.world && fault == o.Error()
    {
      if !writables[writable].written {
        var name := StringParameter(parameters, "name");
        if name.Err? {
          return Some(name.error);
        }
        var fileName := directory + name.value + ".h5";
        file := Some(FileImage(fileName, map["/" := EmptyGroup]));
        var basePath := StringParameter(parameters, "basePath");
        if basePath.Err? {
          return Some(basePath.error);
        }
        var nodes, open, closed := CreateGroups(BasePathSegments(basePath.value));
        file := Some(FileImage(fileName, nodes));
        writables := writables[writable := Materialized(writables[writable])];
      }
      return None;
    }

    method WriteAttribute(writable: nat, parameters: Parameters) returns (fault: Option<Fault>)
      requires Valid() && writable < |writables|
      modifies this
      ensures Valid() && work == old(work)
      ensures var o := WriteAttributeSpec(old(State()), writable, parameters);
        State() == o.world && fault == o.Error()
    {
      var location := ResolveLocation(writables, writable);
      if location.Err? {
        return Some(location.error);
      }
      var att := Parameter(parameters, "attribute");
      if att.Err? {
        return Some(att.error);
      }
      var name := StringParameter(parameters, "name");
      if name.Err? {
        return Some(name.error);
      }
      var newFile := OpenOrCreate(file, location.value, name.value, att.value);
      if newFile.Err? {
        return Some(newFile.error);
      }
      file := newFile.value;
      var writeType := H5DataType(att.value);
      if writeType.Err? {
        return Some(writeType.error);
      }
      return None;
    }
  }
}
