# HDF5 backend of openPMD-api, modelled in Dafny

This project models the HDF5 IO handler of openPMD-api (`src/IO/HDF5/HDF5IOHandler.cpp`).
The frontend records deferred work as a FIFO queue of IO tasks. Each task names a Writable,
an operation and a map of parameters. `flush` drains the queue, front first, and routes each
task through a switch:

- `CREATE_FILE` and `CREATE_DATASET` go to `createFile`. It creates `directory + name + ".h5"`
  with truncation, creates the base path in it as nested groups, and marks the Writable
  written, clean and positioned at `/`.
- `CREATE_PATH` and `WRITE_ATT` go to `writeAttribute`. It resolves the Writable's absolute
  location by walking its parent chain, creates or opens the named attribute there, and writes it.
- Every other kind is ignored.

The HDF5 datatype and dataspace of an attribute come from `getH5DataType` and
`getH5DataSpace`.

The native HDF5 library is replaced by an abstract file image. It has a file name and a map
from group location to group. A group has a set of child names and a map from attribute name
to attribute layout. A layout is the HDF5 type plus the extent. Writables live in an arena, a
sequence indexed by number. A parent always comes before its children in the arena, so the
parent walk ends.

Faults stand for the exceptions the code can raise:

- `MissingParameter(key)` for `std::map::at`,
- `TypeMismatch` for `Attribute::get<T>` on a value of another type,
- `UnknownDatatype` for the `UNDEFINED` branches,
- `NoPosition(w)` for dereferencing a Writable that has no file position.

Files:

- `wrappers.dfy`: `Option`, `Result` and the `Fault` kinds.
- `attribute.dfy`: the attribute variant and its `Dtype` tag.
- `hdf5_types.dfy`: `getH5DataType` and `getH5DataSpace`.
- `auxiliary.dfy`: `replace` (first occurrence) and `split` (empty pieces dropped), with their laws.
- `writable.dfy`: the Writable tree, the parent walk and the location it builds.
- `hdf5_file.dfy`: the file image, group creation for the base path, and attribute create-or-open.
- `hdf5_handler.dfy`: the queue of IO tasks.
  - `CreateFileSpec`, `WriteAttributeSpec`, `Dispatch` and `Drain` specify each step.
  - The class `HDF5IOHandler` holds the queue, the Writables and the open file. Its methods
    are proved against those functions.
- `flush_properties.dfy`: what a drain guarantees over whole queues.

The code has these quirks, and the model keeps them:

- A task that faults is not popped: the pop (line 50) comes after the switch. The failing task
  stays at the front of the queue, with every task behind it.
- `CREATE_PATH` is routed to `writeAttribute` (lines 37-39). It never creates a group and never
  marks the Writable written.
- `DELETE_*`, `READ_*` and `WRITE_DATASET` are no-ops (lines 41-48). No access mode is consulted.
- `createFile` reads `"name"` before it creates the file and `"basePath"` after. A missing or
  non-string base path therefore leaves the new, empty, truncated file behind and the Writable
  unmarked.

## Model

| member | source | states |
|---|---|---|
| Attributes.GetString | src/IO/HDF5/HDF5IOHandler.cpp:82 | `get<std::string>()` succeeds exactly on a STRING value and returns its text; on any other kind it faults with a type mismatch |
| HDF5Types.H5DataType | src/IO/HDF5/HDF5IOHandler.cpp:55-88 | faults exactly on VEC_STRING (type mismatch, from the string-size lookup) and UNDEFINED (unknown datatype); a STRING gets a C string type sized to its length, and a C string type is chosen for no other kind; which other kinds share a native type is stated by SameNativeTypeSameElementKind |
| HDF5Types.StringType | src/IO/HDF5/HDF5IOHandler.cpp:78-84 | the string branch yields a C string of the value's length, and succeeds only for a STRING value |
| HDF5Types.H5DataSpace | src/IO/HDF5/HDF5IOHandler.cpp:90-152 | faults exactly on UNDEFINED, with an unknown-datatype fault; otherwise the dataspace has rank 1, extent 1 for scalars and strings, extent 7 for ARR_DBL_7 |
| HDF5Types.DataSpaceCountsElements | src/IO/HDF5/HDF5IOHandler.cpp:114-148 | for every defined kind, the extent is the number of scalar elements the value holds |
| HDF5Types.ElementKind | src/IO/HDF5/HDF5IOHandler.cpp:61-77 | the element kind of every defined kind is a scalar kind, and a scalar kind is its own element kind |
| HDF5Types.SameNativeTypeSameElementKind | src/IO/HDF5/HDF5IOHandler.cpp:61-77 | the type classes of the switch: two non-string attributes whose lookup succeeds get the same native type exactly when they store the same element kind (INT with VEC_INT, FLOAT with VEC_FLOAT, DOUBLE with ARR_DBL_7 and VEC_DOUBLE, UINT64 with VEC_UINT64, CHAR and UINT32 alone), so the six classes are distinct |
| HDF5Types.DataTypeIsElementType | src/IO/HDF5/HDF5IOHandler.cpp:61-77 | every element of a vector or array is of the container's element kind and gets the same HDF5 type as the container |
| Auxiliary.ReplaceFirstAt | src/IO/HDF5/HDF5IOHandler.cpp:178-180 | when the target first occurs at i, replacing gives the text before i, then the replacement, then the text after the occurrence |
| Auxiliary.ReplaceFirstAbsent | src/IO/HDF5/HDF5IOHandler.cpp:178-180 | a text without the target is left unchanged |
| Auxiliary.OccursShift | src/IO/HDF5/HDF5IOHandler.cpp:178-180 | an occurrence at j+1 is an occurrence at j in the text without its first character |
| Auxiliary.ReplaceFirst | src/IO/HDF5/HDF5IOHandler.cpp:178-180 | `replace` makes at most one substitution: the text is unchanged or its length changes by one target-to-replacement swap |
| Auxiliary.Split | src/IO/HDF5/HDF5IOHandler.cpp:181 | every piece is nonempty and free of the delimiter |
| Auxiliary.SplitFrom | src/IO/HDF5/HDF5IOHandler.cpp:181 | the scanning form of Split keeps the same piece invariant given a delimiter-free pending token |
| Auxiliary.SplitFromSkips | src/IO/HDF5/HDF5IOHandler.cpp:181 | scanning over a delimiter-free stretch only extends the pending token |
| Auxiliary.SplitJoin | src/IO/HDF5/HDF5IOHandler.cpp:181 | splitting the join of nonempty, delimiter-free pieces gives those pieces back |
| Auxiliary.SplitIgnoresDelimiterRuns | src/IO/HDF5/HDF5IOHandler.cpp:181 | a leading or trailing delimiter does not change the pieces |
| Auxiliary.SplitFromTrailing | src/IO/HDF5/HDF5IOHandler.cpp:181 | a trailing delimiter does not change the pieces of the scanning form |
| Writables.Ancestry | src/IO/HDF5/HDF5IOHandler.cpp:211-216 | the chain starts at the Writable, each entry's parent is the next entry, and it ends at a root |
| Writables.RootFirst | src/IO/HDF5/HDF5IOHandler.cpp:219-224 | the order in which the stack is popped: ends at the Writable itself, every entry in the arena |
| Writables.LocationAlong | src/IO/HDF5/HDF5IOHandler.cpp:219-224 | concatenating the positions along a path succeeds exactly when every node on it has a position; a fault names a node of the path that has none |
| Writables.AbsoluteLocation | src/IO/HDF5/HDF5IOHandler.cpp:211-224 | the reference location: on success the Writable has a position and the location ends with it; a fault names a Writable no later in the arena that has no position |
| Writables.RootFirstReversesAncestry | src/IO/HDF5/HDF5IOHandler.cpp:211-224 | popping the pushed chain visits it in reverse, root first |
| Writables.LocationAlongFaultPersists | src/IO/HDF5/HDF5IOHandler.cpp:219-224 | once a node without a position is met, the walk faults there whatever follows |
| Writables.LocationAlongStep | src/IO/HDF5/HDF5IOHandler.cpp:221-223 | each pop appends the next node's position to the location, or faults on that node |
| Writables.LocationAlongRootFirst | src/IO/HDF5/HDF5IOHandler.cpp:211-224 | concatenating positions root first equals the recursive absolute location (parent's location followed by own position) |
| Writables.AbsoluteLocationDefined | src/IO/HDF5/HDF5IOHandler.cpp:211-224 | the location resolves exactly when every Writable on the parent chain has a position |
| Writables.AbsoluteLocationFault | src/IO/HDF5/HDF5IOHandler.cpp:219-224 | a failed resolution names the root-most Writable on the chain that has no position |
| Writables.PathGap | src/IO/HDF5/HDF5IOHandler.cpp:219-224 | a Writable without a position, met after a prefix that resolves, is the fault of the whole walk |
| Writables.Reversed | src/IO/HDF5/HDF5IOHandler.cpp:219-223 | reading a stack from the top visits its elements in reverse order of pushing |
| Writables.AncestryReversed | src/IO/HDF5/HDF5IOHandler.cpp:211-224 | the pushed parent chain, popped, is the root-first chain |
| Writables.ParentChain | src/IO/HDF5/HDF5IOHandler.cpp:211-216 | the pushing loop collects exactly the parent chain, Writable first |
| Writables.StackLocation | src/IO/HDF5/HDF5IOHandler.cpp:218-224 | the popping loop concatenates the positions top of stack first, or faults on the first Writable without one |
| Writables.ResolveLocation | src/IO/HDF5/HDF5IOHandler.cpp:211-224 | the push-then-pop loops compute exactly the absolute location, or its fault |
| HDF5File.PathOf | src/IO/HDF5/HDF5IOHandler.cpp:183-188 | the location of a nested group starts at the root `/` and is longer than the last folder name |
| HDF5File.AddGroup | src/IO/HDF5/HDF5IOHandler.cpp:183-187 | H5Gcreate adds one empty child group, records it among the parent's children, and changes no other group |
| HDF5File.BaseGroups | src/IO/HDF5/HDF5IOHandler.cpp:176-189 | the innermost base-path group exists in the file |
| HDF5File.PathOfLonger | src/IO/HDF5/HDF5IOHandler.cpp:181-189 | deeper groups have strictly longer paths, so a child never overwrites an ancestor |
| HDF5File.BaseGroupsPrefixes | src/IO/HDF5/HDF5IOHandler.cpp:176-189 | a group exists at the root and at every prefix of the base path |
| HDF5File.BaseGroupsOnlyPrefixes | src/IO/HDF5/HDF5IOHandler.cpp:176-189 | every group of the new file is the root or sits at a prefix of the base path |
| HDF5File.BaseGroupsLocations | src/IO/HDF5/HDF5IOHandler.cpp:176-189 | the groups of the new file are exactly the root and the path of every prefix of the base path |
| HDF5File.BaseGroupsNested | src/IO/HDF5/HDF5IOHandler.cpp:181-189 | each base-path group holds exactly the next segment as its only child and no attribute; the innermost is empty |
| HDF5File.BaseGroupsStep | src/IO/HDF5/HDF5IOHandler.cpp:181-189 | one more folder creates one more group, inside the group of the folders before it |
| HDF5File.PushGroups | src/IO/HDF5/HDF5IOHandler.cpp:176-189 | the creating loop builds exactly the base groups and leaves the file handle under one handle per prefix group, innermost on top |
| HDF5File.CloseGroups | src/IO/HDF5/HDF5IOHandler.cpp:191-196 | the closing loop closes the groups innermost first and stops with only the file handle left |
| HDF5File.CreateGroups | src/IO/HDF5/HDF5IOHandler.cpp:176-196 | the push and close loops build exactly the base groups, close them innermost first, and stop at the file handle |
| HDF5File.NodeExists | src/IO/HDF5/HDF5IOHandler.cpp:230 | H5Oopen finds a group only in an open file, and only at a location the file has |
| HDF5File.AttributeExists | src/IO/HDF5/HDF5IOHandler.cpp:232 | H5Aexists reports an attribute only on a group H5Oopen found and only when that group holds the name, so the `== 0` test alone chooses between create and open |
| HDF5File.OpenOrCreate | src/IO/HDF5/HDF5IOHandler.cpp:230-245 | a missing attribute on an existing group is created with the value's type and dataspace, and this faults exactly for VEC_STRING and UNDEFINED; an existing attribute or a missing group leaves the file as it was; nothing else changes; the only fault is the datatype lookup's own fault |
| HDF5.Parameter | src/IO/HDF5/HDF5IOHandler.cpp:226 | the lookup succeeds exactly when the key is present and returns its value, otherwise a missing-parameter fault for that key |
| HDF5.StringParameter | src/IO/HDF5/HDF5IOHandler.cpp:231 | succeeds exactly on a present string value; a missing key and a non-string value give distinct faults |
| HDF5.BasePathSegments | src/IO/HDF5/HDF5IOHandler.cpp:178-181 | the folders of the base path are nonempty and contain no `/` |
| HDF5.AttributeWrite | src/IO/HDF5/HDF5IOHandler.cpp:211-314 | the new file of writeAttribute: success exactly when the location resolves, "attribute" is present, "name" is a string and the value is neither VEC_STRING nor UNDEFINED; only the named attribute at that location may change; the faults come in the order of the code: an unresolved location gives its position fault, then a missing "attribute" gives MissingParameter("attribute"), then a missing or non-string "name" gives that parameter's own fault, and last the datatype fault |
| HDF5.Materialized | src/IO/HDF5/HDF5IOHandler.cpp:198-200 | the Writable after createFile is written, clean and positioned at "/", and keeps its parent |
| HDF5.CreateFileSpec | src/IO/HDF5/HDF5IOHandler.cpp:156-205 | a written Writable is left alone; otherwise success exactly when "name" and "basePath" are strings, leaving the Writable written, clean and at "/"; no other Writable changes and parents are kept; a fault changes no Writable; a missing or non-string "name" changes nothing at all, while a fault on "basePath" leaves behind the new, truncated file `directory + name + ".h5"` holding only the root group, and the fault is the one reading "basePath" raised (missing key or wrong kind) |
| HDF5.WriteAttributeSpec | src/IO/HDF5/HDF5IOHandler.cpp:208-318 | never changes a Writable; a fault changes nothing; success exactly when the location resolves, "attribute" is present, "name" is a string and the value is neither VEC_STRING nor UNDEFINED; a fault is exactly the fault AttributeWrite raises, so an unresolved location reaches the flush caller as its position fault |
| HDF5.Dispatch | src/IO/HDF5/HDF5IOHandler.cpp:30-49 | only a create-file task can change a Writable, only its own target, and no task clears `written` |
| HDF5.Drain | src/IO/HDF5/HDF5IOHandler.cpp:23-53 | the drain ends empty exactly when no fault occurs, and what stays queued is a suffix of the queue |
| HDF5.HDF5IOHandler.constructor | src/IO/HDF5/HDF5IOHandler.cpp:12-14 | a new handler has an empty queue, no open file and the given directory and Writables |
| HDF5.HDF5IOHandler.Enqueue | src/IO/HDF5/HDF5IOHandler.cpp:26-28 | a task joins the back of the queue that flush takes from the front; nothing else changes |
| HDF5.HDF5IOHandler.Flush | src/IO/HDF5/HDF5IOHandler.cpp:23-53 | the loop leaves the handler in exactly the state Drain specifies: the new Writables and file, what is still queued, and the fault |
| HDF5.HDF5IOHandler.Execute | src/IO/HDF5/HDF5IOHandler.cpp:30-49 | one pass of the switch takes the state to Dispatch's outcome and reports its fault; the queue is untouched |
| HDF5.HDF5IOHandler.CreateFile | src/IO/HDF5/HDF5IOHandler.cpp:156-205 | the imperative createFile reaches exactly the state and fault of CreateFileSpec |
| HDF5.HDF5IOHandler.WriteAttribute | src/IO/HDF5/HDF5IOHandler.cpp:208-318 | the imperative writeAttribute reaches exactly the state and fault of WriteAttributeSpec |
| FlushProperties.DispatchTable | src/IO/HDF5/HDF5IOHandler.cpp:30-49 | create kinds go to createFile, CREATE_PATH and WRITE_ATT to writeAttribute, and every other kind changes nothing |
| FlushProperties.DrainAppend | src/IO/HDF5/HDF5IOHandler.cpp:26-51 | draining two queues in turn is draining their concatenation; when the first faults, the whole second queue stays queued behind it |
| FlushProperties.DrainPrefixStep | src/IO/HDF5/HDF5IOHandler.cpp:26-51 | draining a prefix whose front task completes continues with the rest of the prefix |
| FlushProperties.DrainStopsAtFault | src/IO/HDF5/HDF5IOHandler.cpp:26-51 | a faulting drain applied every earlier task without fault, the failing task is the front of what remains, and no later task ran |
| FlushProperties.DrainInOrder | src/IO/HDF5/HDF5IOHandler.cpp:26-51 | a drain without fault empties the queue and applies the front task first, then the rest |
| FlushProperties.DrainOne | src/IO/HDF5/HDF5IOHandler.cpp:26-51 | a one-task queue ends with the outcome of its one task, which stays queued if it faults |
| FlushProperties.IgnoredTasksChangeNothing | src/IO/HDF5/HDF5IOHandler.cpp:41-48 | a queue of ignored kinds drains without fault and changes nothing |
| FlushProperties.DrainKeepsWritten | src/IO/HDF5/HDF5IOHandler.cpp:26-51 | no drain clears a written flag |
| FlushProperties.WrittenOnlyByCreateFile | src/IO/HDF5/HDF5IOHandler.cpp:33-36 | a Writable becomes written only if the queue holds a create-file task for it |
| FlushProperties.CreateFileIdempotent | src/IO/HDF5/HDF5IOHandler.cpp:159 | once createFile has succeeded, calling it again for that Writable changes nothing, whatever the parameters |
| FlushProperties.CreateFileTwiceIsOnce | src/IO/HDF5/HDF5IOHandler.cpp:156-205 | queueing the same create task twice leaves the same state and fault as queueing it once |
| FlushProperties.CreateFileLayout | src/IO/HDF5/HDF5IOHandler.cpp:169-189 | the file is named directory + name + ".h5"; its groups are exactly the nested chain of base-path folders with `%T/` removed, each holding only the next folder, the innermost empty |
| FlushProperties.VecStringNeverWritten | src/IO/HDF5/HDF5IOHandler.cpp:78-84 | writeAttribute always faults on a string vector and changes nothing |
| FlushProperties.VecStringMismatch | src/IO/HDF5/HDF5IOHandler.cpp:78-84 | with a resolvable location and a string name, a string vector faults as a type mismatch and changes nothing |
| FlushProperties.UndefinedAttributeFaults | src/IO/HDF5/HDF5IOHandler.cpp:312-313 | with a resolvable location and a string name, an UNDEFINED value faults as an unknown datatype and changes nothing |
| FlushProperties.WriteAttributeEffect | src/IO/HDF5/HDF5IOHandler.cpp:232-245 | after a successful write the attribute exists at an existing location; a new one has the value's type and dataspace, an existing one is left alone; no other attribute or group changes |
| FlushProperties.CreatedRootIsBare | src/IO/HDF5/HDF5IOHandler.cpp:198-200 | right after createFile, a root Writable resolves to "/", a group of the file with no attributes |
| FlushProperties.FileThenAttribute | src/IO/HDF5/HDF5IOHandler.cpp:156-318 | creating a file for a root Writable and then writing an attribute to it drains without fault and leaves the attribute at "/" with the value's type and dataspace |

## Left out

- Native HDF5 calls and their statuses. `H5Fcreate`, `H5Gcreate`, `H5Acreate`, `H5Awrite`, the close calls and the rest are taken to succeed as the abstract file image describes; every `status` is ignored by the code anyway.
- HDF5Types.StringType: a string is a sequence of characters, and each character stands for one byte, so `CString(|s|)` is the byte size only for single-byte text; a multi-byte UTF-8 character is counted once. A size of 0 for the empty string is taken to be accepted by `H5Tset_size`, whose status the code ignores.
- Attribute values are not stored. The file image records each attribute's type and extent, not the bytes `H5Awrite` puts there. Float payloads are opaque bit patterns.
- The concrete native type constants and string padding. An HDF5 type is one of seven abstract kinds, one of them a C string with a size.
- Directory creation (lines 161-164). It is file-system I/O.
- The destructor (lines 16-21), which flushes and closes the file. The `std::future` that flush returns is empty and is not modelled.
- HDF5 path normalisation. A location is the plain concatenation of positions. A group path is `/` followed by the folders joined with `/`.
- Writables are owned by the frontend and linked to their parents by reference. Here they sit in an arena where parents come first; a cycle of parents cannot be expressed.
- The access mode passed to the constructor. The code never consults it.
- `AbstractIOHandler` is not part of this model. Enqueue stands for its `enqueue`, as a FIFO push.
- `Auxiliary.hpp` is not part of this model. `replace` is taken to replace the first occurrence, and `split` with `false` to drop empty pieces.
- `Attribute.hpp` is not part of this model. `get<T>` on the wrong kind is taken to raise, modelled as a `TypeMismatch` fault.
- A Writable without a file position makes the code dereference a null position (line 222). This undefined behaviour is modelled as a `NoPosition` fault.
- `EXTEND_DATASET`, `OPEN_*` and `LIST_*` do not appear in the switch. They fall through as no-ops.
- Opening a location missing from the file gives a negative handle. `H5Aexists` then returns a negative value, so the code takes the open branch. The model treats this as a change-free open. A string vector or `UNDEFINED` value still faults in the write switch.
- Only the file `m_fileID` refers to is modelled. A second createFile replaces it, and the handle of the first file is never closed.
