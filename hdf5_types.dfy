/**
  The mapping from an Attribute to the HDF5 datatype and dataspace it is stored with
  (getH5DataType and getH5DataSpace).
 */
module HDF5Types {
  import opened Wrappers
  import opened Faults
  import opened Attributes

  /**
    The native HDF5 datatype chosen for an attribute, up to its type class; a C string type
    carries the size given to H5Tset_size.
   */
  datatype H5Type =
    | NativeChar | NativeInt | NativeFloat | NativeDouble | NativeUInt32 | NativeUInt64
    | CString(size: nat)

  /** The extent of a simple dataspace, one entry per dimension. */
  type Extent = seq<nat>

  /**
    getH5DataType. STRING and VEC_STRING share one branch, which sizes the string type by
    `get<std::string>()`; on a string vector that accessor faults.
   */
  function H5DataType(att: Attribute): (r: Result<H5Type, Fault>)
    ensures r.Err? <==> att.dtype in {VEC_STRING, UNDEFINED}
    ensures att.dtype == UNDEFINED ==> r == Err(UnknownDatatype)
    ensures att.dtype == VEC_STRING ==> r == Err(TypeMismatch)
    ensures att.dtype == STRING ==> r == Ok(CString(|att.s|))
    ensures r.Ok? && r.value.CString? <==> att.dtype == STRING
  {
    match att
    case Char(_) => Ok(NativeChar)
    case Int(_) | VecInt(_) => Ok(NativeInt)
    case Float(_) | VecFloat(_) => Ok(NativeFloat)
    case Double(_) | ArrDbl7(_) | VecDouble(_) => Ok(NativeDouble)
    case UInt32(_) => Ok(NativeUInt32)
    case UInt64(_) | VecUInt64(_) => Ok(NativeUInt64)
    case String(_) | VecString(_) => StringType(att)
    case Undefined => Err(UnknownDatatype)
  }

  /**
    The kind of the elements an attribute of kind `d` stores: a scalar kind stands for itself,
    an array or vector kind for the scalar kind of its entries.
   */
  function ElementKind(d: Dtype): (e: Dtype)
    ensures e in ScalarKinds <==> d != UNDEFINED
    ensures d in ScalarKinds ==> e == d
  {
    match d
    case VEC_INT => INT
    case VEC_FLOAT => FLOAT
    case ARR_DBL_7 | VEC_DOUBLE => DOUBLE
    case VEC_UINT64 => UINT64
    case VEC_STRING => STRING
    case _ => d
  }

  /**
    The type classes of getH5DataType: two attributes whose lookup succeeds and that are not
    strings get the same native type exactly when they store the same kind of element.
   */
  lemma SameNativeTypeSameElementKind(a: Attribute, b: Attribute)
    requires H5DataType(a).Ok? && H5DataType(b).Ok?
    requires a.dtype != STRING && b.dtype != STRING
    ensures H5DataType(a) == H5DataType(b) <==> ElementKind(a.dtype) == ElementKind(b.dtype)
  {
  }

  /** The string branch of getH5DataType: H5T_C_S1 sized by `get<std::string>().size()`. */
  function StringType(att: Attribute): (r: Result<H5Type, Fault>)
    ensures r.Ok? <==> att.dtype == STRING
    ensures r.Ok? ==> r.value == CString(|att.s|)
  {
    var s :- GetString(att);
    Ok(CString(|s|))
  }

  /** getH5DataSpace: always a rank-1 extent, except for UNDEFINED, which faults. */
  function H5DataSpace(att: Attribute): (r: Result<Extent, Fault>)
    ensures r.Err? <==> att.dtype == UNDEFINED
    ensures r.Err? ==> r.error == UnknownDatatype
    ensures r.Ok? ==> |r.value| == 1
    ensures att.dtype in ScalarKinds ==> r == Ok([1])
    ensures att.dtype == ARR_DBL_7 ==> r == Ok([7])
  {
    match att
    case Char(_) | Int(_) | Float(_) | Double(_) | UInt32(_) | UInt64(_) | String(_) => Ok([1])
    case ArrDbl7(_) => Ok([7])
    case VecInt(v) => Ok([|v|])
    case VecFloat(v) => Ok([|v|])
    case VecDouble(v) => Ok([|v|])
    case VecUInt64(v) => Ok([|v|])
    case VecString(v) => Ok([|v|])
    case Undefined => Err(UnknownDatatype)
  }

  /** The one dimension of the dataspace counts the elements the attribute stores. */
  lemma DataSpaceCountsElements(att: Attribute)
    requires att.dtype != UNDEFINED
    ensures H5DataSpace(att) == Ok([|Elements(att)|])
  {
  }

  /**
    Arrays and vectors are stored with the native type of their elements: every element,
    as a scalar attribute, maps to the same HDF5 datatype as the container (VEC_STRING,
    whose datatype lookup faults, is the exception).
   */
  lemma DataTypeIsElementType(att: Attribute)
    requires H5DataType(att).Ok?
    ensures forall k :: 0 <= k < |Elements(att)| ==>
      Elements(att)[k].dtype == ElementKind(att.dtype) &&
      H5DataType(Elements(att)[k]) == H5DataType(att)
  {
  }
}
