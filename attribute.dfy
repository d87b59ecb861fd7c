/**
  The Attribute value type: a closed tagged union over the kinds of `Attribute::Dtype`.
  Every kind is its own constructor, so the stored value always agrees with the tag.
 */
module Attributes {
  import opened Wrappers
  import opened Faults

  newtype int32 = x: int | -0x8000_0000 <= x < 0x8000_0000
  newtype uint32 = x: int | 0 <= x < 0x1_0000_0000
  newtype uint64 = x: int | 0 <= x < 0x1_0000_0000_0000_0000

  /** Floating-point payloads are opaque bit patterns: only shape and tag matter here. */
  datatype Float32 = Float32(bits: bv32)
  datatype Float64 = Float64(bits: bv64)

  /** std::array<double, 7>, the physical-dimension exponents. */
  type Array7 = a: seq<Float64> | |a| == 7
    witness [Float64(0), Float64(0), Float64(0), Float64(0), Float64(0), Float64(0), Float64(0)]

  datatype Dtype =
    | CHAR | INT | FLOAT | DOUBLE | UINT32 | UINT64 | STRING
    | ARR_DBL_7
    | VEC_INT | VEC_FLOAT | VEC_DOUBLE | VEC_UINT64 | VEC_STRING
    | UNDEFINED

  const ScalarKinds: set<Dtype> := {CHAR, INT, FLOAT, DOUBLE, UINT32, UINT64, STRING}

  datatype Attribute =
    | Char(c: bv8)
    | Int(i: int32)
    | Float(f: Float32)
    | Double(d: Float64)
    | UInt32(u32: uint32)
    | UInt64(u64: uint64)
    | String(s: string)
    | ArrDbl7(a7: Array7)
    | VecInt(vi: seq<int32>)
    | VecFloat(vf: seq<Float32>)
    | VecDouble(vd: seq<Float64>)
    | VecUInt64(vu: seq<uint64>)
    | VecString(vs: seq<string>)
    | Undefined
  {
    /** The `dtype` tag of the attribute. */
    const dtype: Dtype :=
      match this
      case Char(_) => CHAR
      case Int(_) => INT
      case Float(_) => FLOAT
      case Double(_) => DOUBLE
      case UInt32(_) => UINT32
      case UInt64(_) => UINT64
      case String(_) => STRING
      case ArrDbl7(_) => ARR_DBL_7
      case VecInt(_) => VEC_INT
      case VecFloat(_) => VEC_FLOAT
      case VecDouble(_) => VEC_DOUBLE
      case VecUInt64(_) => VEC_UINT64
      case VecString(_) => VEC_STRING
      case Undefined => UNDEFINED
  }

  /** `Attribute::get<std::string>()`: the stored string, or a mismatch fault for any other kind. */
  function GetString(att: Attribute): (r: Result<string, Fault>)
    ensures r.Ok? <==> att.dtype == STRING
    ensures r.Ok? ==> att.String? && r.value == att.s
    ensures r.Err? ==> r.error == TypeMismatch
  {
    match att
    case String(s) => Ok(s)
    case _ => Err(TypeMismatch)
  }

  /**
    The elements an attribute stores, each as a scalar attribute: the attribute itself for a
    scalar kind, one element per entry for the array and the vectors, nothing for UNDEFINED.
   */
  function Elements(att: Attribute): seq<Attribute>
  {
    match att
    case ArrDbl7(a) => seq(|a|, k requires 0 <= k < |a| => Double(a[k]))
    case VecInt(v) => seq(|v|, k requires 0 <= k < |v| => Int(v[k]))
    case VecFloat(v) => seq(|v|, k requires 0 <= k < |v| => Float(v[k]))
    case VecDouble(v) => seq(|v|, k requires 0 <= k < |v| => Double(v[k]))
    case VecUInt64(v) => seq(|v|, k requires 0 <= k < |v| => UInt64(v[k]))
    case VecString(v) => seq(|v|, k requires 0 <= k < |v| => String(v[k]))
    case Undefined => []
    case _ => [att]
  }
}
