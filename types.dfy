/** The primitive-type catalogue: bit widths, signedness, the compatibility relation and
    the parsing of type names. */
module TypeSystem {
  import opened Wrappers

  datatype PrimitiveType =
    | Int8 | Int16 | Int32 | Int64
    | UInt8 | UInt16 | UInt32 | UInt64
    | Bool | Unknown | Void

  /** Width in bits. */
  function GetSize(t: PrimitiveType): (bits: int)
    ensures bits in {0, 8, 16, 32, 64}
    ensures bits == 0 <==> t == Unknown || t == Void
    ensures t == Bool ==> bits == 8
  {
    match t
    case Int8 => 8
    case Int16 => 16
    case Int32 => 32
    case Int64 => 64
    case UInt8 => 8
    case UInt16 => 16
    case UInt32 => 32
    case UInt64 => 64
    case Bool => 8
    case _ => 0
  }

  predicate IsSigned(t: PrimitiveType) {
    match t
    case Int8 | Int16 | Int32 | Int64 => true
    case _ => false
  }

  predicate IsUnsigned(t: PrimitiveType) {
    match t
    case UInt8 | UInt16 | UInt32 | UInt64 => true
    case _ => false
  }

  /** Whether a value of type `src` may be used where `dest` is expected. One-sided mode is
      the direction of an assignment or argument; two-sided mode is for the two operands of a
      binary operator. */
  function IsCompatibleWith(src: PrimitiveType, dest: PrimitiveType, oneSided: bool): (r: bool)
    ensures src == dest ==> r
    ensures src == Bool && dest != Bool ==> !r
    ensures IsSigned(src) && IsUnsigned(dest) ==> !r
  {
    if src == dest then true
    else if src == Bool && dest != Bool then false
    else if IsSigned(src) && IsUnsigned(dest) then false
    else if !oneSided then
      if src != Bool && dest == Bool then false
      else if IsUnsigned(src) && IsSigned(dest) then false
      else true
    else GetSize(dest) > GetSize(src)
  }

  /** The spelling of a type name in source text. */
  function FromStr(s: string): (r: Result<PrimitiveType, ()>)
    ensures r.Ok? ==> r.value != Unknown && r.value != Void
  {
    match s
    case "i8" => Ok(Int8)
    case "i16" => Ok(Int16)
    case "i32" => Ok(Int32)
    case "i64" => Ok(Int64)
    case "u8" => Ok(UInt8)
    case "u16" => Ok(UInt16)
    case "u32" => Ok(UInt32)
    case "u64" => Ok(UInt64)
    case "bool" => Ok(Bool)
    case _ => Err(())
  }

  /** The nine spellings that name a type. */
  const TypeSpellings: set<string> := {"i8", "i16", "i32", "i64", "u8", "u16", "u32", "u64", "bool"}

  /** Every signed width has an unsigned twin of the same width, and the four widths of
      each family are distinct. */
  lemma SizeByWidth()
    ensures GetSize(Int8) == GetSize(UInt8) == 8
    ensures GetSize(Int16) == GetSize(UInt16) == 16
    ensures GetSize(Int32) == GetSize(UInt32) == 32
    ensures GetSize(Int64) == GetSize(UInt64) == 64
  {
  }

  /** No type is both signed and unsigned; Bool, Unknown and Void are neither, and every
      other type is one of the two. */
  lemma SignednessPartition(t: PrimitiveType)
    ensures !(IsSigned(t) && IsUnsigned(t))
    ensures !IsSigned(t) && !IsUnsigned(t) <==> t == Bool || t == Unknown || t == Void
  {
  }

  /** Two-sided compatibility of distinct types: Bool mixes with nothing else, signed and
      unsigned do not mix in either direction, and widths never matter. */
  lemma TwoSidedCompatibility(a: PrimitiveType, b: PrimitiveType)
    ensures IsCompatibleWith(a, b, false) <==>
      a == b ||
      (a != Bool && b != Bool &&
       !(IsSigned(a) && IsUnsigned(b)) && !(IsUnsigned(a) && IsSigned(b)))
    ensures IsCompatibleWith(a, b, false) == IsCompatibleWith(b, a, false)
  {
  }

  /** One-sided compatibility of distinct types is strict widening once Bool sources and
      signed-to-unsigned pairs are excluded. */
  lemma OneSidedCompatibility(a: PrimitiveType, b: PrimitiveType)
    ensures IsCompatibleWith(a, b, true) <==>
      a == b ||
      (a != Bool && !(IsSigned(a) && IsUnsigned(b)) && GetSize(b) > GetSize(a))
    ensures a != b && GetSize(a) == GetSize(b) ==> !IsCompatibleWith(a, b, true)
    ensures a != b && IsCompatibleWith(a, b, true) ==> !IsCompatibleWith(b, a, true)
  {
  }

  /** Consequences of the one-sided rule that differ from the two-sided one. */
  lemma OneSidedExamples()
    ensures IsCompatibleWith(UInt8, Int16, true) && !IsCompatibleWith(UInt8, Int16, false)
    ensures IsCompatibleWith(Void, Bool, true) && !IsCompatibleWith(Void, Bool, false)
    ensures !IsCompatibleWith(UInt16, UInt8, true) && IsCompatibleWith(UInt16, UInt8, false)
  {
  }

  /** FromStr accepts exactly the nine type spellings, maps them injectively, and rejects
      everything else. */
  lemma FromStrExact(s: string, s': string)
    ensures FromStr(s).Ok? <==> s in TypeSpellings
    ensures FromStr(s).Ok? && FromStr(s) == FromStr(s') ==> s == s'
  {
  }
}
