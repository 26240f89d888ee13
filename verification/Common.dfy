/** The types that several components share. */
module Common {

  datatype Option<+T> = None | Some(value: T)

  /**
    A value bound to a statement or read from a cell.  A float is its 64-bit pattern, read as a number, and a time its
    UTC text, which is how a key tells two of them apart.
   */
  datatype Value =
    | Null
    | Int(i: int)
    | Text(s: string)
    | Bytes(b: seq<bv8>)
    | Flag(f: bool)
    | Float(bits: nat)
    | Time(t: string)

  /** The two zeros of a float compare alike. */
  function PlusZero(bits: nat): nat { if bits == 0x8000_0000_0000_0000 then 0 else bits }

  /** Values that a comparison does not tell apart: equal values, and the two zeros. */
  predicate Alike(a: Value, b: Value) {
    a == b || (a.Float? && b.Float? && PlusZero(a.bits) == PlusZero(b.bits))
  }

  /** The largest 64-bit number. */
  const MOST := 0x7fff_ffff_ffff_ffff

  /** The order of texts by their bytes. */
  predicate Less(a: string, b: string) {
    b != [] && (a == [] || a[0] < b[0] || (a[0] == b[0] && Less(a[1..], b[1..])))
  }

  lemma {:induction false} LessIsStrict(a: string)
    ensures !Less(a, a)
  {
    if a != [] { LessIsStrict(a[1..]); }
  }

  lemma {:induction false} LessIsTransitive(a: string, b: string, c: string)
    requires Less(a, b) && Less(b, c)
    ensures Less(a, c)
    decreases |a|
  {
    if a != [] && a[0] == b[0] && b[0] == c[0] {
      LessIsTransitive(a[1..], b[1..], c[1..]);
    }
  }

  lemma Regroup<T>(a: seq<T>, b: seq<T>, c: seq<T>)
    ensures a + (b + c) == (a + b) + c
  {
  }
}
