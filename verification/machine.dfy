/** Fixed-width integers of the Rust source, written out over Dafny's unbounded
    integers. An `as` cast always wraps; arithmetic overflow is modelled as a
    release build does it, by wrapping as well. */
module MachineInt {

  const TWO_16: int := 0x1_0000
  const TWO_32: int := 0x1_0000_0000
  const TWO_64: int := 0x1_0000_0000_0000_0000

  type I16 = x: int | -0x8000 <= x < 0x8000
  type I32 = x: int | -0x8000_0000 <= x < 0x8000_0000
  type U32 = x: int | 0 <= x < 0x1_0000_0000
  type Usize = x: int | 0 <= x < 0x1_0000_0000_0000_0000

  /** `v as u32`: the u32 congruent to v modulo 2^32. */
  function AsU32(v: int): (r: U32)
    ensures 0 <= v < TWO_32 ==> r == v
  {
    if 0 <= v < TWO_32 then v else v % TWO_32
  }

  /** `v as i32` (and wrapping i32 arithmetic): the i32 congruent to v modulo 2^32. */
  function AsI32(v: int): (r: I32)
    ensures -0x8000_0000 <= v < 0x8000_0000 ==> r == v
  {
    if -0x8000_0000 <= v < 0x8000_0000 then v
    else (v + 0x8000_0000) % TWO_32 - 0x8000_0000
  }

  /** `v as i16` (and wrapping i16 arithmetic). */
  function AsI16(v: int): (r: I16)
    ensures -0x8000 <= v < 0x8000 ==> r == v
  {
    if -0x8000 <= v < 0x8000 then v
    else (v + 0x8000) % TWO_16 - 0x8000
  }

  /** `v as i64`. */
  function AsI64(v: int): (r: int)
    ensures -0x8000_0000_0000_0000 <= r < 0x8000_0000_0000_0000
    ensures -0x8000_0000_0000_0000 <= v < 0x8000_0000_0000_0000 ==> r == v
  {
    if -0x8000_0000_0000_0000 <= v < 0x8000_0000_0000_0000 then v
    else (v + 0x8000_0000_0000_0000) % TWO_64 - 0x8000_0000_0000_0000
  }

  /** Wrapping usize arithmetic. */
  function AsUsize(v: int): (r: Usize)
    ensures 0 <= v < TWO_64 ==> r == v
  {
    if 0 <= v < TWO_64 then v else v % TWO_64
  }

  /** Rust's signed `v / 2`, which rounds toward zero (Dafny's `/` is Euclidean). */
  function Half(v: int): (r: int)
    ensures v >= 0 ==> 0 <= v - 2 * r <= 1
    ensures v < 0 ==> -1 <= v - 2 * r <= 0
  {
    if v >= 0 then v / 2 else -((-v) / 2)
  }

  /** An i32 seen through `as u32` and back is unchanged: the bit pattern survives. */
  lemma {:induction false} I32RoundTrip(v: I32)
    ensures AsI32(AsU32(v)) == v
  {
    if v < 0 {
      assert AsU32(v) == v + TWO_32;
    }
  }

  /** A positive multiple of n is at least n. */
  lemma {:induction false} MulAtLeast(d: int, n: int)
    requires d >= 1 && n > 0
    ensures d * n >= n
  {
    if d > 1 {
      MulAtLeast(d - 1, n);
      assert d * n == (d - 1) * n + n;
    }
  }

  /** A non-zero multiple of n lies outside (-n, n). */
  lemma {:induction false} MulOutside(d: int, n: int)
    requires n > 0
    ensures d >= 1 ==> d * n >= n
    ensures d <= -1 ==> d * n <= -n
  {
    if d >= 1 {
      MulAtLeast(d, n);
    } else if d <= -1 {
      MulAtLeast(-d, n);
      assert (-d) * n == -(d * n);
    }
  }

  /** Euclidean remainders are unique: a = q * n + r with 0 <= r < n fixes r. */
  lemma {:induction false} ModUnique(a: int, n: int, q: int, r: int)
    requires n > 0 && 0 <= r < n && a == q * n + r
    ensures a % n == r
  {
    var q', r' := a / n, a % n;
    assert a == q' * n + r';
    var d := q - q';
    assert d * n == r' - r by {
      assert q * n - q' * n == (q - q') * n;
    }
    MulOutside(d, n);
  }

  /** A u32 seen through `as i32` and back is unchanged. */
  lemma {:induction false} U32RoundTrip(v: U32)
    ensures AsU32(AsI32(v)) == v
  {
    if v >= 0x8000_0000 {
      assert AsI32(v) == v - TWO_32;
    }
  }
}

/** The error half of `CritResult`, plus the panics of unchecked indexing. */
module Errors {

  datatype CritError =
    | Panic(what: string)   // an index out of bounds aborts the process
    | Other(message: string) // `CritError::Other`, returned through `?`
    | Open(library: string)  // `CritError::Open`: a shared library could not be loaded

  datatype Result<+T> = Ok(value: T) | Err(error: CritError) {
    predicate IsFailure() {
      Err?
    }

    function PropagateFailure<U>(): Result<U>
      requires Err?
    {
      Err(error)
    }

    function Extract(): T
      requires Ok?
    {
      value
    }
  }

  datatype Option<+T> = None | Some(value: T)

  const OutOfBounds: CritError := Panic("index out of bounds")
}

/** Searches over sequences, the shape of Rust's `iter().position(..)`. */
module Seqs {
  import opened Errors

  /** The first index at or after `from` whose element satisfies `p`. */
  function FindFrom<T>(s: seq<T>, p: T -> bool, from: nat): (r: Option<nat>)
    requires from <= |s|
    ensures r.Some? ==> from <= r.value < |s| && p(s[r.value])
    ensures r.Some? ==> forall j :: from <= j < r.value ==> !p(s[j])
    ensures r.None? <==> forall j :: from <= j < |s| ==> !p(s[j])
    decreases |s| - from
  {
    if from == |s| then None
    else if p(s[from]) then Some(from)
    else FindFrom(s, p, from + 1)
  }

  /** The first i in [from, n) with p(i): `(0..n).position(p)` started at `from`. */
  function FirstIndexFrom(n: nat, p: nat -> bool, from: nat): (r: Option<nat>)
    requires from <= n
    ensures r.Some? ==> from <= r.value < n && p(r.value)
    ensures r.Some? ==> forall j :: from <= j < r.value ==> !p(j)
    ensures r.None? <==> forall j :: from <= j < n ==> !p(j)
    decreases n - from
  {
    if from == n then None
    else if p(from) then Some(from)
    else FirstIndexFrom(n, p, from + 1)
  }

  /** `iter().position(p)`. */
  function Position<T>(s: seq<T>, p: T -> bool): (r: Option<nat>)
    ensures r.Some? ==> r.value < |s| && p(s[r.value]) && forall j :: 0 <= j < r.value ==> !p(s[j])
    ensures r.None? <==> forall j :: 0 <= j < |s| ==> !p(s[j])
  {
    FindFrom(s, p, 0)
  }
}
