/** Types shared by every component of the model. */
module Common {

  datatype Option<+T> = None | Some(value: T)

  /** Outcome of a check that the source reports as `error`. */
  datatype Result<+T, +E> = Ok(value: T) | Err(error: E)

  const MAX_UINT64: nat := 0xFFFF_FFFF_FFFF_FFFF

  /** Go's `uint64`. */
  type Uint64 = n: nat | n <= MAX_UINT64

  /** `a <= b` as sequences, spelled out so that it can be used under quantifiers. */
  ghost predicate IsPrefix<T>(a: seq<T>, b: seq<T>) {
    |a| <= |b| && a == b[..|a|]
  }

  lemma PrefixTransitive<T>(a: seq<T>, b: seq<T>, c: seq<T>)
    requires IsPrefix(a, b) && IsPrefix(b, c)
    ensures IsPrefix(a, c)
  {
    assert c[..|b|][..|a|] == c[..|a|];
  }
}
