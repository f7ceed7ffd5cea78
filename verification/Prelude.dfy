/** Small value types shared by every component of the runtime model. */
module Prelude {

  datatype Option<+T> = None | Some(value: T)

  /** A waker is identified by the task it wakes: `will_wake` is equality. */
  type Waker = nat

  type Byte = b: nat | b < 256

  const U64_MAX: nat := 0xFFFF_FFFF_FFFF_FFFF

  function Min(a: nat, b: nat): nat {
    if a < b then a else b
  }

  /** The outcome of a system call: a value or an operating-system error code. */
  datatype IoResult<+T> = Ok(value: T) | Err(code: int)

  /**
   * A slab hands out some index that is not in use. Which one is the allocator's
   * choice, so every result about slab users holds for each allocation policy.
   */
  method VacantKey<T>(slab: map<nat, T>) returns (key: nat)
    ensures key !in slab
  {
    ghost var bound := UpperBound(slab.Keys);
    assert bound !in slab;
    key :| key !in slab;
  }

  /** Some number above every member of a finite set, hence outside of it. */
  ghost function UpperBound(s: set<nat>): (b: nat)
    ensures forall x | x in s :: x < b
  {
    if s == {} then 0 else
      var x :| x in s;
      var rest := UpperBound(s - {x});
      assert forall y | y in s :: y == x || y in s - {x};
      if x < rest then rest else x + 1
  }

  function Repeat<T>(x: T, n: nat): seq<T> {
    if n == 0 then [] else [x] + Repeat(x, n - 1)
  }

  /** A vector without repeated elements. */
  ghost predicate NoDup<T>(v: seq<T>) {
    forall i, j | 0 <= i < j < |v| :: v[i] != v[j]
  }

  /** Taking the first element off a vector without repetitions removes just that element. */
  lemma TailOf<T>(v: seq<T>)
    requires v != [] && NoDup(v)
    ensures NoDup(v[1..])
    ensures forall x :: x in v[1..] <==> x in v && x != v[0]
  {
    forall x | x in v && x != v[0] ensures x in v[1..] {
      var i :| 0 <= i < |v| && v[i] == x;
      assert v[1..][i - 1] == x;
    }
  }

  /** And likewise for the last element. */
  lemma FrontOf<T>(v: seq<T>)
    requires v != [] && NoDup(v)
    ensures NoDup(v[..|v| - 1])
    ensures forall x :: x in v[..|v| - 1] <==> x in v && x != v[|v| - 1]
  {
    forall x | x in v && x != v[|v| - 1] ensures x in v[..|v| - 1] {
      var i :| 0 <= i < |v| && v[i] == x;
      assert v[..|v| - 1][i] == x;
    }
  }
}
