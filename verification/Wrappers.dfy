/** Result-like datatypes and machine integers shared by every module. */
module Wrappers {

  datatype Option<+T> = None | Some(value: T) {
    function GetOr(default: T): T {
      match this
      case Some(v) => v
      case None => default
    }
  }

  datatype Result<+R, +E> = Success(value: R) | Failure(error: E)

  const U64_LIMIT := 0x1_0000_0000_0000_0000
  const U32_MAX := 0xFFFF_FFFF

  type u64 = n: nat | n < U64_LIMIT
  type u32 = n: nat | n <= U32_MAX

  /** An absolute time, in nanoseconds. */
  type Instant = int

  const NANOS_PER_SEC := 1_000_000_000

  /** Whole seconds of a signed duration, truncated towards zero. */
  function NumSeconds(duration: int): (s: int) {
    if duration >= 0 then duration / NANOS_PER_SEC else -((-duration) / NANOS_PER_SEC)
  }

  lemma ConcatHead<T>(a: seq<T>, b: seq<T>)
    requires a != []
    ensures (a + b)[0] == a[0] && (a + b)[1..] == a[1..] + b
  {}

  lemma ConcatAssociative<T>(a: seq<T>, b: seq<T>, c: seq<T>)
    ensures (a + b) + c == a + (b + c)
  {}

  /** Any finite set can be listed. */
  lemma {:induction false} ListOf<T>(elements: set<T>) returns (list: seq<T>)
    ensures forall i, j :: 0 <= i < j < |list| ==> list[i] != list[j]
    ensures forall x :: x in list <==> x in elements
    decreases |elements|
  {
    if elements == {} {
      list := [];
    } else {
      var x :| x in elements;
      var rest := ListOf(elements - {x});
      list := [x] + rest;
    }
  }
}
