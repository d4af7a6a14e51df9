/** Shared vocabulary: optional and fallible results, bytes, and concatenation of pieces. */
module Prelude {

  datatype Option<+T> = None | Some(value: T)

  datatype Result<+T, +E> = Ok(value: T) | Err(error: E)

  type byte = b: int | 0 <= b < 256

  /** The characters Unicode calls white space. */
  predicate IsWhiteSpace(u: int) {
    || 9 <= u <= 13 || u == 0x20 || u == 0x85 || u == 0xA0 || u == 0x1680 || 0x2000 <= u <= 0x200A
    || u == 0x2028 || u == 0x2029 || u == 0x202F || u == 0x205F || u == 0x3000
  }

  /** The pieces of a stream glued back together, in order. */
  function Concat<T>(pieces: seq<seq<T>>): seq<T> {
    if pieces == [] then [] else pieces[0] + Concat(pieces[1..])
  }

  lemma {:induction false} ConcatAppend<T>(a: seq<seq<T>>, b: seq<seq<T>>)
    ensures Concat(a + b) == Concat(a) + Concat(b)
  {
    if a == [] {
      assert a + b == b;
    } else {
      ConcatAppend(a[1..], b);
      assert (a + b)[1..] == a[1..] + b && (a + b)[0] == a[0];
      assert a[0] + Concat(a[1..]) + Concat(b) == a[0] + (Concat(a[1..]) + Concat(b));
    }
  }

  lemma ConcatSnoc<T>(a: seq<seq<T>>, piece: seq<T>)
    ensures Concat(a + [piece]) == Concat(a) + piece
  {
    ConcatAppend(a, [piece]);
  }
}
