/** Types and sequence facts shared by the models. */
module Common {
  datatype Option<+T> = None | Some(value: T)

  /** One octet on the wire. */
  type byte = b: int | 0 <= b < 256 witness 0

  function Min(a: int, b: int): int { if a <= b then a else b }

  function Max(a: int, b: int): int { if a >= b then a else b }

  function Pow2(n: nat): (r: nat)
    ensures r >= 1
  {
    if n == 0 then 1 else 2 * Pow2(n - 1)
  }

  /** The last `n` elements of `s`. */
  function Newest<T>(s: seq<T>, n: nat): seq<T> { if |s| <= n then s else s[|s| - n..] }

  /** Concatenation of a sequence of chunks, in order. */
  function Flatten<T>(chunks: seq<seq<T>>): seq<T>
  {
    if chunks == [] then [] else Flatten(chunks[..|chunks| - 1]) + chunks[|chunks| - 1]
  }

  lemma {:induction false} FlattenConcat<T>(a: seq<seq<T>>, b: seq<seq<T>>)
    ensures Flatten(a + b) == Flatten(a) + Flatten(b)
  {
    if b == [] {
      assert a + b == a;
    } else {
      var front := b[..|b| - 1];
      assert (a + b)[..|a + b| - 1] == a + front;
      FlattenConcat(a, front);
    }
  }

  lemma FlattenSnoc<T>(a: seq<seq<T>>, x: seq<T>)
    ensures Flatten(a + [x]) == Flatten(a) + x
  {
    assert (a + [x])[..|a|] == a;
  }

  /** The first chunk comes first, so a queue can also be read from its head. */
  lemma FlattenHead<T>(a: seq<seq<T>>)
    requires a != []
    ensures Flatten(a) == a[0] + Flatten(a[1..])
  {
    assert a == [a[0]] + a[1..];
    FlattenConcat([a[0]], a[1..]);
    assert [a[0]][..0] == [];
    assert Flatten([a[0]]) == a[0];
  }
}
