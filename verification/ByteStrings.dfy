/** Bytes, and a stream as the pieces it arrives in. */
module ByteStrings {
  newtype Byte = b: int | 0 <= b < 256
  type Bytes = seq<Byte>

  function Concat(parts: seq<Bytes>): Bytes {
    if parts == [] then [] else parts[0] + Concat(parts[1..])
  }

  lemma {:induction false} ConcatAppend(a: seq<Bytes>, b: seq<Bytes>)
    ensures Concat(a + b) == Concat(a) + Concat(b)
  {
    if a == [] {
      assert a + b == b;
    } else {
      assert (a + b)[1..] == a[1..] + b;
      ConcatAppend(a[1..], b);
    }
  }

  lemma OneChunk(s: Bytes)
    ensures Concat([s]) == s
  {
    assert [s][1..] == [] && s + [] == s;
  }
}
