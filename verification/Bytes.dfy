module Bytes {
  /** An unsigned char. */
  type byte = x: int | 0 <= x < 256

  // ------------------------------------------------------------------------
  // Parts of a byte stream, one after another
  // ------------------------------------------------------------------------

  function Flat(parts: seq<seq<byte>>): seq<byte> {
    if parts == [] then [] else parts[0] + Flat(parts[1..])
  }

  lemma FlatUnfold(parts: seq<seq<byte>>)
    ensures parts == [] ==> Flat(parts) == []
    ensures parts != [] ==> Flat(parts) == parts[0] + Flat(parts[1..])
  {
  }

  lemma {:induction false} FlatConcat(a: seq<seq<byte>>, b: seq<seq<byte>>)
    ensures Flat(a + b) == Flat(a) + Flat(b)
  {
    hide Flat;
    FlatUnfold(a);
    if a == [] {
      assert a + b == b;
    } else {
      FlatConcat(a[1..], b);
      FlatUnfold(a + b);
      assert (a + b)[1..] == a[1..] + b;
    }
  }

  lemma FlatOne(part: seq<byte>)
    ensures Flat([part]) == part
  {
    assert [part][1..] == [];
  }

  lemma {:induction false} FlatSnoc(parts: seq<seq<byte>>, last: seq<byte>)
    ensures Flat(parts + [last]) == Flat(parts) + last
  {
    hide Flat;
    FlatConcat(parts, [last]);
    FlatOne(last);
  }
}
