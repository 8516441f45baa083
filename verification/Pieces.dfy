/** Bytes that arrive in pieces. */
module Pieces {
  import opened Types

  function Concat(pieces: seq<Bytes>): Bytes {
    if pieces == [] then [] else Concat(pieces[..|pieces| - 1]) + pieces[|pieces| - 1]
  }

  lemma {:induction false} ConcatPrefix(pieces: seq<Bytes>, n: nat)
    requires n <= |pieces|
    ensures |Concat(pieces[..n])| <= |Concat(pieces)|
    decreases |pieces|
  {
    if n < |pieces| {
      assert pieces[..|pieces| - 1][..n] == pieces[..n];
      ConcatPrefix(pieces[..|pieces| - 1], n);
    } else {
      assert pieces[..n] == pieces;
    }
  }
}
