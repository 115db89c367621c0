/** Cutting a content into parts of a given size: the reference for the writer, the copier and the sender. */
module Cutting {
  import opened Prelude
  import opened Arithmetic

  /** Cutting a whole content at once into parts of the given size. */
  function Split<T>(bytes: seq<T>, partSize: nat): (bodies: seq<seq<T>>)
    requires 0 < partSize
  {
    if bytes == [] then []
    else if |bytes| <= partSize then [bytes]
    else [bytes[..partSize]] + Split(bytes[partSize..], partSize)
  }

  lemma {:induction false} SplitIsUnique<T>(bodies: seq<seq<T>>, partSize: nat)
    requires 0 < partSize
    requires forall i :: 0 <= i < |bodies| ==>
               (if i + 1 < |bodies| then |bodies[i]| == partSize else 0 < |bodies[i]| <= partSize)
    ensures Split(Concat(bodies), partSize) == bodies
  {
    if |bodies| == 1 {
      assert Concat(bodies) == bodies[0] + Concat(bodies[1..]) == bodies[0];
    } else if bodies != [] {
      SplitIsUnique(bodies[1..], partSize);
      var rest := Concat(bodies[1..]);
      assert bodies[1..] == [bodies[1]] + bodies[2..];
      ConcatCons(bodies[1], bodies[2..]);
      assert Concat(bodies)[..partSize] == bodies[0] && Concat(bodies)[partSize..] == rest;
      assert bodies == [bodies[0]] + bodies[1..];
    }
  }

  /** The shape of a cut: ceil(n / size) bodies, all full but the last, together the content. */
  lemma {:induction false} SplitShape<T>(bytes: seq<T>, partSize: nat)
    requires 0 < partSize
    ensures var bodies := Split(bytes, partSize);
            && |bodies| == CeilDiv(|bytes|, partSize)
            && Concat(bodies) == bytes
            && forall i :: 0 <= i < |bodies| ==>
                 (if i + 1 < |bodies| then |bodies[i]| == partSize else 0 < |bodies[i]| <= partSize)
  {
    CeilDivStep(|bytes|, partSize);
    if partSize < |bytes| {
      SplitShape(bytes[partSize..], partSize);
      CeilDivStep(|bytes| - partSize, partSize);
      ConcatCons(bytes[..partSize], Split(bytes[partSize..], partSize));
      assert bytes == bytes[..partSize] + bytes[partSize..];
    } else if bytes != [] {
      assert [bytes][1..] == [];
    }
  }
}
