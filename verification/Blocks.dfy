/** Input cut into blocks. */
module Blocks {

  function Joined<T>(blocks: seq<seq<T>>): seq<T> {
    if blocks == [] then [] else Joined(blocks[..|blocks| - 1]) + blocks[|blocks| - 1]
  }

  lemma JoinedNext<T>(blocks: seq<seq<T>>, i: nat)
    requires i < |blocks|
    ensures Joined(blocks[..i + 1]) == Joined(blocks[..i]) + blocks[i]
  {
    assert blocks[..i + 1][..i] == blocks[..i];
  }
}
