/**
  A chain head as Lotus reports it, and its tipset key: the concatenation of
  the text of every block CID of the tipset, in order.
*/
module LotusChainHead {
  import opened Ints
  import opened Wrappers
  import LotusCid
  import Utf8

  /** Every CID map has its `"/"` entry. */
  predicate AllKeyed(cids: seq<LotusCid.CID>)
  {
    forall i :: 0 <= i < |cids| ==> "/" in cids[i]
  }

  /** The texts of the CIDs, one after the other. */
  function Joined(cids: seq<LotusCid.CID>): string
    requires AllKeyed(cids)
  {
    if cids == [] then [] else Joined(cids[..|cids| - 1]) + cids[|cids| - 1]["/"]
  }

  /** `ChainHead`; the block schema `B` is not part of this model. */
  datatype ChainHead<B> = ChainHead(height: i64, blocks: seq<B>, cids: seq<LotusCid.CID>)
  {
    /**
      `key`: appends the bytes of each CID's text to a buffer, giving up on
      the first CID without a `"/"` entry, and reads the buffer back as text.
      It depends on the CIDs alone.
    */
    method Key() returns (key: Option<string>)
      ensures key.None? <==> !AllKeyed(cids)
      ensures key.Some? ==> AllKeyed(cids) && key.value == Joined(cids)
      ensures cids == [] ==> key == Some([])
    {
      var buffer: Bytes := [];
      for i := 0 to |cids|
        invariant AllKeyed(cids[..i])
        invariant buffer == Utf8.Encode(Joined(cids[..i]))
      {
        var text := LotusCid.Cid2Str(cids[i]);
        if text.None? {
          return None;
        }
        assert cids[..i + 1][..i] == cids[..i];
        Utf8.EncodeConcat(Joined(cids[..i]), text.value);
        buffer := buffer + Utf8.Encode(text.value);
      }
      assert cids[..|cids|] == cids;
      Utf8.DecodeEncode(Joined(cids));
      key := Utf8.Decode(buffer);
    }
  }
}
