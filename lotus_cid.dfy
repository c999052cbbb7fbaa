/** Lotus's JSON form of a CID: a map whose `"/"` entry holds the CID's text. */
module LotusCid {
  import opened Wrappers

  type CID = map<string, string>

  /** `str2cid`: a fresh map with the text under `"/"` and nothing else. */
  function Str2Cid(text: string): (cid: CID)
    ensures cid.Keys == {"/"} && cid["/"] == text
  {
    map[]["/" := text]
  }

  /**
    `cid2str`, and equally `cidr2str`, which returns the same entry by
    reference: the text under `"/"`, if there is one.
  */
  function Cid2Str(cid: CID): (text: Option<string>)
    ensures text.Some? <==> "/" in cid
    ensures text.Some? ==> text.value == cid["/"]
  {
    if "/" in cid then Some(cid["/"]) else None
  }

  /** The text a CID map was made from is the text read back from it. */
  lemma Str2CidRoundTrip(text: string)
    ensures Cid2Str(Str2Cid(text)) == Some(text)
  {
  }

  /** A map read back gives one made from its text, up to entries other than `"/"`. */
  lemma Cid2StrThenStr2Cid(cid: CID)
    requires "/" in cid
    ensures Str2Cid(Cid2Str(cid).value) == map["/" := cid["/"]]
    ensures cid.Keys == {"/"} ==> Str2Cid(Cid2Str(cid).value) == cid
  {
  }

  /** Only the `"/"` entry matters: adding or removing any other entry changes nothing. */
  lemma Cid2StrIgnoresOtherKeys(cid: CID, k: string, v: string)
    requires k != "/"
    ensures Cid2Str(cid[k := v]) == Cid2Str(cid)
    ensures Cid2Str(cid - {k}) == Cid2Str(cid)
  {
  }
}
