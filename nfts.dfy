/**
 * The NFT record the React front end works with: the wire shape of
 * `GET /nfts/{wallet}` (`address`, `name`, `description`, `image`,
 * `collection_name`), with the snake_case names normalised once here.
 */
module Nfts {
  import opened Wrappers

  /** `collectionName` is None when the JSON field is absent or null. */
  datatype Nft = Nft(
    address: string,
    name: string,
    description: string,
    image: string,
    collectionName: Option<string>)

  /** The outcome of `GET /nfts/{wallet}`: the body's `nfts` field, which may be absent. */
  type NftsResponse = Response<Option<seq<Nft>>>

  /** One stored member of a showcase: a snapshot keyed by `nft_address`. */
  datatype ShowcaseNft = ShowcaseNft(nftAddress: string, name: string, image: string)

  /**
   * A showcase as the front end holds it; `showcaseNfts` is None when the
   * `showcase_nfts` field is absent.
   */
  datatype Showcase = Showcase(id: nat, title: string, description: string, showcaseNfts: Option<seq<ShowcaseNft>>)
}

/** JavaScript truthiness of the values the screens test with `!x` or `x || d`. */
module Js {
  import opened Wrappers

  /** A string prop is truthy when it is present and not "". */
  predicate TruthyText(s: Option<string>) { s.Some? && s.value != "" }

  /** A number prop is truthy when it is present and not 0. */
  predicate TruthyNumber(n: Option<int>) { n.Some? && n.value != 0 }

  /** `s || fallback` for a string that may be absent. */
  function OrText(s: Option<string>, fallback: string): (r: string)
    ensures TruthyText(s) ==> r == s.value
    ensures !TruthyText(s) ==> r == fallback
  {
    if TruthyText(s) then s.value else fallback
  }
}
