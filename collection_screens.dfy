/**
 * MyCollectionsScreen and MyNftsScreen: the same fetch effect over the
 * state fields `collections`/`nftGroups`, `loading` and `error`, split at
 * its `await` into the part that runs on mount (`Mount`) and the part that
 * runs when the request settles (`Settle`), followed by the render choice.
 */
module CollectionScreens {
  import opened Wrappers
  import opened Nfts
  import opened Js
  import opened Grouping

  const WALLET_MISSING: string := "Wallet address is not available."
  const FETCH_FAILED: string := "Failed to fetch NFTs. Please try again later."

  /** What the screen renders, in the order the component tests for it. */
  datatype GroupsView =
    | LoadingText
    | ErrorText(message: string)
    | NoCollectionsText
    | CollectionCards(groups: seq<Collection>)

  /** `groupNftsByCollection(response.data.nfts)` throws inside the `try`. */
  predicate GroupingThrows(data: Option<seq<Nft>>) {
    data.Some? && HitsInheritedName(data.value)
  }

  /** The render choice of the screen from its three state fields. */
  function ViewOf(groups: seq<Collection>, loading: bool, error: Option<string>): (v: GroupsView)
    ensures loading <==> v == LoadingText
    ensures v.ErrorText? <==> !loading && TruthyText(error)
    ensures v.ErrorText? ==> v.message == error.value
    ensures v.CollectionCards? ==> v.groups == groups && groups != []
    ensures v == NoCollectionsText <==> !loading && !TruthyText(error) && groups == []
  {
    if loading then LoadingText
    else if TruthyText(error) then ErrorText(error.value)
    else if groups != [] then CollectionCards(groups)
    else NoCollectionsText
  }

  class NftGroupsScreen {
    var groups: seq<Collection>
    var loading: bool
    var error: Option<string>

    /** `useState([])`, `useState(true)`, `useState(null)`. */
    constructor ()
      ensures groups == [] && loading && error == None
    {
      groups := [];
      loading := true;
      error := None;
    }

    function View(): GroupsView
      reads this
    {
      ViewOf(groups, loading, error)
    }

    /**
     * The effect up to its `await`: without a wallet address it stops with
     * an error and issues no request; otherwise it sets `loading` and
     * issues `GET /nfts/{walletAddress}`.
     */
    method Mount(walletAddress: Option<string>) returns (requested: bool)
      modifies this
      ensures requested <==> TruthyText(walletAddress)
      ensures groups == old(groups)
      ensures !requested ==> !loading && error == Some(WALLET_MISSING)
      ensures !requested ==> View() == ErrorText(WALLET_MISSING)
      ensures requested ==> loading && error == old(error) && View() == LoadingText
    {
      if !TruthyText(walletAddress) {
        loading := false;
        error := Some(WALLET_MISSING);
        return false;
      }
      loading := true;
      return true;
    }

    /**
     * The rest of the effect: on success the groups become the grouping of
     * the response and the error is cleared; when the request fails, or the
     * grouping throws on a name inherited from `Object.prototype`, the catch
     * sets the error message and the groups are kept; `finally` clears
     * `loading`.
     */
    method Settle(response: NftsResponse)
      modifies this
      ensures !loading && View() != LoadingText
      ensures response.Received? && !GroupingThrows(response.data) ==>
        groups == Grouped(response.data) && error == None
      ensures response.Received? && !GroupingThrows(response.data) ==>
        (View() == NoCollectionsText <==> response.data.None? || response.data.value == [])
      ensures response.RequestFailed? || GroupingThrows(response.data) ==>
        groups == old(groups) && error == Some(FETCH_FAILED) && View() == ErrorText(FETCH_FAILED)
    {
      match response {
        case Received(nfts) =>
          var grouped := GroupNftsByCollection(nfts);
          if grouped.None? {
            error := Some(FETCH_FAILED);
          } else {
            groups := grouped.value;
            error := None;
            GroupedEmptyIff(nfts);
          }
        case RequestFailed =>
          error := Some(FETCH_FAILED);
      }
      loading := false;
    }
  }
}
