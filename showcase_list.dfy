/**
 * MyShowcasesScreen: the fetch effect over `showcases`, `loading` and
 * `error`, split at its `await`, and the render priority.
 */
module ShowcaseList {
  import opened Wrappers
  import opened Nfts
  import opened Js

  const USER_ID_MISSING: string := "User ID is not available."
  const SHOWCASES_FETCH_FAILED: string := "Failed to fetch showcases."

  /** The outcome of `GET /users/{telegramId}/showcases`; the body may be null. */
  type ShowcasesResponse = Response<Option<seq<Showcase>>>

  datatype ShowcasesView =
    | LoadingShowcases
    | ShowcasesError(message: string)
    | NoShowcasesPlaceholder
    | ShowcaseItems(items: seq<Showcase>)

  /** Loading first, then a truthy error, then the list or its placeholder. */
  function ViewOf(showcases: seq<Showcase>, loading: bool, error: Option<string>): (v: ShowcasesView)
    ensures loading <==> v == LoadingShowcases
    ensures v.ShowcasesError? <==> !loading && TruthyText(error)
    ensures v.ShowcasesError? ==> v.message == error.value
    ensures v.ShowcaseItems? <==> !loading && !TruthyText(error) && showcases != []
    ensures v.ShowcaseItems? ==> v.items == showcases
  {
    if loading then LoadingShowcases
    else if TruthyText(error) then ShowcasesError(error.value)
    else if |showcases| > 0 then ShowcaseItems(showcases)
    else NoShowcasesPlaceholder
  }

  class MyShowcasesScreen {
    var showcases: seq<Showcase>
    var loading: bool
    var error: Option<string>

    /** `useState([])`, `useState(true)`, `useState(null)`. */
    constructor ()
      ensures showcases == [] && loading && error == None
      ensures View() == LoadingShowcases
    {
      showcases := [];
      loading := true;
      error := None;
    }

    function View(): ShowcasesView
      reads this
    {
      ViewOf(showcases, loading, error)
    }

    /**
     * The effect up to its `await`: a falsy `telegramId` stops with an
     * error and no request; otherwise `loading` is set and
     * `GET /users/{telegramId}/showcases` is issued.
     */
    method Mount(telegramId: Option<int>) returns (requested: bool)
      modifies this
      ensures requested <==> TruthyNumber(telegramId)
      ensures showcases == old(showcases)
      ensures !requested ==> !loading && error == Some(USER_ID_MISSING) && View() == ShowcasesError(USER_ID_MISSING)
      ensures requested ==> loading && error == old(error) && View() == LoadingShowcases
    {
      if !TruthyNumber(telegramId) {
        loading := false;
        error := Some(USER_ID_MISSING);
        return false;
      }
      loading := true;
      return true;
    }

    /**
     * The rest of the effect: success stores `response.data || []` and
     * clears the error; failure sets the error and keeps the list;
     * `finally` clears `loading`.
     */
    method Settle(response: ShowcasesResponse)
      modifies this
      ensures !loading
      ensures response.Received? ==> showcases == response.data.GetOr([]) && error == None
      ensures response.Received? ==> View() != LoadingShowcases && !View().ShowcasesError?
      ensures response.RequestFailed? ==>
        showcases == old(showcases) && error == Some(SHOWCASES_FETCH_FAILED)
        && View() == ShowcasesError(SHOWCASES_FETCH_FAILED)
    {
      match response {
        case Received(data) =>
          showcases := data.GetOr([]);
          error := None;
        case RequestFailed =>
          error := Some(SHOWCASES_FETCH_FAILED);
      }
      loading := false;
    }
  }

  /** A null body and an empty array both end on the placeholder. */
  lemma NullBodyShowsPlaceholder(data: Option<seq<Showcase>>)
    requires data.None? || data.value == []
    ensures ViewOf(data.GetOr([]), false, None) == NoShowcasesPlaceholder
  {
  }
}
