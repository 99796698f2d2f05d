/**
 * SearchScreen: the controlled `query` field and `handleSearch`, split at
 * its `await`, over the `results` and `loading` fields.
 */
module SearchScreen {
  import opened Wrappers

  const SEARCH_FAILED: string := "Search failed. Please try again."
  const SEARCH_PATH: string := "/search/users?query="

  /** One entry of the search response, as the result list renders it. */
  datatype UserSummary = UserSummary(
    telegramId: int,
    username: string,
    firstName: Option<string>,
    walletAddress: Option<string>,
    nftCount: nat)

  /** The request path: the query is spliced in as typed, without URL-encoding. */
  function SearchPath(query: string): (path: string)
    ensures |path| == |SEARCH_PATH| + |query|
    ensures path[..|SEARCH_PATH|] == SEARCH_PATH && path[|SEARCH_PATH|..] == query
  {
    SEARCH_PATH + query
  }

  /** A query holding `&` or `#` reaches the request path unchanged. */
  lemma QueryNotEncoded(query: string, i: nat)
    requires i < |query|
    ensures SearchPath(query)[|SEARCH_PATH| + i] == query[i]
  {
  }

  class SearchUsersScreen {
    var query: string
    var results: seq<UserSummary>
    var loading: bool

    constructor ()
      ensures query == "" && results == [] && !loading
    {
      query := "";
      results := [];
      loading := false;
    }

    /** The input's `onChange`. */
    method EditQuery(value: string)
      modifies this`query
      ensures query == value
    {
      query := value;
    }

    /**
     * `handleSearch` up to its `await`: an empty query clears the results
     * and issues no request; otherwise `loading` is set and the search
     * path is requested.
     */
    method Submit() returns (path: Option<string>)
      modifies this`results, this`loading
      ensures query == "" ==> path == None && results == [] && loading == old(loading)
      ensures query != "" ==> path == Some(SearchPath(query)) && loading && results == old(results)
    {
      if query == "" {
        results := [];
        return None;
      }
      loading := true;
      return Some(SearchPath(query));
    }

    /**
     * The rest of `handleSearch`: success replaces the results, failure
     * alerts and keeps them; `finally` clears `loading`.
     */
    method Settle(response: Response<seq<UserSummary>>) returns (alert: Option<string>)
      modifies this`results, this`loading
      ensures !loading
      ensures response.Received? ==> results == response.data && alert == None
      ensures response.RequestFailed? ==> results == old(results) && alert == Some(SEARCH_FAILED)
    {
      alert := None;
      match response {
        case Received(data) =>
          results := data;
        case RequestFailed =>
          alert := Some(SEARCH_FAILED);
      }
      loading := false;
    }
  }
}
