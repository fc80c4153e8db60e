/**
 * The sharing action creators.  Each returns an action record: its type, and
 * the request that the record's `promise` makes through the `api` object when
 * the middleware runs it.  The request is described, never sent.
 */
module Sharing {
  import opened Wrappers

  const UPDATE_SHARING := "UPDATE_SHARING"
  const GET_SHARING := "GET_SHARING"

  const SharingEndpoint := "/@sharing"
  const SearchQuery := "?search="

  datatype HttpMethod = Get | Post

  /** `api.get(path)` or `api.post(path, { data })`. */
  datatype Request<D> = Request(verb: HttpMethod, path: string, data: Option<D>)

  /** `{ type, promise }`, with the promise described by its request. */
  datatype Action<D> = Action(actionType: string, promise: Request<D>)

  /** The action that stores `sharing` for the content at `url`. */
  function UpdateSharing<D>(url: string, sharing: D): (a: Action<D>)
    ensures a.actionType == UPDATE_SHARING
    ensures a.promise.verb == Post && a.promise.data == Some(sharing)
    ensures |a.promise.path| == |url| + 9
    ensures a.promise.path[..|url|] == url && a.promise.path[|url|..] == "/@sharing"
  {
    Action(UPDATE_SHARING, Request(Post, url + SharingEndpoint, Some(sharing)))
  }

  /** The action that reads the sharing settings of `url`, filtered by `search` when
      it is not empty. */
  function GetSharing<D>(url: string, search: string := ""): (a: Action<D>)
    ensures a.actionType == GET_SHARING
    ensures a.promise.verb == Get && a.promise.data == None
  {
    Action(GET_SHARING, Request(Get, url + SharingEndpoint + (if search != "" then SearchQuery + search else ""), None))
  }

  /** Every path `GetSharing` asks for starts with the sharing endpoint of the content. */
  lemma GetSharingPathHasEndpointPrefix<D>(url: string, search: string)
    ensures var path := GetSharing<D>(url, search).promise.path;
            |path| >= |url| + 9 && path[..|url| + 9] == url + "/@sharing"
  {
  }

  /** With the default search, or an explicitly empty one, there is no query string. */
  lemma GetSharingWithoutSearch<D>(url: string)
    ensures GetSharing<D>(url).promise.path == url + "/@sharing"
    ensures GetSharing<D>(url, "") == GetSharing<D>(url)
  {
  }

  /** A non-empty search is appended verbatim after `?search=`. */
  lemma GetSharingWithSearch<D>(url: string, search: string)
    requires search != ""
    ensures GetSharing<D>(url, search).promise.path == url + "/@sharing?search=" + search
  {
  }

  /** The search a `GetSharing` path for `url` carries: what follows `?search=`, or empty
      when the path stops at the endpoint. */
  function SearchOf(url: string, path: string): Option<string>
  {
    var base := url + SharingEndpoint;
    if |path| < |base| || path[..|base|] != base then None
    else
      var query := path[|base|..];
      if query == "" then Some("")
      else if |query| > |SearchQuery| && query[..|SearchQuery|] == SearchQuery then Some(query[|SearchQuery|..])
      else None
  }

  /** The search term reads back from the path, so for a fixed content url different
      searches ask for different paths. */
  lemma SearchRoundTrip<D>(url: string, search: string)
    ensures SearchOf(url, GetSharing<D>(url, search).promise.path) == Some(search)
  {
    var base := url + SharingEndpoint;
    var path := GetSharing<D>(url, search).promise.path;
    assert path[..|base|] == base;
    if search != "" {
      assert path[|base|..] == SearchQuery + search;
    } else {
      assert path[|base|..] == "";
    }
  }

  lemma GetSharingInjective<D>(url: string, s1: string, s2: string)
    ensures GetSharing<D>(url, s1) == GetSharing<D>(url, s2) <==> s1 == s2
  {
    SearchRoundTrip<D>(url, s1);
    SearchRoundTrip<D>(url, s2);
  }

  /** The payload comes back out of the update request unchanged, and the two creators
      never describe the same request. */
  lemma UpdateCarriesPayload<D>(url: string, sharing: D, search: string)
    ensures UpdateSharing(url, sharing).promise.data.Some?
    ensures UpdateSharing(url, sharing).promise.data.value == sharing
    ensures UpdateSharing(url, sharing).promise != GetSharing<D>(url, search).promise
    ensures UpdateSharing(url, sharing).actionType != GetSharing<D>(url, search).actionType
  {
    assert UPDATE_SHARING[0] != GET_SHARING[0];
  }

  /** Because the search is not encoded, a path alone does not tell the content url from
      the search: these two calls ask for the same path. */
  lemma UnencodedSearchIsAmbiguous<D>()
    ensures GetSharing<D>("a", "b/@sharing?search=c").promise
            == GetSharing<D>("a/@sharing?search=b", "c").promise
  {
    assert "a" + "/@sharing" + ("?search=" + "b/@sharing?search=c")
           == "a/@sharing?search=b" + "/@sharing" + ("?search=" + "c");
  }
}
