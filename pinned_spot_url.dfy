/** The pinned spot in the page URL: the `spot` query parameter. The query is a key-to-value
    map; the rest of the URL (origin, path, hash) is carried along unchanged. */
module PinnedSpotUrl {
  import opened Wrappers
  import JsText

  const PinnedSpotIdQueryKey: string := "spot"

  datatype Url = Url(base: string, query: map<string, string>, hash: string)

  /** The trimmed `spot` value, or `None` when it is missing or only white space. */
  function GetPinnedSpotIdFromUrl(url: Url): (r: Option<string>)
    ensures PinnedSpotIdQueryKey !in url.query ==> r.None?
    ensures PinnedSpotIdQueryKey in url.query ==>
      (r.None? <==> JsText.AllWhitespace(url.query[PinnedSpotIdQueryKey]))
    ensures r.Some? ==> r.value == JsText.Trim(url.query[PinnedSpotIdQueryKey]) && |r.value| > 0
  {
    if PinnedSpotIdQueryKey !in url.query then None
    else
      var trimmed := JsText.Trim(url.query[PinnedSpotIdQueryKey]);
      JsText.TrimEmptyIffAllWhitespace(url.query[PinnedSpotIdQueryKey]);
      if |trimmed| > 0 then Some(trimmed) else None
  }

  /** A copy of `url` with `spot` set to a non-empty id, or removed for `None` or "". */
  function GetUrlWithPinnedSpotId(url: Url, pinnedSpotId: Option<string>): (r: Url)
    ensures r.base == url.base && r.hash == url.hash
    ensures forall k :: k != PinnedSpotIdQueryKey ==> (k in r.query <==> k in url.query)
    ensures forall k :: k != PinnedSpotIdQueryKey && k in url.query ==> r.query[k] == url.query[k]
    ensures pinnedSpotId.Some? && |pinnedSpotId.value| > 0 ==>
      PinnedSpotIdQueryKey in r.query && r.query[PinnedSpotIdQueryKey] == pinnedSpotId.value
    ensures !(pinnedSpotId.Some? && |pinnedSpotId.value| > 0) ==> PinnedSpotIdQueryKey !in r.query
  {
    if pinnedSpotId.Some? && |pinnedSpotId.value| > 0 then
      url.(query := url.query[PinnedSpotIdQueryKey := pinnedSpotId.value])
    else
      url.(query := url.query - {PinnedSpotIdQueryKey})
  }

  /** Writing an id that is already trimmed and reading it back gives the id. */
  lemma ReadBackPinnedSpotId(url: Url, id: string)
    requires |id| > 0 && JsText.Trim(id) == id
    ensures GetPinnedSpotIdFromUrl(GetUrlWithPinnedSpotId(url, Some(id))) == Some(id)
  {
  }

  /** Clearing the pin and reading back gives no id. */
  lemma ReadBackCleared(url: Url)
    ensures GetPinnedSpotIdFromUrl(GetUrlWithPinnedSpotId(url, None)).None?
  {
  }
}
