/** `get_sites_for_state`: the ordered list of site records of one state
    page, built through the site cache and memoized by state url. */
module StateSites {
  import opened Common
  import opened Sites
  import Directory

  /** The link inside one h3 heading of the park list: `NoAnchor` when the
      heading has no anchor, `Anchor(None)` when the anchor has no href. */
  datatype Anchor = NoAnchor | Anchor(href: Option<string>)

  /** A state page; `parks` is `None` when no element has id "list_parks",
      otherwise the heading links in page order. */
  datatype StatePage = StatePage(parks: Option<seq<Anchor>>)

  /** The site page url for an href such as "/isro/". */
  function SiteUrl(href: string): string {
    Directory.NpsRoot + href + "index.htm"
  }

  predicate HasHref(a: Anchor) {
    a.Anchor? && a.href.Some?
  }

  /** The href of one heading: subscripting a missing anchor (None) raises
      TypeError, a missing href attribute raises KeyError. */
  function HrefOf(a: Anchor): (r: Result<string>)
    ensures r.Ok? <==> HasHref(a)
    ensures r.Ok? ==> r.value == a.href.value
    ensures a.NoAnchor? ==> r == Err(TypeError)
    ensures a.Anchor? && a.href.None? ==> r == Err(KeyError)
  {
    match a
    case NoAnchor => Err(TypeError)
    case Anchor(None) => Err(KeyError)
    case Anchor(Some(h)) => Ok(h)
  }

  /** The site url of heading `i`; every heading has an href. */
  function UrlAt(headings: seq<Anchor>, i: int): string
    requires 0 <= i < |headings| && HasHref(headings[i])
  {
    SiteUrl(headings[i].href.value)
  }

  /** Every request is a page fetch of a url the site cache did not hold. */
  ghost predicate FetchesOnlyMisses(requests: seq<Request>, cache: map<string, NationalSite>) {
    forall k :: 0 <= k < |requests| ==> requests[k].Page? && requests[k].url !in cache
  }

  /** The loop over the headings: each heading's record is obtained through
      the site cache, which therefore grows as the loop proceeds; the loop
      stops at the first heading or site page that raises. */
  function CollectSites(headings: seq<Anchor>, cache: map<string, NationalSite>, pages: string -> SitePage)
    : (r: Fetched<seq<NationalSite>, map<string, NationalSite>>)
    ensures Extends(cache, r.cache)
    ensures r.value.Ok? ==> && |r.value.value| == |headings|
                            && forall i :: 0 <= i < |headings| ==>
                                 && HasHref(headings[i])
                                 && UrlAt(headings, i) in r.cache
                                 && r.value.value[i] == r.cache[UrlAt(headings, i)]
    ensures (forall i :: 0 <= i < |headings| ==> HasHref(headings[i]) && Complete(pages(UrlAt(headings, i))))
            ==> r.value.Ok?
    ensures FetchesOnlyMisses(r.requests, cache)
    ensures NoDuplicates(r.requests)
    ensures forall k :: k in r.cache && k !in cache ==> Page(k) in r.requests
  {
    if |headings| == 0 then Fetched(Ok([]), cache, [])
    else
      match HrefOf(headings[0])
      case Err(e) => Fetched(Err(e), cache, [])
      case Ok(href) =>
        var first := GetSiteInstance(SiteUrl(href), cache, pages);
        if first.value.Err? then Fetched(Err(first.value.error), first.cache, first.requests)
        else
          var rest := CollectSites(headings[1..], first.cache, pages);
          CollectStep(headings, cache, pages, first, rest);
          var value := if rest.value.Ok? then Ok([first.value.value] + rest.value.value) else rest.value;
          Fetched(value, rest.cache, first.requests + rest.requests)
  }

  /** Joining the first heading's lookup with the rest of the loop keeps
      every promise of `CollectSites`. */
  lemma CollectStep(headings: seq<Anchor>, cache: map<string, NationalSite>, pages: string -> SitePage,
                    first: Fetched<NationalSite, map<string, NationalSite>>,
                    rest: Fetched<seq<NationalSite>, map<string, NationalSite>>)
    requires |headings| > 0 && HasHref(headings[0])
    requires first == GetSiteInstance(UrlAt(headings, 0), cache, pages) && first.value.Ok?
    requires Extends(first.cache, rest.cache)
    requires rest.value.Ok? ==> && |rest.value.value| == |headings| - 1
                                && forall i :: 0 <= i < |headings| - 1 ==>
                                     && HasHref(headings[1..][i])
                                     && UrlAt(headings[1..], i) in rest.cache
                                     && rest.value.value[i] == rest.cache[UrlAt(headings[1..], i)]
    requires FetchesOnlyMisses(rest.requests, first.cache)
    requires NoDuplicates(rest.requests)
    requires forall k :: k in rest.cache && k !in first.cache ==> Page(k) in rest.requests
    ensures Extends(cache, rest.cache)
    ensures rest.value.Ok? ==> forall i :: 0 <= i < |headings| ==>
                                 && HasHref(headings[i])
                                 && UrlAt(headings, i) in rest.cache
                                 && ([first.value.value] + rest.value.value)[i] == rest.cache[UrlAt(headings, i)]
    ensures FetchesOnlyMisses(first.requests + rest.requests, cache)
    ensures NoDuplicates(first.requests + rest.requests)
    ensures forall k :: k in rest.cache && k !in cache ==> Page(k) in first.requests + rest.requests
  {
    ExtendsTransitive(cache, first.cache, rest.cache);
    if rest.value.Ok? {
      CollectStepValues(headings, first.value.value, rest.value.value, rest.cache);
    }
    CollectStepRequests(UrlAt(headings, 0), cache, first.cache, first.requests, rest.requests);
  }

  /** The list with the first record prepended matches the grown cache. */
  lemma CollectStepValues(headings: seq<Anchor>, site: NationalSite, tail: seq<NationalSite>,
                          cache: map<string, NationalSite>)
    requires |headings| > 0 && HasHref(headings[0])
    requires UrlAt(headings, 0) in cache && cache[UrlAt(headings, 0)] == site
    requires |tail| == |headings| - 1
    requires forall i :: 0 <= i < |headings| - 1 ==>
               && HasHref(headings[1..][i])
               && UrlAt(headings[1..], i) in cache
               && tail[i] == cache[UrlAt(headings[1..], i)]
    ensures forall i :: 0 <= i < |headings| ==>
              && HasHref(headings[i])
              && UrlAt(headings, i) in cache
              && ([site] + tail)[i] == cache[UrlAt(headings, i)]
  {
    forall i | 0 <= i < |headings|
      ensures && HasHref(headings[i])
              && UrlAt(headings, i) in cache
              && ([site] + tail)[i] == cache[UrlAt(headings, i)]
    {
      if i > 0 {
        assert headings[1..][i - 1] == headings[i];
        assert UrlAt(headings[1..], i - 1) == UrlAt(headings, i);
      }
    }
  }

  /** The first lookup fetched at most its own url, which the rest of the
      loop then finds in the cache: no url is fetched twice. */
  lemma CollectStepRequests(url: string, cache: map<string, NationalSite>, mid: map<string, NationalSite>,
                            head: seq<Request>, tail: seq<Request>)
    requires head == [] || (head == [Page(url)] && url !in cache)
    requires url in mid && Extends(cache, mid)
    requires FetchesOnlyMisses(tail, mid)
    requires NoDuplicates(tail)
    ensures FetchesOnlyMisses(head + tail, cache)
    ensures NoDuplicates(head + tail)
  {
    var all := head + tail;
    forall k | 0 <= k < |all| ensures all[k].Page? && all[k].url !in cache {
      if k >= |head| {
        assert all[k] == tail[k - |head|];
      }
    }
    forall a, b | 0 <= a < b < |all| ensures all[a] != all[b] {
      if a < |head| {
        assert all[a] == Page(url);
        assert all[b] == tail[b - |head|];
      } else {
        assert all[a] == tail[a - |head|] && all[b] == tail[b - |head|];
      }
    }
  }

  /** Heading `i` yields a record: it has an href, and its site url is
      already cached or its page is complete. */
  predicate Loadable(headings: seq<Anchor>, i: int, cache: map<string, NationalSite>, pages: string -> SitePage)
    requires 0 <= i < |headings|
  {
    HasHref(headings[i]) && (UrlAt(headings, i) in cache || Complete(pages(UrlAt(headings, i))))
  }

  /** The exception raised at a heading that yields no record: the href
      lookup's, or AttributeError from an incomplete site page. */
  function LoadError(a: Anchor): Error {
    if HasHref(a) then AttributeError else HrefOf(a).error
  }

  /** Heading `i` is the first one that yields no record. */
  ghost predicate FirstUnloadable(headings: seq<Anchor>, i: int, cache: map<string, NationalSite>,
                                  pages: string -> SitePage) {
    && 0 <= i < |headings|
    && !Loadable(headings, i, cache, pages)
    && forall j :: 0 <= j < i ==> Loadable(headings, j, cache, pages)
  }

  /** After the first heading's record is in the cache, a later heading is
      loadable from the grown cache exactly when it was from the old one:
      the only new key is a url whose page is complete. */
  lemma LoadableAfterFirst(headings: seq<Anchor>, cache: map<string, NationalSite>, pages: string -> SitePage,
                           first: Fetched<NationalSite, map<string, NationalSite>>)
    requires |headings| > 0 && HasHref(headings[0])
    requires first == GetSiteInstance(UrlAt(headings, 0), cache, pages) && first.value.Ok?
    ensures forall i :: 1 <= i < |headings| ==>
              (Loadable(headings, i, cache, pages) <==> Loadable(headings[1..], i - 1, first.cache, pages))
  {
    forall i | 1 <= i < |headings|
      ensures Loadable(headings, i, cache, pages) <==> Loadable(headings[1..], i - 1, first.cache, pages)
    {
      assert headings[1..][i - 1] == headings[i];
      if HasHref(headings[i]) {
        assert UrlAt(headings[1..], i - 1) == UrlAt(headings, i);
      }
    }
  }

  /** The loop over the headings succeeds exactly when every heading is
      loadable. */
  lemma {:induction false} CollectSitesSucceeds(headings: seq<Anchor>, cache: map<string, NationalSite>,
                                                pages: string -> SitePage)
    ensures CollectSites(headings, cache, pages).value.Ok?
            <==> forall i :: 0 <= i < |headings| ==> Loadable(headings, i, cache, pages)
    decreases |headings|
  {
    if |headings| > 0 {
      var r := CollectSites(headings, cache, pages);
      if !HasHref(headings[0]) {
        assert r.value.Err? && !Loadable(headings, 0, cache, pages);
      } else {
        var first := GetSiteInstance(UrlAt(headings, 0), cache, pages);
        if first.value.Ok? {
          var rest := CollectSites(headings[1..], first.cache, pages);
          assert Loadable(headings, 0, cache, pages);
          assert r.value.Ok? <==> rest.value.Ok?;
          CollectSitesSucceeds(headings[1..], first.cache, pages);
          LoadableAfterFirst(headings, cache, pages, first);
          if rest.value.Ok? {
            forall i | 0 <= i < |headings| ensures Loadable(headings, i, cache, pages) {
              if i > 0 {
                assert Loadable(headings[1..], i - 1, first.cache, pages);
              }
            }
          } else {
            var j :| 0 <= j < |headings| - 1 && !Loadable(headings[1..], j, first.cache, pages);
            assert !Loadable(headings, j + 1, cache, pages);
          }
        } else {
          assert r.value.Err? && !Loadable(headings, 0, cache, pages);
        }
      }
    }
  }

  /** A failed loop raises the exception of the first heading that is not
      loadable. */
  lemma {:induction false} CollectSitesFailsAtFirstUnloadable(headings: seq<Anchor>, cache: map<string, NationalSite>,
                                                              pages: string -> SitePage)
    ensures CollectSites(headings, cache, pages).value.Err? ==>
              exists i :: && FirstUnloadable(headings, i, cache, pages)
                          && CollectSites(headings, cache, pages).value.error == LoadError(headings[i])
    decreases |headings|
  {
    if |headings| > 0 {
      if !HasHref(headings[0]) {
        assert FirstUnloadable(headings, 0, cache, pages);
      } else {
        var first := GetSiteInstance(UrlAt(headings, 0), cache, pages);
        if first.value.Err? {
          assert FirstUnloadable(headings, 0, cache, pages);
        } else {
          var tail := headings[1..];
          var rest := CollectSites(tail, first.cache, pages);
          assert Loadable(headings, 0, cache, pages);
          if rest.value.Err? {
            CollectSitesFailsAtFirstUnloadable(tail, first.cache, pages);
            LoadableAfterFirst(headings, cache, pages, first);
            var j :| FirstUnloadable(tail, j, first.cache, pages) && rest.value.error == LoadError(tail[j]);
            assert headings[j + 1] == tail[j];
            assert FirstUnloadable(headings, j + 1, cache, pages);
          }
        }
      }
    }
  }

  /** The result of `get_sites_for_state` with both caches it touches. */
  datatype Listed = Listed(
    value: Result<seq<NationalSite>>,
    states: map<string, seq<NationalSite>>,
    sites: map<string, NationalSite>,
    requests: seq<Request>)

  /** `get_sites_for_state`: the cached list for `stateUrl` when present;
      otherwise the state page is fetched and its headings are walked in
      page order through the site cache, and the complete list is stored
      under `stateUrl`. */
  function GetSitesForState(stateUrl: string, states: map<string, seq<NationalSite>>,
                            sites: map<string, NationalSite>,
                            statePages: string -> StatePage, sitePages: string -> SitePage): (r: Listed)
    ensures stateUrl in states ==> r == Listed(Ok(states[stateUrl]), states, sites, [])
    ensures stateUrl !in states ==> |r.requests| > 0 && r.requests[0] == Page(stateUrl)
    ensures stateUrl !in states && statePages(stateUrl).parks.None? ==> r.value == Err(AttributeError)
    ensures stateUrl !in states && r.value.Ok? ==>
              && statePages(stateUrl).parks.Some?
              && var headings := statePages(stateUrl).parks.value;
                 && |r.value.value| == |headings|
                 && forall i :: 0 <= i < |headings| ==>
                      && HasHref(headings[i])
                      && UrlAt(headings, i) in r.sites
                      && r.value.value[i] == r.sites[UrlAt(headings, i)]
    ensures r.value.Ok? ==> stateUrl in r.states && r.states[stateUrl] == r.value.value
    ensures stateUrl !in states && r.value.Ok? ==> r.states == states[stateUrl := r.value.value]
    ensures r.value.Err? ==> r.states == states
    ensures Extends(states, r.states) && Extends(sites, r.sites)
    ensures stateUrl !in states ==> FetchesOnlyMisses(r.requests[1..], sites) && NoDuplicates(r.requests[1..])
    ensures stateUrl !in states && statePages(stateUrl).parks.Some? ==>
              var headings := statePages(stateUrl).parks.value;
              && (r.value.Ok? <==> forall i :: 0 <= i < |headings| ==> Loadable(headings, i, sites, sitePages))
              && (r.value.Err? ==> exists i :: && FirstUnloadable(headings, i, sites, sitePages)
                                               && r.value.error == LoadError(headings[i]))
  {
    if stateUrl in states then Listed(Ok(states[stateUrl]), states, sites, [])
    else
      match statePages(stateUrl).parks
      case None => Listed(Err(AttributeError), states, sites, [Page(stateUrl)])
      case Some(headings) =>
        var c := CollectSites(headings, sites, sitePages);
        CollectSitesSucceeds(headings, sites, sitePages);
        CollectSitesFailsAtFirstUnloadable(headings, sites, sitePages);
        var requests := [Page(stateUrl)] + c.requests;
        assert requests[1..] == c.requests;
        match c.value
        case Err(e) => Listed(Err(e), states, c.cache, requests)
        case Ok(list) => Listed(Ok(list), states[stateUrl := list], c.cache, requests)
  }

  /** A second call for the same state returns the same list without a
      request and changes neither cache. */
  lemma GetSitesForStateIdempotent(stateUrl: string, states: map<string, seq<NationalSite>>,
                                   sites: map<string, NationalSite>,
                                   statePages: string -> StatePage, sitePages: string -> SitePage)
    requires GetSitesForState(stateUrl, states, sites, statePages, sitePages).value.Ok?
    ensures var first := GetSitesForState(stateUrl, states, sites, statePages, sitePages);
            var second := GetSitesForState(stateUrl, first.states, first.sites, statePages, sitePages);
            second == Listed(first.value, first.states, first.sites, [])
  {
  }

  /** The site cache is shared: each record listed for a state is what
      `get_site_instance` then returns for its url, without a request. */
  lemma ListedSitesAreCached(stateUrl: string, states: map<string, seq<NationalSite>>,
                             sites: map<string, NationalSite>,
                             statePages: string -> StatePage, sitePages: string -> SitePage, i: int)
    requires 0 <= i
    ensures var listed := GetSitesForState(stateUrl, states, sites, statePages, sitePages);
            var parks := statePages(stateUrl).parks;
            stateUrl !in states && listed.value.Ok? && parks.Some? && i < |parks.value| ==>
              && HasHref(parks.value[i])
              && GetSiteInstance(UrlAt(parks.value, i), listed.sites, sitePages)
                 == Fetched(Ok(listed.value.value[i]), listed.sites, [])
  {
  }
}
