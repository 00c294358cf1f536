/** The `NationalSite` record, its one-line summary, and the memoized
    extraction of a record from a site page (`get_site_instance`). */
module Sites {
  import opened Common
  import opened Text

  /** One national site; `address` is "City, Region". */
  datatype NationalSite = NationalSite(category: string, name: string, address: string, zipcode: string, phone: string)

  /** `NationalSite.info()`: "name (category): address zipcode". */
  function Info(site: NationalSite): (r: string)
    ensures |r| == |site.name| + |site.category| + |site.address| + |site.zipcode| + 6
    ensures r[..|site.name|] == site.name
    ensures r[|site.name|..|site.name| + 2] == " ("
    ensures r[|site.name| + 2..|site.name| + 2 + |site.category|] == site.category
    ensures r[|site.name| + 2 + |site.category|..|site.name| + 5 + |site.category|] == "): "
    ensures r[|site.name| + 5 + |site.category|..|r| - |site.zipcode| - 1] == site.address
    ensures r[|r| - |site.zipcode|..] == site.zipcode
    ensures r[|r| - |site.zipcode| - 1] == ' '
  {
    site.name + " (" + site.category + "): " + site.address + " " + site.zipcode
  }

  /** What the HTML extractor finds on a site page: the text of the element
      with class Hero-title, Hero-designation, and of the elements with
      itemprop addressLocality, addressRegion, postalCode and telephone.
      `None` is a selector that found nothing. */
  datatype SitePage = SitePage(
    title: Option<string>,
    designation: Option<string>,
    locality: Option<string>,
    region: Option<string>,
    postalCode: Option<string>,
    telephone: Option<string>)

  predicate Complete(page: SitePage) {
    && page.title.Some?
    && page.designation.Some?
    && page.locality.Some?
    && page.region.Some?
    && page.postalCode.Some?
    && page.telephone.Some?
  }

  /** Builds the record from one site page. A missing element makes `.text`
      read an attribute of None. */
  function MakeSite(page: SitePage): (r: Result<NationalSite>)
    ensures r.Ok? <==> Complete(page)
    ensures r.Err? ==> r.error == AttributeError
    ensures r.Ok? ==> && r.value.name == page.title.value
                      && r.value.category == page.designation.value
    ensures r.Ok? ==> r.value.address == page.locality.value + ", " + page.region.value
    ensures r.Ok? ==> && r.value.zipcode == Strip(page.postalCode.value)
                      && r.value.phone == Strip(page.telephone.value)
  {
    if !Complete(page) then Err(AttributeError)
    else
      Ok(NationalSite(
        category := page.designation.value,
        name := page.title.value,
        address := page.locality.value + ", " + page.region.value,
        zipcode := Strip(page.postalCode.value),
        phone := Strip(page.telephone.value)))
  }

  /** Stripping a stored zipcode or phone again changes nothing. */
  lemma MadeSiteIsStripped(page: SitePage)
    requires Complete(page)
    ensures Strip(MakeSite(page).value.zipcode) == MakeSite(page).value.zipcode
    ensures Strip(MakeSite(page).value.phone) == MakeSite(page).value.phone
  {
    StripIdempotent(page.postalCode.value);
    StripIdempotent(page.telephone.value);
  }

  /** `get_site_instance`: the record for `url`, from `cache` when present,
      otherwise fetched through `pages`, extracted, and stored under `url`. */
  function GetSiteInstance(url: string, cache: map<string, NationalSite>, pages: string -> SitePage)
    : (r: Fetched<NationalSite, map<string, NationalSite>>)
    ensures url in cache ==> r.value == Ok(cache[url]) && r.cache == cache && r.requests == []
    ensures url !in cache ==> r.requests == [Page(url)]
    ensures url !in cache ==> (r.value.Ok? <==> Complete(pages(url)))
    ensures url !in cache && r.value.Ok? ==> r.value == MakeSite(pages(url)) && r.cache == cache[url := r.value.value]
    ensures r.value.Err? ==> r.cache == cache
    ensures r.value.Ok? ==> url in r.cache && r.cache[url] == r.value.value
    ensures Extends(cache, r.cache)
  {
    if url in cache then Fetched(Ok(cache[url]), cache, [])
    else
      match MakeSite(pages(url))
      case Err(e) => Fetched(Err(e), cache, [Page(url)])
      case Ok(site) => Fetched(Ok(site), cache[url := site], [Page(url)])
  }

  /** Asking twice for the same url gives the same record, and the second
      call issues no request and leaves the cache as the first left it. */
  lemma GetSiteInstanceIdempotent(url: string, cache: map<string, NationalSite>, pages: string -> SitePage)
    requires GetSiteInstance(url, cache, pages).value.Ok?
    ensures var first := GetSiteInstance(url, cache, pages);
            var second := GetSiteInstance(url, first.cache, pages);
            second.value == first.value && second.cache == first.cache && second.requests == []
  {
  }
}
