# National parks scraper — Dafny model

This project models the logic of `proj2_nps.py`, a small script that lists the
national sites of a U.S. state from nps.gov and then shows places near a chosen
site by querying a places search API. The script's work splits into three parts:

- **Four memoizing lookups**, each with a process-lifetime cache:
  - `build_state_url_dict` caches the state directory under the fixed key `"search"`.
  - `get_site_instance` caches site records by site url.
  - `get_sites_for_state` caches site lists by state url, and builds each list through `get_site_instance`.
  - `get_nearby_places` caches places responses by zipcode.
- **Data shaping**:
  - pairing state names with hrefs by position;
  - composing a `NationalSite` record and its `info()` line;
  - formatting the line printed for each nearby place.
- **The interactive loop**, with a state prompt and a site prompt.

The model is functional:

- Each cache is an immutable `map` that is passed in and returned.
- The network is a `Web` value of fixed functions from url (or zipcode) to what the HTML extractor or JSON decoder would produce.
- Every operation returns the requests it issued, so "no network access on a cache hit" is stated as an empty request list.
- Python exceptions are `Err` values of a `Result`. In the session loop an exception becomes the terminal mode `Crashed`.
- Console input is a sequence of lines. Console output is a returned sequence of lines, with each prompt included.

Modules:

| file | module | models |
|---|---|---|
| common.dfy | `Common` | exceptions, `Result`, requests, the "cache only grew" relation |
| text.dfy | `Text` | `str.strip()`, `str.lower()`, `str.isdigit()`/`int()`, decimal rendering |
| sites.dfy | `Sites` | `NationalSite`, `info()`, `get_site_instance` |
| directory.dfy | `Directory` | `build_state_url_dict` |
| state_sites.dfy | `StateSites` | `get_sites_for_state` |
| nearby.dfy | `Nearby` | `get_nearby_places` and its printed lines |
| session.dfy | `Session` | the `__main__` loop |

The model follows the code as written, including behaviour a cleaner design would change:

- The listing header always names Michigan.
- State names and hrefs come from two separately selected lists and are paired by position.
- A malformed heading in a state page raises instead of being skipped.
- `get_nearby_places` prints while it fetches.

The one place the code is evidently wrong is the selection guard. It is recorded under "Findings" and modelled both as written and as intended. The session's `Step` and `Run` take the guard as a parameter, `Intended` or `AsWritten`.

## Model

| member | source | states |
|---|---|---|
| Text.Strip | proj2_nps.py:109-110 | `strip()` returns the infix of its argument that neither starts nor ends with whitespace; everything removed on either side is whitespace in Python's sense |
| Text.StripIdempotent | proj2_nps.py:109-110 | stripping an already stripped zipcode or phone changes nothing |
| Text.Lower | proj2_nps.py:77 | `lower()` keeps the length and maps each character to its lower-case form, so the result has no upper-case letter |
| Text.LowerIdempotent | proj2_nps.py:229-230 | lower-casing a lower-cased input changes nothing, which is why "Michigan" and "michigan" find the same key |
| Text.Decimal | proj2_nps.py:238-252 | the number `num` printed in front of a listed site (line 238) is a digit string without a leading zero that `isdigit()` accepts and `int()` reads back as the same number (lines 251-252) |
| Text.DigitsValue | proj2_nps.py:251-252 | `int()` of a digit string is zero exactly when every digit is '0', so "0" and "00" both fall below the guard's lower bound |
| Text.DecimalReadsBack | proj2_nps.py:251-252 | a digit string that `isdigit()` accepts and that has no leading zero is exactly the decimal text of its `int()` value, so the numbers the listing prints are the only inputs without leading zeros that select them |
| Sites.Info | proj2_nps.py:40-41 | `info()` is the name, " (", the category, "): ", the address, a space and the zipcode, each field at its own position, with nothing else in the line |
| Sites.MakeSite | proj2_nps.py:102-112 | a record exists exactly when all six page elements are found; otherwise `.text` on None raises AttributeError. The address is "locality, region". Name and category are stored unstripped; zipcode and phone are stripped |
| Sites.MadeSiteIsStripped | proj2_nps.py:109-110 | a stored zipcode and phone are fixed points of `strip()` |
| Sites.GetSiteInstance | proj2_nps.py:98-114 | on a hit, the cached record is returned with no request and an unchanged cache. On a miss, only the site url is fetched; on success exactly that key is added, and the result equals the cache entry. A failed extraction leaves the cache unchanged |
| Sites.GetSiteInstanceIdempotent | proj2_nps.py:98-100 | a second lookup of the same url returns the same record with no request |
| Directory.PairStates | proj2_nps.py:75-79 | the pairing loop completes exactly when every item has a string and a matching anchor with an href at the same position |
| Directory.PairStatesPaired | proj2_nps.py:75-79 | after the loop, the keys are exactly the lower-cased item strings. Each key maps to "https://www.nps.gov" + the href at the position of the last item with that key |
| Directory.PairStatesFailsAtFirstBadItem | proj2_nps.py:76-78 | a failed loop raises the exception of the first item it cannot pair: AttributeError for an item without a string, IndexError when hrefs run out, KeyError for an anchor without an href |
| Directory.BuildStateMap | proj2_nps.py:63-79 | without the state menu, `find` returns None and `.find_all` on it raises AttributeError; with the menu, the result is the pairing loop over all of its items |
| Directory.BuildStateMapKeys | proj2_nps.py:65-79 | the directory is built exactly when the menu exists, every item has a string, and there are at least as many anchors with an href as items; every item's lower-cased name is then a key |
| Directory.LaterDuplicateOverwrites | proj2_nps.py:76-78 | when two items have the same lower-cased name, the later item's href wins |
| Directory.StateUrlDict | proj2_nps.py:59-81 | on a hit under "search", the stored map is returned with no request and an unchanged cache. On a miss, the index page is fetched once, and a successful map is stored under "search" and returned. A failed build leaves the cache unchanged |
| Directory.StateUrlDictIdempotent | proj2_nps.py:59-61 | a second call returns the same map with no request and leaves the cache unchanged |
| Directory.StateUrlDictIgnoresPageOnHit | proj2_nps.py:59-61 | once "search" is cached, the result does not depend on the index page |
| StateSites.HrefOf | proj2_nps.py:140 | a heading without an anchor raises TypeError; an anchor without an href raises KeyError; otherwise the href is returned |
| StateSites.CollectSites | proj2_nps.py:138-144 | a successful loop yields one record per heading, in page order. Record i equals the site cache entry at "https://www.nps.gov" + href_i + "index.htm". The site cache only grows, every request fetches a url the cache lacked, no url is fetched twice, and every new cache key was fetched. The loop succeeds whenever every heading has an href and every site page is complete |
| StateSites.GetSitesForState | proj2_nps.py:132-147 | on a hit, the cached list is returned with no request and both caches unchanged. On a miss, the state page is fetched first and a successful list is stored under the state url. A missing park list raises AttributeError. With the park list, the miss succeeds exactly when every heading has an href and its site url is cached or its page is complete; otherwise it raises the exception of the first heading that fails. A failure leaves the state cache unchanged |
| StateSites.CollectSitesSucceeds | proj2_nps.py:138-144 | the loop over the headings succeeds exactly when every heading has an href and its site url is already cached or its page is complete |
| StateSites.CollectSitesFailsAtFirstUnloadable | proj2_nps.py:138-144 | a failed loop raises the exception of the first heading that fails: TypeError or KeyError from the href lookup, AttributeError from an incomplete page |
| StateSites.GetSitesForStateIdempotent | proj2_nps.py:132-147 | a second call for the same state returns the same list with no request and no cache change |
| StateSites.ListedSitesAreCached | proj2_nps.py:142-144 | the site cache is shared: each listed record is what `get_site_instance` then returns for its url, with no request |
| Nearby.PlacesRequest | proj2_nps.py:164-174 | the search goes to the MapQuest radius endpoint, keyed by the site's zipcode, with radius 10, at most 10 matches, ambiguities "ignore" and output format "json" |
| Nearby.FormatPlace | proj2_nps.py:177-190 | a line is produced exactly when `fields`, its three members and `name` are present; otherwise KeyError is raised |
| Nearby.FormatPlaces | proj2_nps.py:177-190 | the loop prints one line per result, in order, up to the first result that raises. It prints every line exactly when no result raises |
| Nearby.MissingMembersPrintDefaults | proj2_nps.py:178-190 | each line starts with "- " and ends with the address text, ", " and the city text. A falsy city prints "no city" and a truthy city its own text; a falsy address prints "no address" and a truthy address its own text |
| Nearby.CategoryFollowsName | proj2_nps.py:178-190 | the line is "- ", the rendered name, " (", the category text, "): ", the address text, ", " and the city text, with nothing else; a falsy category prints "no category" and a truthy one its own text |
| Nearby.Render | proj2_nps.py:177-198 | a response without `searchResults` raises KeyError at the subscript before any line is printed; otherwise the results are printed by the loop |
| Nearby.GetNearbyPlaces | proj2_nps.py:175-212 | on a hit, there is no request and the cache is unchanged. On a miss, one search is issued and its response is stored under the zipcode. Both paths print the lines rendered from the cache entry and return that entry, unless the printing raised |
| Nearby.GetNearbyPlacesIdempotent | proj2_nps.py:175-191 | a repeated lookup prints the same lines and returns the same response, with no request |
| Nearby.HitAndMissPrintAlike | proj2_nps.py:175-212 | for the same response, the hit path and the miss path print identical lines and return identical values |
| Session.Start | proj2_nps.py:220 | the session starts by fetching the index page once. It then waits at the state prompt with the built directory, or stops with the exception the build raised |
| Session.StateStep | proj2_nps.py:223-242 | at the state prompt, the exact input "exit" prints "Bye!" and stops. A lower-cased input that is a directory key lists that state's sites and moves to the site prompt. Any other input prints the state error and changes nothing |
| Session.SiteStep | proj2_nps.py:243-262 | with the intended guard: at the site prompt, "exit" prints "Bye !" and stops, and "back" returns to the state prompt. A number in [1, n] shows the places near site n. Any other input prints the input error and changes nothing |
| Session.ListingLoop | proj2_nps.py:237-239 | the listing loop prints one line per site in list order, site i behind the number `num` + i, and leaves `num` increased by the number of sites |
| Session.CounterAfterListing | proj2_nps.py:233-239 | the counter `num`, set to 1 before the loop, is one more than the number of listed sites once the listing loop ends |
| Session.SiteStepAsWritten | proj2_nps.py:251-262 | with the guard as written, input len(sites)+1 raises IndexError; on every other input the turn is the same as with the intended guard |
| Session.AsWrittenGuardAdmitsOnePastEnd | proj2_nps.py:253-256 | for every listing, the number one past its end ends the session with IndexError under the written guard, while the intended guard rejects it with an error message |
| Session.ShowPlaces | proj2_nps.py:256-260 | choosing a site prints the "Places near" banner followed by the lines of the nearby lookup. An exception in the lookup stops the session |
| Session.Listing | proj2_nps.py:237-239 | the listing has one line per site, numbered from 1 in list order |
| Session.ListingLineIsInfo | proj2_nps.py:238 | each listing line is the site's `info()` after its bracketed number |
| Session.Step | proj2_nps.py:222-262 | with either guard, a turn never changes the directory and only grows the caches. A stopped session prints nothing; a live one prints something, and its first line is the prompt of the mode it was in: the state prompt at the state prompt, the site prompt at the site prompt |
| Session.Run | proj2_nps.py:222-262 | over any sequence of input lines and with either guard, the directory stays fixed and all four caches only grow; a session still live at the end has printed at least one line per line read |
| Session.GuardsAgreeElsewhere | proj2_nps.py:251-256 | the written and the intended guard take the same turn on every input except the number one past the listing |
| Session.RunsAgreeUnlessOnePastEnd | proj2_nps.py:222-262 | a whole session of the script as written is the session with the intended guard, unless the written one ends with IndexError |
| Session.RunPromptsEveryTurn | proj2_nps.py:224-244 | a live session given input prints a prompt first |
| Session.ExitEndsSession | proj2_nps.py:225-247 | "exit" at either prompt ends the session. The rest of the input is not read, and nothing is printed beyond the farewell |
| Session.UpperCaseExitIsAStateName | proj2_nps.py:225-230 | the exit check comes before lower-casing, so "EXIT" is looked up as a state name and rejected |
| Session.StateNamesIgnoreCase | proj2_nps.py:229-230 | an input and its lower-case form take the same turn, unless the lower-case form is "exit" |
| Session.ChosenStateListsFromOne | proj2_nps.py:233-240 | choosing a known state prints the header and then the line "[i] " + info() for each site, numbered from 1, and moves to the site prompt |
| Session.UnknownStateChangesNothing | proj2_nps.py:241-242 | an unknown state prints the error and leaves the session as it was |
| Session.SiteSelectionBounds | proj2_nps.py:251-256 | with the intended guard and n sites listed, "1" and n select, while "0" and n+1 print the input error without a state change |
| Session.StepKeepsListCached | proj2_nps.py:231-240 | at the site prompt, the retained list is the cached list of some state url in the directory, and every turn keeps this true |

## Findings

| source | as written | input that shows it | evidently intended | confidence | as-written member | corrected member |
|---|---|---|---|---|---|---|
| proj2_nps.py:253 | `if number_int > num or number_int < 1` where `num` is len+1 after the listing loop | any listing of n sites and the input n+1: the guard passes and `site_list[n]` raises IndexError | reject numbers above the number of listed sites, i.e. accept exactly [1, n] | high, not executed | Session.SiteStepAsWritten (exhibited by Session.AsWrittenGuardAdmitsOnePastEnd) | Session.SiteStep (used by Session.Step with the Intended guard; range proved by Session.SiteSelectionBounds) |

## Left out

- HTTP transport is not modelled. This covers `requests.get`, network failures and their exceptions, `response.json()` decoding errors, and the API key from `secrets`. The web is a fixed function from url to page, so a page cannot change between fetches.
- BeautifulSoup selectors are not modelled. Their results are inputs: `SitePage`, `Menu`/`IndexPage`, `Anchor`/`StatePage` and `PlacesResponse`. A selector that finds nothing is `None`.
- The "Using cache" and "Fetching" diagnostics are not modelled; nothing in the model stands for them.
- Text.Lower: folds only ASCII letters. Python's `lower()` folds every Unicode letter, and the input at line 229 is arbitrary user text: U+212A KELVIN SIGN lower-cases to "k", so "\u212Aansas" finds "kansas" in the script but not here, and U+0130 lower-cases to two characters, which the length-preserving model cannot express.
- Text.IsDigits: treats only ASCII 0-9 as digits. Python's `isdigit()` also accepts other Unicode digits.
- Text.DigitsValue: reads digit strings of any length. On CPython 3.11 and later, `int()` at line 252 raises ValueError for a string of more than 4300 digits, so the script stops where the model prints "[Error] Invalid input".
- Nearby.GetNearbyPlaces: a JSON `null` for `searchResults`, for a result entry or for `fields` raises TypeError at lines 177-178 and 198-199. `Option` models only a missing member, so the promise that the lookup fails only with KeyError holds for the modelled response shapes only.
- JSON members are modelled as absent, null or a string. How an f-string renders numbers, booleans, lists or objects in `name`, `group_sic_code_name`, `address` or `city` is not modelled.
- Objects are plain values. The Python functions return the same list or record object on every hit; here they return an equal value.
- The rebinding of the module-level `url` at proj2_nps.py:231 is not modelled. It shadows the directory cache key, but `build_state_url_dict` is only called once, at line 220.
- End of input is not modelled as an exception: `Session.Run` stops when the input lines run out. Python's `input()` would raise EOFError.
- The commented-out block at proj2_nps.py:269-288 is not modelled.
