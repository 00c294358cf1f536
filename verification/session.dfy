/** The interactive loop of the script's main block: a state prompt and a
    site prompt, driven by input lines, printing to an output trace and
    sharing the four caches across turns. */
module Session {
  import opened Common
  import opened Text
  import opened Sites
  import opened Directory
  import opened StateSites
  import opened Nearby

  /** Everything the network would answer, as fixed functions of the request. */
  datatype Web = Web(
    index: IndexPage,
    statePages: string -> StatePage,
    sitePages: string -> SitePage,
    search: string -> PlacesResponse)

  /** The four process-lifetime caches: directory (by the key "search"),
      site records (by site url), state lists (by state url) and places
      responses (by zipcode). */
  datatype Caches = Caches(
    urls: map<string, map<string, string>>,
    sites: map<string, NationalSite>,
    states: map<string, seq<NationalSite>>,
    zips: map<string, PlacesResponse>)

  const NoCaches := Caches(map[], map[], map[], map[])

  /** Where the loop is: asking for a state, asking for a site of the listed
      `sites`, stopped by "exit", or stopped by an uncaught exception. */
  datatype Mode = ChoosingState | ChoosingSite(sites: seq<NationalSite>) | Exited | Crashed(error: Error)

  datatype Session = Session(mode: Mode, directory: map<string, string>, caches: Caches)

  /** One turn: the session afterwards, the lines printed (prompt first),
      and the requests issued. */
  datatype Turn = Turn(next: Session, output: seq<string>, requests: seq<Request>)

  const StatePrompt := "Enter a state name (e.g. Michigan, michigan) or \"exit\": "
  const SitePrompt := "Choose the number for detail search or \"exit\" or \"back\": "
  const StateError := "[Error] Enter proper state name"
  const InputError := "[Error] Invalid input"
  const ListRule := "-------------------------"
  const PlacesRule := "---------------------------------"
  /** The listing header names Michigan whatever state was chosen. */
  const ListHeader := [ListRule, "List of national sites in Michigan", ListRule]

  predicate Terminal(m: Mode) {
    m.Exited? || m.Crashed?
  }

  ghost predicate CachesExtend(a: Caches, b: Caches) {
    && Extends(a.urls, b.urls)
    && Extends(a.sites, b.sites)
    && Extends(a.states, b.states)
    && Extends(a.zips, b.zips)
  }

  /** The line printed for the `index`-th listed site. */
  function ListingLine(index: nat, site: NationalSite): string {
    "[" + Decimal(index) + "] " + site.name + " (" + site.category + "): " + site.address + " " + site.zipcode
  }

  /** What the listing loop leaves behind: the lines it printed and the
      final value of its counter `num`. */
  datatype Numbered = Numbered(lines: seq<string>, num: nat)

  /** The listing loop: each site is printed behind the current value of
      `num`, which then goes up by one. */
  function ListingLoop(sites: seq<NationalSite>, num: nat): (r: Numbered)
    ensures |r.lines| == |sites|
    ensures forall i :: 0 <= i < |sites| ==> r.lines[i] == ListingLine(num + i, sites[i])
    ensures r.num == num + |sites|
  {
    if sites == [] then Numbered([], num)
    else
      var rest := ListingLoop(sites[1..], num + 1);
      Numbered([ListingLine(num, sites[0])] + rest.lines, rest.num)
  }

  /** The listing printed after a state is chosen: the loop started at 1
      numbers the sites from 1 in list order. */
  function Listing(sites: seq<NationalSite>): (r: seq<string>)
    ensures |r| == |sites|
    ensures forall i :: 0 <= i < |sites| ==> r[i] == ListingLine(i + 1, sites[i])
  {
    ListingLoop(sites, 1).lines
  }

  /** Each listing line is the site's `info()` behind its bracketed number. */
  lemma ListingLineIsInfo(index: nat, site: NationalSite)
    ensures ListingLine(index, site) == "[" + Decimal(index) + "] " + Info(site)
  {
  }

  /** Start of the main block: the directory is built once, from empty caches. */
  function Start(web: Web): (t: Turn)
    ensures t.requests == [Page(IndexUrl)] && t.output == []
    ensures t.next.caches.sites == map[] && t.next.caches.states == map[] && t.next.caches.zips == map[]
    ensures BuildStateMap(web.index).Ok? ==>
              && t.next.mode == ChoosingState
              && t.next.directory == BuildStateMap(web.index).value
              && t.next.caches.urls == map[SearchKey := t.next.directory]
    ensures BuildStateMap(web.index).Err? ==> t.next.mode == Crashed(BuildStateMap(web.index).error)
  {
    var d := StateUrlDict(map[], web.index);
    var caches := NoCaches.(urls := d.cache);
    match d.value
    case Ok(directory) => Turn(Session(ChoosingState, directory, caches), [], d.requests)
    case Err(e) => Turn(Session(Crashed(e), map[], caches), [], d.requests)
  }

  /** A turn at the state prompt. "exit" (exactly, before lower-casing)
      stops; a lower-cased name in the directory lists that state's sites
      and moves to the site prompt; anything else prints an error. */
  function StateStep(s: Session, line: string, web: Web): (t: Turn)
    requires s.mode.ChoosingState?
    ensures |t.output| > 0 && t.output[0] == StatePrompt
    ensures t.next.directory == s.directory
    ensures CachesExtend(s.caches, t.next.caches)
    ensures line == "exit" ==> t == Turn(s.(mode := Exited), [StatePrompt, "Bye!"], [])
    ensures line != "exit" && Lower(line) !in s.directory ==> t == Turn(s, [StatePrompt, StateError], [])
    ensures line != "exit" && Lower(line) in s.directory ==>
              var listed := GetSitesForState(s.directory[Lower(line)], s.caches.states, s.caches.sites,
                                             web.statePages, web.sitePages);
              && t.requests == listed.requests
              && t.next.caches == s.caches.(states := listed.states, sites := listed.sites)
              && (listed.value.Ok? ==>
                    && t.next.mode == ChoosingSite(listed.value.value)
                    && t.output == [StatePrompt] + ListHeader + Listing(listed.value.value))
              && (listed.value.Err? ==> t.next.mode == Crashed(listed.value.error) && t.output == [StatePrompt])
  {
    if line == "exit" then Turn(s.(mode := Exited), [StatePrompt, "Bye!"], [])
    else
      var key := Lower(line);
      if key !in s.directory then Turn(s, [StatePrompt, StateError], [])
      else
        var listed := GetSitesForState(s.directory[key], s.caches.states, s.caches.sites,
                                       web.statePages, web.sitePages);
        var caches := s.caches.(states := listed.states, sites := listed.sites);
        match listed.value
        case Ok(sites) =>
          Turn(Session(ChoosingSite(sites), s.directory, caches), [StatePrompt] + ListHeader + Listing(sites), listed.requests)
        case Err(e) =>
          Turn(Session(Crashed(e), s.directory, caches), [StatePrompt], listed.requests)
  }

  /** The selection guard as intended: a number within [1, |sites|]. */
  predicate InRange(n: nat, count: nat) {
    1 <= n <= count
  }

  /** Showing the places near the chosen site; an exception in the lookup
      ends the session. */
  function ShowPlaces(s: Session, site: NationalSite, web: Web): (t: Turn)
    requires s.mode.ChoosingSite?
    ensures var nearby := GetNearbyPlaces(site, s.caches.zips, web.search);
            && t.output == [SitePrompt, PlacesRule, "Places near " + site.name, PlacesRule] + nearby.lines
            && t.requests == nearby.requests
            && t.next.caches == s.caches.(zips := nearby.cache)
            && t.next.mode == (if nearby.value.Ok? then s.mode else Crashed(nearby.value.error))
  {
    var nearby := GetNearbyPlaces(site, s.caches.zips, web.search);
    var caches := s.caches.(zips := nearby.cache);
    var mode := if nearby.value.Ok? then s.mode else Crashed(nearby.value.error);
    Turn(Session(mode, s.directory, caches),
         [SitePrompt, PlacesRule, "Places near " + site.name, PlacesRule] + nearby.lines, nearby.requests)
  }

  /** A turn at the site prompt with the intended guard: "exit" stops,
      "back" returns to the state prompt, a number in [1, |sites|] shows the
      places near that site, anything else prints an error. */
  function SiteStep(s: Session, line: string, web: Web): (t: Turn)
    requires s.mode.ChoosingSite?
    ensures |t.output| > 0 && t.output[0] == SitePrompt
    ensures t.next.directory == s.directory
    ensures CachesExtend(s.caches, t.next.caches)
    ensures line == "exit" ==> t == Turn(s.(mode := Exited), [SitePrompt, "Bye !"], [])
    ensures line == "back" ==> t == Turn(s.(mode := ChoosingState), [SitePrompt], [])
    ensures line != "exit" && line != "back" && !(IsDigits(line) && InRange(DigitsValue(line), |s.mode.sites|))
            ==> t == Turn(s, [SitePrompt, InputError], [])
    ensures IsDigits(line) && InRange(DigitsValue(line), |s.mode.sites|)
            ==> t == ShowPlaces(s, s.mode.sites[DigitsValue(line) - 1], web)
  {
    if line == "exit" then Turn(s.(mode := Exited), [SitePrompt, "Bye !"], [])
    else if line == "back" then Turn(s.(mode := ChoosingState), [SitePrompt], [])
    else if IsDigits(line) && InRange(DigitsValue(line), |s.mode.sites|) then
      ShowPlaces(s, s.mode.sites[DigitsValue(line) - 1], web)
    else Turn(s, [SitePrompt, InputError], [])
  }

  /** The value of `num` when the guard reads it: what the listing loop
      started at 1 leaves behind, one past the last listed number. */
  function CounterAfterListing(sites: seq<NationalSite>): (num: nat)
    ensures num == |sites| + 1
  {
    ListingLoop(sites, 1).num
  }

  /** A turn at the site prompt exactly as the script guards it: a number is
      rejected only when above `num` or below 1, so the number |sites| + 1
      reaches the list index and raises IndexError. */
  function SiteStepAsWritten(s: Session, line: string, web: Web): (t: Turn)
    requires s.mode.ChoosingSite?
    ensures IsDigits(line) && DigitsValue(line) == |s.mode.sites| + 1 ==>
              t == Turn(s.(mode := Crashed(IndexError)), [SitePrompt], [])
    ensures !(IsDigits(line) && DigitsValue(line) == |s.mode.sites| + 1) ==> t == SiteStep(s, line, web)
  {
    var sites := s.mode.sites;
    var num := CounterAfterListing(sites);
    if line == "exit" then Turn(s.(mode := Exited), [SitePrompt, "Bye !"], [])
    else if line == "back" then Turn(s.(mode := ChoosingState), [SitePrompt], [])
    else if IsDigits(line) then
      var n := DigitsValue(line);
      if n > num || n < 1 then Turn(s, [SitePrompt, InputError], [])
      else if n - 1 < |sites| then ShowPlaces(s, sites[n - 1], web)
      else Turn(s.(mode := Crashed(IndexError)), [SitePrompt], [])
    else Turn(s, [SitePrompt, InputError], [])
  }

  /** Which selection guard the site prompt uses: the one the script
      intends, [1, |sites|], or the one it has, [1, num]. */
  datatype Guard = Intended | AsWritten

  /** One turn of the loop; a stopped session reads nothing and prints nothing. */
  function Step(g: Guard, s: Session, line: string, web: Web): (t: Turn)
    ensures t.next.directory == s.directory
    ensures CachesExtend(s.caches, t.next.caches)
    ensures Terminal(s.mode) ==> t == Turn(s, [], [])
    ensures !Terminal(s.mode) ==> |t.output| > 0
    ensures s.mode.ChoosingState? ==> t.output[0] == StatePrompt
    ensures s.mode.ChoosingSite? ==> t.output[0] == SitePrompt
  {
    match s.mode
    case ChoosingState => StateStep(s, line, web)
    case ChoosingSite(_) => if g == AsWritten then SiteStepAsWritten(s, line, web) else SiteStep(s, line, web)
    case Exited => Turn(s, [], [])
    case Crashed(_) => Turn(s, [], [])
  }

  /** The guard as written lets through a number one past the listing: for
      every list, the input |sites| + 1 ends the session with IndexError,
      where the intended guard prints an error and keeps the list. */
  lemma AsWrittenGuardAdmitsOnePastEnd(s: Session, web: Web)
    requires s.mode.ChoosingSite?
    ensures var line := Decimal(|s.mode.sites| + 1);
            && Step(AsWritten, s, line, web).next.mode == Crashed(IndexError)
            && Step(Intended, s, line, web) == Turn(s, [SitePrompt, InputError], [])
  {
  }

  /** On every other input the two guards take the same turn. */
  lemma GuardsAgreeElsewhere(s: Session, line: string, web: Web)
    requires !(s.mode.ChoosingSite? && IsDigits(line) && DigitsValue(line) == |s.mode.sites| + 1)
    ensures Step(AsWritten, s, line, web) == Step(Intended, s, line, web)
  {
  }

  /** The `while` loop: turns are taken until the session stops or the
      input runs out. The directory stays fixed and every cache only grows;
      a session still live at the end has read every line and printed at
      least one line (its prompt) for each. */
  function Run(g: Guard, s: Session, lines: seq<string>, web: Web): (t: Turn)
    ensures t.next.directory == s.directory
    ensures CachesExtend(s.caches, t.next.caches)
    ensures Terminal(s.mode) ==> t == Turn(s, [], [])
    ensures !Terminal(t.next.mode) ==> |t.output| >= |lines|
    decreases |lines|
  {
    if lines == [] || Terminal(s.mode) then Turn(s, [], [])
    else
      var first := Step(g, s, lines[0], web);
      var rest := Run(g, first.next, lines[1..], web);
      Turn(rest.next, first.output + rest.output, first.requests + rest.requests)
  }

  /** The script as written and as intended behave alike on the same input
      unless the written one ends with IndexError, which only a number one
      past the listing can cause. */
  lemma {:induction false} RunsAgreeUnlessOnePastEnd(s: Session, lines: seq<string>, web: Web)
    requires Run(AsWritten, s, lines, web).next.mode != Crashed(IndexError)
    ensures Run(AsWritten, s, lines, web) == Run(Intended, s, lines, web)
    decreases |lines|
  {
    if lines != [] && !Terminal(s.mode) {
      var line := lines[0];
      var first := Step(AsWritten, s, line, web);
      if s.mode.ChoosingSite? && IsDigits(line) && DigitsValue(line) == |s.mode.sites| + 1 {
        assert false;
      } else {
        GuardsAgreeElsewhere(s, line, web);
        RunsAgreeUnlessOnePastEnd(first.next, lines[1..], web);
      }
    }
  }

  /** Each turn of a live session prints its prompt first, so a run on
      some input begins with a prompt. */
  lemma {:induction false} RunPromptsEveryTurn(g: Guard, s: Session, lines: seq<string>, web: Web)
    requires !Terminal(s.mode) && lines != []
    ensures |Run(g, s, lines, web).output| > 0
    ensures Run(g, s, lines, web).output[0] in {StatePrompt, SitePrompt}
  {
    var first := Step(g, s, lines[0], web);
    assert first.output[0] in {StatePrompt, SitePrompt};
  }

  /** "exit" at either prompt ends the session: nothing after it is read,
      prompted or printed beyond the farewell. */
  lemma ExitEndsSession(g: Guard, s: Session, more: seq<string>, web: Web)
    requires s.mode.ChoosingState? || s.mode.ChoosingSite?
    ensures var t := Run(g, s, ["exit"] + more, web);
            && t.next.mode == Exited
            && t.output == [if s.mode.ChoosingState? then StatePrompt else SitePrompt,
                            if s.mode.ChoosingState? then "Bye!" else "Bye !"]
            && t.requests == []
  {
    var first := Step(g, s, "exit", web);
    assert (["exit"] + more)[1..] == more;
    assert Run(g, first.next, more, web) == Turn(first.next, [], []);
  }

  /** The exit check precedes lower-casing: "EXIT" at the state prompt is
      looked up as a state name. */
  lemma UpperCaseExitIsAStateName(g: Guard, s: Session, web: Web)
    requires s.mode.ChoosingState? && "exit" !in s.directory
    ensures Step(g, s, "EXIT", web) == Turn(s, [StatePrompt, StateError], [])
  {
    assert Lower("EXIT") == "exit";
  }

  /** State names are matched case-insensitively: a line and its lower-case
      form take the same turn, as long as the lower-case form is not "exit". */
  lemma StateNamesIgnoreCase(g: Guard, s: Session, line: string, web: Web)
    requires s.mode.ChoosingState? && Lower(line) != "exit"
    ensures Step(g, s, line, web) == Step(g, s, Lower(line), web)
  {
    LowerIdempotent(line);
  }

  /** A chosen state lists its sites numbered from 1, each line being the
      site's `info()`, and moves to the site prompt with that list. */
  lemma ChosenStateListsFromOne(g: Guard, s: Session, line: string, web: Web)
    requires s.mode.ChoosingState? && line != "exit" && Lower(line) in s.directory
    requires GetSitesForState(s.directory[Lower(line)], s.caches.states, s.caches.sites,
                              web.statePages, web.sitePages).value.Ok?
    ensures var t := Step(g, s, line, web);
            && t.next.mode.ChoosingSite?
            && var sites := t.next.mode.sites;
               && |t.output| == 4 + |sites|
               && t.output[1..4] == ListHeader
               && forall i :: 0 <= i < |sites| ==> t.output[4 + i] == "[" + Decimal(i + 1) + "] " + Info(sites[i])
  {
    var t := Step(g, s, line, web);
    var sites := t.next.mode.sites;
    forall i | 0 <= i < |sites|
      ensures t.output[4 + i] == "[" + Decimal(i + 1) + "] " + Info(sites[i])
    {
      ListingLineIsInfo(i + 1, sites[i]);
    }
  }

  /** An unknown state name prints an error and changes nothing. */
  lemma UnknownStateChangesNothing(g: Guard, s: Session, line: string, web: Web)
    requires s.mode.ChoosingState? && line != "exit" && Lower(line) !in s.directory
    ensures Step(g, s, line, web) == Turn(s, [StatePrompt, StateError], [])
  {
  }

  /** With the intended guard and n listed sites, the numbers 1..n select and
      0 and n + 1 are rejected without a state change. */
  lemma SiteSelectionBounds(s: Session, web: Web)
    requires s.mode.ChoosingSite? && |s.mode.sites| > 0
    ensures var n := |s.mode.sites|;
            && Step(Intended, s, Decimal(n), web) == ShowPlaces(s, s.mode.sites[n - 1], web)
            && Step(Intended, s, "1", web) == ShowPlaces(s, s.mode.sites[0], web)
            && Step(Intended, s, "0", web) == Turn(s, [SitePrompt, InputError], [])
            && Step(Intended, s, Decimal(n + 1), web) == Turn(s, [SitePrompt, InputError], [])
  {
    assert DigitsValue("1") == 1 by { assert "1"[..0] == []; }
    assert DigitsValue("0") == 0 by { assert "0"[..0] == []; }
  }

  /** At the site prompt the retained list is the cached list of some state
      of the directory. */
  ghost predicate ListIsCached(s: Session) {
    s.mode.ChoosingSite? ==>
      exists url :: url in s.caches.states && url in s.directory.Values && s.caches.states[url] == s.mode.sites
  }

  /** Every turn keeps the retained list tied to the state-list cache. */
  lemma StepKeepsListCached(g: Guard, s: Session, line: string, web: Web)
    requires ListIsCached(s)
    ensures ListIsCached(Step(g, s, line, web).next)
  {
    var t := Step(g, s, line, web);
    if t.next.mode.ChoosingSite? {
      if s.mode.ChoosingState? {
        var url := s.directory[Lower(line)];
        assert url in s.directory.Values;
        assert t.next.caches.states[url] == t.next.mode.sites;
      } else {
        var url :| url in s.caches.states && url in s.directory.Values && s.caches.states[url] == s.mode.sites;
        assert t.next.caches.states[url] == t.next.mode.sites;
      }
    }
  }
}
