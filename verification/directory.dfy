/** `build_state_url_dict`: the map from lower-cased state name to the
    state's page url, built from the state menu of the nps.gov index page
    and memoized in the url cache under the fixed key "search". */
module Directory {
  import opened Common
  import opened Text

  const NpsRoot := "https://www.nps.gov"
  const IndexUrl := "https://www.nps.gov/index.htm"
  /** The one key of the url cache. */
  const SearchKey := "search"

  /** The state menu as the HTML extractor sees it: the single string of
      each list item (`None` when an item has no single string) and the
      href of each anchor (`None` when an anchor has no href). The two lists
      are selected separately and paired by position. */
  datatype Menu = Menu(items: seq<Option<string>>, anchors: seq<Option<string>>)

  /** The index page; `None` when no element has the menu's class and role. */
  datatype IndexPage = IndexPage(menu: Option<Menu>)

  /** Item `i` can be paired: it has a string and anchor `i` exists with an href. */
  predicate ItemOk(m: Menu, i: int)
    requires 0 <= i < |m.items|
  {
    m.items[i].Some? && i < |m.anchors| && m.anchors[i].Some?
  }

  /** The exception the loop raises at a bad item, in the order the loop
      body evaluates: `.lower()` on None, then the list index, then the
      `href` attribute. */
  function ItemError(m: Menu, i: int): Error
    requires 0 <= i < |m.items| && !ItemOk(m, i)
  {
    if m.items[i].None? then AttributeError
    else if i >= |m.anchors| then IndexError
    else KeyError
  }

  function StateKey(m: Menu, i: int): string
    requires 0 <= i < |m.items| && m.items[i].Some?
  {
    Lower(m.items[i].value)
  }

  /** No item after `i` (and before `n`) has the same key, so `i` is the
      pairing that survives in the map. */
  ghost predicate LastWithKey(m: Menu, i: int, n: int)
    requires 0 <= i < n <= |m.items| && m.items[i].Some?
  {
    forall j :: i < j < n && m.items[j].Some? ==> StateKey(m, j) != StateKey(m, i)
  }

  /** `states` is what pairing the first `n` items yields: its keys are the
      items' lower-cased strings, and each key maps to the root url followed
      by the href of the anchor at the position of the key's last item. */
  ghost predicate PairedUpTo(m: Menu, n: int, states: map<string, string>)
    requires 0 <= n <= |m.items|
  {
    && states.Keys == (set i | 0 <= i < n && ItemOk(m, i) :: StateKey(m, i))
    && forall i :: 0 <= i < n && ItemOk(m, i) && LastWithKey(m, i, n) ==>
         states[StateKey(m, i)] == NpsRoot + m.anchors[i].value
  }

  /** One iteration of the pairing loop keeps the key set. */
  lemma PairOneMoreKeys(m: Menu, n: int, prefix: map<string, string>, r: map<string, string>)
    requires 0 < n <= |m.items|
    requires forall i :: 0 <= i < n ==> ItemOk(m, i)
    requires ItemOk(m, n - 1)
    requires prefix.Keys == (set i | 0 <= i < n - 1 && ItemOk(m, i) :: StateKey(m, i))
    requires r.Keys == prefix.Keys + {StateKey(m, n - 1)}
    ensures r.Keys == (set i | 0 <= i < n && ItemOk(m, i) :: StateKey(m, i))
  {
  }

  /** One iteration of the pairing loop keeps `PairedUpTo`. */
  lemma PairOneMore(m: Menu, n: int, prefix: map<string, string>)
    requires 0 < n <= |m.items|
    requires forall i :: 0 <= i < n ==> ItemOk(m, i)
    requires ItemOk(m, n - 1)
    requires PairedUpTo(m, n - 1, prefix)
    ensures PairedUpTo(m, n, prefix[StateKey(m, n - 1) := NpsRoot + m.anchors[n - 1].value])
  {
    var r := prefix[StateKey(m, n - 1) := NpsRoot + m.anchors[n - 1].value];
    PairOneMoreKeys(m, n, prefix, r);
    forall i | 0 <= i < n && ItemOk(m, i) && LastWithKey(m, i, n)
      ensures r[StateKey(m, i)] == NpsRoot + m.anchors[i].value
    {
      if i < n - 1 {
        assert LastWithKey(m, i, n - 1);
        assert StateKey(m, n - 1) != StateKey(m, i);
      }
    }
  }

  /** The map built by the first `n` iterations of the pairing loop, or the
      exception of the first item the loop cannot pair. */
  function PairStates(m: Menu, n: nat): (r: Result<map<string, string>>)
    requires n <= |m.items|
    ensures r.Ok? <==> forall i :: 0 <= i < n ==> ItemOk(m, i)
  {
    if n == 0 then Ok(map[])
    else
      match PairStates(m, n - 1)
      case Err(e) => Err(e)
      case Ok(prefix) =>
        if ItemOk(m, n - 1) then Ok(prefix[StateKey(m, n - 1) := NpsRoot + m.anchors[n - 1].value])
        else Err(ItemError(m, n - 1))
  }

  /** A successful pairing maps each item's lower-cased string to the root
      url followed by the href of the anchor at the same position, a later
      duplicate overwriting an earlier one. */
  lemma {:induction false} PairStatesPaired(m: Menu, n: nat)
    requires n <= |m.items|
    requires PairStates(m, n).Ok?
    ensures PairedUpTo(m, n, PairStates(m, n).value)
  {
    if n > 0 {
      PairStatesPaired(m, n - 1);
      PairOneMore(m, n, PairStates(m, n - 1).value);
    }
  }

  /** Item `i` is the first item the pairing loop cannot pair. */
  ghost predicate FirstBadItem(m: Menu, i: int) {
    && 0 <= i < |m.items|
    && !ItemOk(m, i)
    && forall j :: 0 <= j < i ==> ItemOk(m, j)
  }

  /** A failed pairing raises the exception of the first bad item. */
  lemma {:induction false} PairStatesFailsAtFirstBadItem(m: Menu, n: nat)
    requires n <= |m.items|
    requires PairStates(m, n).Err?
    ensures exists i :: 0 <= i < n && FirstBadItem(m, i) && PairStates(m, n).error == ItemError(m, i)
  {
    var prefix := PairStates(m, n - 1);
    if prefix.Err? {
      PairStatesFailsAtFirstBadItem(m, n - 1);
      var i :| 0 <= i < n - 1 && FirstBadItem(m, i) && prefix.error == ItemError(m, i);
      assert PairStates(m, n).error == prefix.error;
    } else {
      assert !ItemOk(m, n - 1);
      assert FirstBadItem(m, n - 1);
      assert PairStates(m, n).error == ItemError(m, n - 1);
    }
  }

  /** The map the loop builds from the whole index page. */
  function BuildStateMap(page: IndexPage): (r: Result<map<string, string>>)
    ensures page.menu.None? ==> r == Err(AttributeError)
    ensures page.menu.Some? ==> r == PairStates(page.menu.value, |page.menu.value.items|)
  {
    match page.menu
    case None => Err(AttributeError)
    case Some(m) => PairStates(m, |m.items|)
  }

  /** The state map is complete exactly when the index page has its menu,
      every item has a string, and there are at least as many anchors with
      an href as items; every such item's lower-cased name is a key. */
  lemma BuildStateMapKeys(page: IndexPage)
    ensures BuildStateMap(page).Ok? <==>
              && page.menu.Some?
              && |page.menu.value.items| <= |page.menu.value.anchors|
              && (forall i :: 0 <= i < |page.menu.value.items| ==>
                    page.menu.value.items[i].Some? && page.menu.value.anchors[i].Some?)
    ensures BuildStateMap(page).Ok? ==>
              forall i :: 0 <= i < |page.menu.value.items| ==>
                page.menu.value.items[i].Some? && Lower(page.menu.value.items[i].value) in BuildStateMap(page).value
  {
    if page.menu.Some? {
      var m := page.menu.value;
      var r := PairStates(m, |m.items|);
      if r.Ok? && |m.items| > 0 {
        assert ItemOk(m, |m.items| - 1);
      }
      if r.Ok? {
        forall i | 0 <= i < |m.items|
          ensures m.items[i].Some? && m.anchors[i].Some? && Lower(m.items[i].value) in r.value
        {
          assert ItemOk(m, i);
          PairStatesPaired(m, |m.items|);
          assert StateKey(m, i) in r.value.Keys;
        }
      }
      if !r.Ok? {
        var i :| 0 <= i < |m.items| && !ItemOk(m, i);
        if m.items[i].Some? && i < |m.anchors| {
          assert m.anchors[i].None?;
        }
      }
    }
  }

  /** A later item with the same lower-cased name wins. */
  lemma LaterDuplicateOverwrites(m: Menu, i: nat, j: nat)
    requires i < j < |m.items|
    requires forall k :: 0 <= k < |m.items| ==> ItemOk(m, k)
    requires ItemOk(m, i) && ItemOk(m, j) && StateKey(m, i) == StateKey(m, j)
    requires LastWithKey(m, j, |m.items|)
    ensures var states := PairStates(m, |m.items|).value;
            StateKey(m, i) in states && states[StateKey(m, i)] == NpsRoot + m.anchors[j].value
  {
    PairStatesPaired(m, |m.items|);
    assert StateKey(m, j) in PairStates(m, |m.items|).value.Keys;
  }

  /** `build_state_url_dict`: the cached map when "search" is a key of the
      url cache, otherwise the map built from the index page, stored under
      "search" when the build succeeds. */
  function StateUrlDict(cache: map<string, map<string, string>>, index: IndexPage)
    : (r: Fetched<map<string, string>, map<string, map<string, string>>>)
    ensures SearchKey in cache ==> r.value == Ok(cache[SearchKey]) && r.cache == cache && r.requests == []
    ensures SearchKey !in cache ==> r.requests == [Page(IndexUrl)] && r.value == BuildStateMap(index)
    ensures SearchKey !in cache && r.value.Ok? ==> r.cache == cache[SearchKey := r.value.value]
    ensures r.value.Err? ==> r.cache == cache
    ensures r.value.Ok? ==> SearchKey in r.cache && r.cache[SearchKey] == r.value.value
    ensures Extends(cache, r.cache)
  {
    if SearchKey in cache then Fetched(Ok(cache[SearchKey]), cache, [])
    else
      match BuildStateMap(index)
      case Err(e) => Fetched(Err(e), cache, [Page(IndexUrl)])
      case Ok(states) => Fetched(Ok(states), cache[SearchKey := states], [Page(IndexUrl)])
  }

  /** A second call returns the same map without a request and leaves the
      cache as the first call left it. */
  lemma StateUrlDictIdempotent(cache: map<string, map<string, string>>, index: IndexPage)
    requires StateUrlDict(cache, index).value.Ok?
    ensures var first := StateUrlDict(cache, index);
            var second := StateUrlDict(first.cache, index);
            second.value == first.value && second.cache == first.cache && second.requests == []
  {
  }

  /** Once filled, the cache answers regardless of what the index page
      would now say: the page is not consulted. */
  lemma StateUrlDictIgnoresPageOnHit(cache: map<string, map<string, string>>, a: IndexPage, b: IndexPage)
    requires SearchKey in cache
    ensures StateUrlDict(cache, a) == StateUrlDict(cache, b)
  {
  }
}
