/** Shared vocabulary of the scraper model: the exceptions the program can
    raise, a result type carrying them, the network requests it issues, and
    the relation between a cache before and after an operation. */
module Common {

  /** An optional value, as returned by a selector that may find nothing. */
  datatype Option<+T> = None | Some(value: T)

  /** The Python exceptions the core can raise on malformed input. */
  datatype Error =
    | AttributeError  // an attribute read on None: a selector found no element, or an element had no single string
    | IndexError      // a list indexed past its end
    | KeyError        // a missing HTML attribute or JSON member
    | TypeError       // None subscripted with a key

  /** The outcome of an operation that may raise one of the exceptions above. */
  datatype Result<+T> = Ok(value: T) | Err(error: Error)

  /** One network request. `Page` is an HTTP GET of an nps.gov page; `Radius`
      is a query to the places search endpoint (the API key is not modelled). */
  datatype Request =
    | Page(url: string)
    | Radius(endpoint: string, origin: string, radius: nat, maxMatches: nat, ambiguities: string, outFormat: string)

  /** A value computed against a cache: the result, the cache afterwards, and
      the requests issued, in order. */
  datatype Fetched<+T, +C> = Fetched(value: Result<T>, cache: C, requests: seq<Request>)

  /** `newer` keeps every entry of `older` unchanged: the cache only grew. */
  ghost predicate Extends<K, V>(older: map<K, V>, newer: map<K, V>) {
    forall k :: k in older ==> k in newer && newer[k] == older[k]
  }

  /** No request occurs twice. */
  ghost predicate NoDuplicates<T>(s: seq<T>) {
    forall i, j :: 0 <= i < j < |s| ==> s[i] != s[j]
  }

  lemma ExtendsTransitive<K, V>(a: map<K, V>, b: map<K, V>, c: map<K, V>)
    requires Extends(a, b) && Extends(b, c)
    ensures Extends(a, c)
  {
  }
}
