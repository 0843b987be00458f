/**
 * The search request: the items the search endpoint returns and the query
 * string fetchPRs sends to it.
 */
module Search {
  import opened GoStrings
  import opened Wrappers
  import opened QueryEscaping

  /** One element of the response's `items` array: title, html_url, number. */
  datatype Item = Item(title: GoString, url: GoString, number: int)

  /** Open pull requests authored by the current user. */
  const Prefix: GoString := "search/issues?q=is:pr+is:open+author:@me"

  const OrgQualifier: GoString := "+org:"

  /** The query fetchPRs sends for an organization filter (empty: unscoped). */
  function SearchQuery(org: GoString): (q: GoString)
    ensures |q| >= |Prefix| && q[..|Prefix|] == Prefix
    ensures q == Prefix <==> org == []
  {
    if org == [] then Prefix else Prefix + OrgQualifier + QueryEscape(org)
  }

  /** fetchPRs builds the query in a local string that it extends in place. */
  method BuildSearchQuery(org: GoString) returns (searchQuery: GoString)
    ensures searchQuery == SearchQuery(org)
  {
    searchQuery := Prefix;
    if org != [] {
      searchQuery := searchQuery + OrgQualifier + QueryEscape(org);
    }
  }

  /**
   * Reads the organization filter back out of a query: none for the bare
   * prefix, the unescaped remainder after "+org:" otherwise, and None for a
   * string that is neither.
   */
  function OrgOfQuery(q: GoString): (r: Option<GoString>)
  {
    var n := |Prefix| + |OrgQualifier|;
    if q == Prefix then Some([])
    else if |q| > n && q[..n] == Prefix + OrgQualifier then
      match QueryUnescape(q[n..])
      case Success(org) => Some(org)
      case Failure(_) => None
    else None
  }

  /** Parsing the query back yields the organization it was built from. */
  lemma SearchQueryRoundTrip(org: GoString)
    ensures OrgOfQuery(SearchQuery(org)) == Some(org)
  {
    if org != [] {
      var q := SearchQuery(org);
      var n := |Prefix| + |OrgQualifier|;
      assert q[..n] == Prefix + OrgQualifier;
      assert q[n..] == QueryEscape(org);
      UnescapeEscape(org);
    }
  }

  /**
   * A scoped query is the prefix, the qualifier "+org:", and then nothing but
   * the escaped form of the organization.
   */
  lemma ScopedQueryShape(org: GoString)
    requires org != []
    ensures var q, n := SearchQuery(org), |Prefix| + |OrgQualifier|;
      && |q| > n
      && q[|Prefix|..n] == OrgQualifier
      && q[n..] == QueryEscape(org)
      && IsEscapedForm(q[n..])
      && QueryUnescape(q[n..]) == Success(org)
  {
    var q, n := SearchQuery(org), |Prefix| + |OrgQualifier|;
    assert q[|Prefix|..n] == OrgQualifier;
    assert q[n..] == QueryEscape(org);
    EscapeIsEscapedForm(org);
    UnescapeEscape(org);
  }

  /** Different organizations give different queries. */
  lemma SearchQueryInjective(a: GoString, b: GoString)
    requires SearchQuery(a) == SearchQuery(b)
    ensures a == b
  {
    SearchQueryRoundTrip(a);
    SearchQueryRoundTrip(b);
  }
}
