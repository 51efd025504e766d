/** The filter rule both management views apply to each record: a
    case-insensitive search over a fixed list of text fields, AND an exact
    status match unless the status filter is the sentinel "all". */
module Search {
  import opened Text

  /** The status filter value that lets every status through. */
  const AllStatuses: string := "all"

  /** What the user has typed and picked: the search box and the status
      drop-down. */
  datatype Criteria = Criteria(searchTerm: string, statusFilter: string)

  /** The search rule over one record's searchable fields, in the order the
      source chains them with `||`: the lower-cased term is included in the
      lower-cased field. */
  predicate SearchMatches(fields: seq<string>, term: string) {
    |fields| > 0 && (Includes(Lower(fields[0]), Lower(term)) || SearchMatches(fields[1..], term))
  }

  /** The status rule: the sentinel, or exactly (case-sensitively) equal. */
  predicate StatusMatches(status: string, filter: string) {
    filter == AllStatuses || status == filter
  }

  /** The search rule holds exactly when some field contains the term as a
      substring, both lower-cased. */
  lemma {:induction false} SearchMatchesIff(fields: seq<string>, term: string)
    ensures SearchMatches(fields, term)
            <==> exists k :: 0 <= k < |fields| && Contains(Lower(fields[k]), Lower(term))
  {
    if fields != [] {
      SearchMatchesIff(fields[1..], term);
      IncludesIffContains(Lower(fields[0]), Lower(term));
      assert forall k :: 1 <= k < |fields| ==> fields[k] == fields[1..][k - 1];
      if exists k :: 0 <= k < |fields| && Contains(Lower(fields[k]), Lower(term)) {
        var k :| 0 <= k < |fields| && Contains(Lower(fields[k]), Lower(term));
        if k > 0 {
          assert Contains(Lower(fields[1..][k - 1]), Lower(term));
        }
      }
    }
  }

  /** An empty search term matches any record that has a field at all. */
  lemma {:induction false} EmptyTermMatches(fields: seq<string>)
    requires |fields| > 0
    ensures SearchMatches(fields, "")
  {
    assert Lower("") == "";
  }

  /** Lower-casing the term first does not change the search rule. */
  lemma {:induction false} SearchCaseInsensitive(fields: seq<string>, term: string)
    ensures SearchMatches(fields, Lower(term)) == SearchMatches(fields, term)
  {
    LowerIdempotent(term);
    if fields != [] {
      SearchCaseInsensitive(fields[1..], term);
    }
  }

  /** "all" lets every status through; any other filter is an exact,
      case-sensitive comparison. */
  lemma StatusRule(status: string, filter: string)
    ensures StatusMatches(status, AllStatuses)
    ensures filter != AllStatuses ==> (StatusMatches(status, filter) <==> status == filter)
  {
  }
}
