/** The customer management view: the customer records, the visible
    (filtered) table, the status badge colour, the statistics cards and the
    avatar initials. */
module CustomerManagement {
  import opened Text
  import opened Sequences
  import opened Search
  import opened Badges

  /** One customer account. Amounts and counts are whole numbers. */
  datatype Customer = Customer(
    id: string,
    name: string,
    contactPerson: string,
    email: string,
    phone: string,
    status: string,
    vehiclesAssigned: int,
    joinDate: string,
    lastActivity: string,
    totalRevenue: int,
    address: string)

  /** The fields the search box looks at, in the order they are tried. */
  function SearchFields(c: Customer): seq<string> {
    [c.name, c.contactPerson, c.email, c.id]
  }

  /** The predicate passed to `customers.filter`. */
  predicate Admits(crit: Criteria, c: Customer) {
    SearchMatches(SearchFields(c), crit.searchTerm) && StatusMatches(c.status, crit.statusFilter)
  }

  function Admitted(crit: Criteria): Customer -> bool {
    c => Admits(crit, c)
  }

  function SearchOnly(term: string): Customer -> bool {
    c => SearchMatches(SearchFields(c), term)
  }

  function StatusOnly(filter: string): Customer -> bool {
    (c: Customer) => StatusMatches(c.status, filter)
  }

  /** `filteredCustomers`: the rows the table shows. */
  function FilteredCustomers(cs: seq<Customer>, crit: Criteria): (r: seq<Customer>)
    ensures |r| <= |cs|
    ensures forall c :: c in r ==> c in cs && Admits(crit, c)
  {
    Filter(cs, Admitted(crit))
  }

  /** A customer is admitted exactly when the lower-cased term is a
      substring of its lower-cased name, contact person, email or id, and
      the filter is "all" or equals its status. No other field matters. */
  lemma AdmitsIff(crit: Criteria, c: Customer)
    ensures var t := Lower(crit.searchTerm);
      Admits(crit, c) <==>
        && (|| Contains(Lower(c.name), t)
            || Contains(Lower(c.contactPerson), t)
            || Contains(Lower(c.email), t)
            || Contains(Lower(c.id), t))
        && (crit.statusFilter == AllStatuses || c.status == crit.statusFilter)
  {
    var t := Lower(crit.searchTerm);
    var fs := SearchFields(c);
    SearchMatchesIff(fs, crit.searchTerm);
    if Contains(Lower(c.name), t) { assert Contains(Lower(fs[0]), t); }
    if Contains(Lower(c.contactPerson), t) { assert Contains(Lower(fs[1]), t); }
    if Contains(Lower(c.email), t) { assert Contains(Lower(fs[2]), t); }
    if Contains(Lower(c.id), t) { assert Contains(Lower(fs[3]), t); }
  }

  /** A row is shown exactly when it is a customer of the list and passes
      both rules. */
  lemma FilteredCustomersMembership(cs: seq<Customer>, crit: Criteria, c: Customer)
    ensures c in FilteredCustomers(cs, crit) <==> c in cs && Admits(crit, c)
  {
    FilterMembership(cs, Admitted(crit), c);
  }

  /** Records that differ only in fields the search does not look at
      (phone, address, counts, revenue, dates) are treated alike. */
  lemma AdmitsIgnoresOtherFields(crit: Criteria, c: Customer, d: Customer)
    requires c.name == d.name && c.contactPerson == d.contactPerson
    requires c.email == d.email && c.id == d.id && c.status == d.status
    ensures Admits(crit, c) == Admits(crit, d)
  {
  }

  /** The rows are the customers at strictly increasing positions, exactly
      the positions whose customer is admitted: an order-preserving
      subsequence of the list. */
  lemma FilteredCustomersOrdered(cs: seq<Customer>, crit: Criteria)
    ensures var idx, r := KeptIndices(cs, Admitted(crit)), FilteredCustomers(cs, crit);
      && |idx| == |r|
      && StrictlyIncreasing(idx)
      && (forall k :: 0 <= k < |idx| ==> idx[k] < |cs| && r[k] == cs[idx[k]])
      && (forall j :: 0 <= j < |cs| ==> (j in idx <==> Admits(crit, cs[j])))
  {
    FilterIsOrderedSubsequence(cs, Admitted(crit));
  }

  /** Filtering the shown rows again with the same criteria changes nothing. */
  lemma FilteredCustomersIdempotent(cs: seq<Customer>, crit: Criteria)
    ensures FilteredCustomers(FilteredCustomers(cs, crit), crit) == FilteredCustomers(cs, crit)
  {
    FilterIdempotent(cs, Admitted(crit));
  }

  /** The two rules are combined with AND: filtering by both is filtering by
      the search rule and then by the status rule. */
  lemma FilteredCustomersConjunction(cs: seq<Customer>, crit: Criteria)
    ensures FilteredCustomers(cs, crit)
            == Filter(Filter(cs, SearchOnly(crit.searchTerm)), StatusOnly(crit.statusFilter))
  {
    FilterConjunction(cs, Admitted(crit), SearchOnly(crit.searchTerm), StatusOnly(crit.statusFilter));
  }

  /** With an empty search box only the status rule is left. */
  lemma EmptySearchFiltersByStatus(cs: seq<Customer>, filter: string)
    ensures FilteredCustomers(cs, Criteria("", filter)) == Filter(cs, StatusOnly(filter))
  {
    forall c | c in cs ensures Admitted(Criteria("", filter))(c) == StatusOnly(filter)(c) {
      EmptyTermMatches(SearchFields(c));
    }
    FilterCongruent(cs, Admitted(Criteria("", filter)), StatusOnly(filter));
  }

  /** With the status filter at "all" only the search rule is left. */
  lemma AllStatusesFiltersBySearch(cs: seq<Customer>, term: string)
    ensures FilteredCustomers(cs, Criteria(term, AllStatuses)) == Filter(cs, SearchOnly(term))
  {
    FilterCongruent(cs, Admitted(Criteria(term, AllStatuses)), SearchOnly(term));
  }

  /** The initial state of the view (empty search, "all") shows every customer. */
  lemma InitialCriteriaShowAll(cs: seq<Customer>)
    ensures FilteredCustomers(cs, Criteria("", AllStatuses)) == cs
  {
    forall c | c in cs ensures Admitted(Criteria("", AllStatuses))(c) {
      EmptyTermMatches(SearchFields(c));
    }
    FilterKeepsAll(cs, Admitted(Criteria("", AllStatuses)));
  }

  /** The search ignores letter case in the term (ASCII letters). */
  lemma FilteredCustomersCaseInsensitive(cs: seq<Customer>, term: string, filter: string)
    ensures FilteredCustomers(cs, Criteria(Lower(term), filter)) == FilteredCustomers(cs, Criteria(term, filter))
  {
    forall c | c in cs
      ensures Admitted(Criteria(Lower(term), filter))(c) == Admitted(Criteria(term, filter))(c)
    {
      SearchCaseInsensitive(SearchFields(c), term);
    }
    FilterCongruent(cs, Admitted(Criteria(Lower(term), filter)), Admitted(Criteria(term, filter)));
  }

  /** `getStatusColor`. */
  function StatusColor(status: string): (r: string)
    ensures r == GreenBadge <==> status == "active"
    ensures r == YellowBadge <==> status == "pending"
    ensures r == GrayBadge <==> status != "active" && status != "pending"
  {
    match status
    case "active" => GreenBadge
    case "pending" => YellowBadge
    case "inactive" => GrayBadge
    case _ => GrayBadge
  }

  /** Active is green, pending is yellow, and every other status, known or
      not, shares the gray badge of "inactive". */
  lemma StatusColorCases(status: string)
    ensures StatusColor("active") == GreenBadge && StatusColor("pending") == YellowBadge
    ensures status != "active" && status != "pending" ==> StatusColor(status) == StatusColor("inactive")
    ensures StatusColor(status) == GrayBadge <==> status != "active" && status != "pending"
  {
  }

  function IsActive(): Customer -> bool {
    (c: Customer) => c.status == "active"
  }

  /** The "Active Customers" card: `customers.filter(c => c.status === "active").length`. */
  function ActiveCount(cs: seq<Customer>): (n: nat)
    ensures n <= |cs|
  {
    |Filter(cs, IsActive())|
  }

  /** The active count is the full list exactly when all customers are
      active, zero exactly when none is, and equals the number of rows the
      table shows for an empty search with the "active" filter. */
  lemma ActiveCountProperties(cs: seq<Customer>)
    ensures ActiveCount(cs) == |cs| <==> forall c :: c in cs ==> c.status == "active"
    ensures ActiveCount(cs) == 0 <==> forall c :: c in cs ==> c.status != "active"
    ensures ActiveCount(cs) == |FilteredCustomers(cs, Criteria("", "active"))|
  {
    FilterKeepsAll(cs, IsActive());
    FilterKeepsNone(cs, IsActive());
    EmptySearchFiltersByStatus(cs, "active");
    FilterCongruent(cs, StatusOnly("active"), IsActive());
  }

  function VehiclesOf(): Customer -> int {
    (c: Customer) => c.vehiclesAssigned
  }

  /** The "Vehicles Assigned" card: `customers.reduce((acc, c) => acc + c.vehiclesAssigned, 0)`. */
  function VehiclesAssigned(cs: seq<Customer>): (n: int)
    ensures n == Total(cs, VehiclesOf())
  {
    SumFrom(0, cs, VehiclesOf())
  }

  /** The card shows the sum of the per-customer counts; with no negative
      count it is at least each customer's count. */
  lemma VehiclesAssignedIsSum(cs: seq<Customer>)
    ensures VehiclesAssigned(cs) == Total(cs, VehiclesOf())
    ensures (forall c :: c in cs ==> c.vehiclesAssigned >= 0) ==>
              forall c :: c in cs ==> 0 <= c.vehiclesAssigned <= VehiclesAssigned(cs)
  {
    SumFromIsTotal(0, cs, VehiclesOf());
    if forall c :: c in cs ==> c.vehiclesAssigned >= 0 {
      forall c | c in cs ensures 0 <= c.vehiclesAssigned <= VehiclesAssigned(cs) {
        TotalAtLeastEach(cs, VehiclesOf(), c);
      }
    }
  }

  /** The avatar fallback: `name.split(" ").map(n => n[0]).join("").slice(0, 2)`. */
  function Initials(name: string): (r: string)
    ensures |r| <= 2
    ensures forall c :: c in r ==> c in name && c != ' '
  {
    FirstCharsOfSplit(name, true);
    assert forall c :: c in Take(WordStarts(name, true), 2) ==> c in WordStarts(name, true);
    Take(FirstChars(Split(name)), 2)
  }

  /** The initials are the first two (or fewer) word-initial characters of
      the name, in order; none of them is a space. */
  lemma InitialsAreWordStarts(name: string)
    ensures Initials(name) == Take(WordStarts(name, true), 2)
    ensures |Initials(name)| <= 2
    ensures forall c :: c in Initials(name) ==> c in name && c != ' '
  {
    FirstCharsOfSplit(name, true);
    var w := WordStarts(name, true);
    assert forall c :: c in Take(w, 2) ==> c in w;
  }
}
