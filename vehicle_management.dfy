/** The vehicle management view: the vehicle records, the visible
    (filtered) table, the status badge and fuel-level colours, and the
    statistics cards. */
module VehicleManagement {
  import opened Text
  import opened Sequences
  import opened Search
  import opened Rounding
  import opened Badges

  datatype Option<T> = None | Some(value: T)

  /** One fleet vehicle. The year, fuel level (a percentage) and mileage
      are whole numbers. */
  datatype Vehicle = Vehicle(
    id: string,
    make: string,
    model: string,
    year: int,
    licensePlate: string,
    status: string,
    location: string,
    driver: string,
    fuelLevel: int,
    mileage: int,
    lastService: string,
    nextService: string)

  /** The fields the search box looks at, in the order they are tried;
      the location is not one of them. */
  function SearchFields(v: Vehicle): seq<string> {
    [v.id, v.make, v.model, v.licensePlate, v.driver]
  }

  /** The predicate passed to `vehicles.filter`. */
  predicate Admits(crit: Criteria, v: Vehicle) {
    SearchMatches(SearchFields(v), crit.searchTerm) && StatusMatches(v.status, crit.statusFilter)
  }

  function Admitted(crit: Criteria): Vehicle -> bool {
    v => Admits(crit, v)
  }

  function SearchOnly(term: string): Vehicle -> bool {
    v => SearchMatches(SearchFields(v), term)
  }

  function StatusOnly(filter: string): Vehicle -> bool {
    (v: Vehicle) => StatusMatches(v.status, filter)
  }

  /** `filteredVehicles`: the rows the table shows. */
  function FilteredVehicles(vs: seq<Vehicle>, crit: Criteria): (r: seq<Vehicle>)
    ensures |r| <= |vs|
    ensures forall v :: v in r ==> v in vs && Admits(crit, v)
  {
    Filter(vs, Admitted(crit))
  }

  /** A vehicle is admitted exactly when the lower-cased term is a
      substring of its lower-cased id, make, model, licence plate or driver,
      and the filter is "all" or equals its status. */
  lemma AdmitsIff(crit: Criteria, v: Vehicle)
    ensures var t := Lower(crit.searchTerm);
      Admits(crit, v) <==>
        && (|| Contains(Lower(v.id), t)
            || Contains(Lower(v.make), t)
            || Contains(Lower(v.model), t)
            || Contains(Lower(v.licensePlate), t)
            || Contains(Lower(v.driver), t))
        && (crit.statusFilter == AllStatuses || v.status == crit.statusFilter)
  {
    var t := Lower(crit.searchTerm);
    var fs := SearchFields(v);
    SearchMatchesIff(fs, crit.searchTerm);
    if Contains(Lower(v.id), t) { assert Contains(Lower(fs[0]), t); }
    if Contains(Lower(v.make), t) { assert Contains(Lower(fs[1]), t); }
    if Contains(Lower(v.model), t) { assert Contains(Lower(fs[2]), t); }
    if Contains(Lower(v.licensePlate), t) { assert Contains(Lower(fs[3]), t); }
    if Contains(Lower(v.driver), t) { assert Contains(Lower(fs[4]), t); }
  }

  /** A row is shown exactly when it is a vehicle of the list and passes
      both rules. */
  lemma FilteredVehiclesMembership(vs: seq<Vehicle>, crit: Criteria, v: Vehicle)
    ensures v in FilteredVehicles(vs, crit) <==> v in vs && Admits(crit, v)
  {
    FilterMembership(vs, Admitted(crit), v);
  }

  /** Records that differ only in fields the search does not look at
      (location, year, fuel level, mileage, service dates) are treated
      alike. */
  lemma AdmitsIgnoresOtherFields(crit: Criteria, v: Vehicle, w: Vehicle)
    requires v.id == w.id && v.make == w.make && v.model == w.model
    requires v.licensePlate == w.licensePlate && v.driver == w.driver && v.status == w.status
    ensures Admits(crit, v) == Admits(crit, w)
  {
  }

  /** The rows are the vehicles at strictly increasing positions, exactly
      the positions whose vehicle is admitted: an order-preserving
      subsequence of the list. */
  lemma FilteredVehiclesOrdered(vs: seq<Vehicle>, crit: Criteria)
    ensures var idx, r := KeptIndices(vs, Admitted(crit)), FilteredVehicles(vs, crit);
      && |idx| == |r|
      && StrictlyIncreasing(idx)
      && (forall k :: 0 <= k < |idx| ==> idx[k] < |vs| && r[k] == vs[idx[k]])
      && (forall j :: 0 <= j < |vs| ==> (j in idx <==> Admits(crit, vs[j])))
  {
    FilterIsOrderedSubsequence(vs, Admitted(crit));
  }

  /** Filtering the shown rows again with the same criteria changes nothing. */
  lemma FilteredVehiclesIdempotent(vs: seq<Vehicle>, crit: Criteria)
    ensures FilteredVehicles(FilteredVehicles(vs, crit), crit) == FilteredVehicles(vs, crit)
  {
    FilterIdempotent(vs, Admitted(crit));
  }

  /** The two rules are combined with AND: filtering by both is filtering by
      the search rule and then by the status rule. */
  lemma FilteredVehiclesConjunction(vs: seq<Vehicle>, crit: Criteria)
    ensures FilteredVehicles(vs, crit)
            == Filter(Filter(vs, SearchOnly(crit.searchTerm)), StatusOnly(crit.statusFilter))
  {
    FilterConjunction(vs, Admitted(crit), SearchOnly(crit.searchTerm), StatusOnly(crit.statusFilter));
  }

  /** With an empty search box only the status rule is left. */
  lemma EmptySearchFiltersByStatus(vs: seq<Vehicle>, filter: string)
    ensures FilteredVehicles(vs, Criteria("", filter)) == Filter(vs, StatusOnly(filter))
  {
    forall v | v in vs ensures Admitted(Criteria("", filter))(v) == StatusOnly(filter)(v) {
      EmptyTermMatches(SearchFields(v));
    }
    FilterCongruent(vs, Admitted(Criteria("", filter)), StatusOnly(filter));
  }

  /** With the status filter at "all" only the search rule is left. */
  lemma AllStatusesFiltersBySearch(vs: seq<Vehicle>, term: string)
    ensures FilteredVehicles(vs, Criteria(term, AllStatuses)) == Filter(vs, SearchOnly(term))
  {
    FilterCongruent(vs, Admitted(Criteria(term, AllStatuses)), SearchOnly(term));
  }

  /** The initial state of the view (empty search, "all") shows every vehicle. */
  lemma InitialCriteriaShowAll(vs: seq<Vehicle>)
    ensures FilteredVehicles(vs, Criteria("", AllStatuses)) == vs
  {
    forall v | v in vs ensures Admitted(Criteria("", AllStatuses))(v) {
      EmptyTermMatches(SearchFields(v));
    }
    FilterKeepsAll(vs, Admitted(Criteria("", AllStatuses)));
  }

  /** The search ignores letter case in the term (ASCII letters). */
  lemma FilteredVehiclesCaseInsensitive(vs: seq<Vehicle>, term: string, filter: string)
    ensures FilteredVehicles(vs, Criteria(Lower(term), filter)) == FilteredVehicles(vs, Criteria(term, filter))
  {
    forall v | v in vs
      ensures Admitted(Criteria(Lower(term), filter))(v) == Admitted(Criteria(term, filter))(v)
    {
      SearchCaseInsensitive(SearchFields(v), term);
    }
    FilterCongruent(vs, Admitted(Criteria(Lower(term), filter)), Admitted(Criteria(term, filter)));
  }

  /** `getStatusColor`. */
  function StatusColor(status: string): (r: string)
    ensures r == GreenBadge <==> status == "active"
    ensures r == YellowBadge <==> status == "maintenance"
    ensures r == GrayBadge <==> status != "active" && status != "maintenance"
  {
    match status
    case "active" => GreenBadge
    case "maintenance" => YellowBadge
    case "inactive" => GrayBadge
    case _ => GrayBadge
  }

  /** Active is green, maintenance is yellow, and every other status, known
      or not, shares the gray badge of "inactive". */
  lemma StatusColorCases(status: string)
    ensures StatusColor("active") == GreenBadge && StatusColor("maintenance") == YellowBadge
    ensures status != "active" && status != "maintenance" ==> StatusColor(status) == StatusColor("inactive")
    ensures StatusColor(status) == GrayBadge <==> status != "active" && status != "maintenance"
  {
  }

  /** `getFuelLevelColor`: three bands split at 70 and 30, both thresholds
      belonging to the lower band. */
  function FuelLevelColor(level: int): (r: string)
    ensures r == GreenText || r == YellowText || r == RedText
  {
    if level > 70 then GreenText
    else if level > 30 then YellowText
    else RedText
  }

  /** Each colour is given on exactly one band of levels. */
  lemma FuelLevelColorBands(level: int)
    ensures FuelLevelColor(level) == GreenText <==> level > 70
    ensures FuelLevelColor(level) == YellowText <==> 30 < level <= 70
    ensures FuelLevelColor(level) == RedText <==> level <= 30
  {
  }

  /** The bands ordered from worst to best: red, yellow, green. */
  function FuelRank(color: string): nat {
    if color == GreenText then 2 else if color == YellowText then 1 else 0
  }

  /** More fuel never gives a worse colour. */
  lemma FuelLevelColorMonotone(a: int, b: int)
    requires a <= b
    ensures FuelRank(FuelLevelColor(a)) <= FuelRank(FuelLevelColor(b))
  {
  }

  function HasStatus(status: string): Vehicle -> bool {
    (v: Vehicle) => v.status == status
  }

  /** The "Active Vehicles" and "In Maintenance" cards:
      `vehicles.filter(v => v.status === status).length` for `status` set to
      "active" and "maintenance". */
  function StatusCount(vs: seq<Vehicle>, status: string): (n: nat)
    ensures n <= |vs|
  {
    |Filter(vs, HasStatus(status))|
  }

  /** A card counts the rows an empty search with that status filter shows
      (for any filter but the sentinel), and no vehicle is counted by both
      the active and the maintenance card, so together they never exceed
      the fleet size. */
  lemma StatusCountsProperties(vs: seq<Vehicle>, status: string)
    ensures status != AllStatuses ==>
              StatusCount(vs, status) == |FilteredVehicles(vs, Criteria("", status))|
    ensures StatusCount(vs, "active") + StatusCount(vs, "maintenance") <= |vs|
  {
    EmptySearchFiltersByStatus(vs, status);
    if status != AllStatuses {
      FilterCongruent(vs, StatusOnly(status), HasStatus(status));
    }
    FilterDisjointLength(vs, HasStatus("active"), HasStatus("maintenance"));
  }

  function FuelOf(): Vehicle -> int {
    (v: Vehicle) => v.fuelLevel
  }

  /** The "Avg Fuel Level" card:
      `Math.round(vehicles.reduce((acc, v) => acc + v.fuelLevel, 0) / vehicles.length)`.
      An empty fleet divides by zero, which JavaScript shows as NaN; here
      it has no value. */
  function AverageFuel(vs: seq<Vehicle>): (r: Option<int>)
    ensures r.None? <==> vs == []
  {
    if |vs| == 0 then None else Some(RoundedQuotient(SumFrom(0, vs, FuelOf()), |vs|))
  }

  /** For a non-empty fleet the card shows the integer nearest to the mean
      level, halves rounded up. */
  lemma AverageFuelIsRoundedMean(vs: seq<Vehicle>)
    requires vs != []
    ensures var n, r := |vs|, AverageFuel(vs).value;
      2 * n * r - n <= 2 * Total(vs, FuelOf()) < 2 * n * r + n
  {
    SumFromIsTotal(0, vs, FuelOf());
  }

  /** If every level lies in [lo, hi] (for instance between the smallest
      and the largest level) then so does the average. */
  lemma AverageFuelWithin(vs: seq<Vehicle>, lo: int, hi: int)
    requires vs != []
    requires forall v :: v in vs ==> lo <= v.fuelLevel <= hi
    ensures lo <= AverageFuel(vs).value <= hi
  {
    SumFromIsTotal(0, vs, FuelOf());
    TotalBounds(vs, FuelOf(), lo, hi);
    RoundedQuotientWithin(Total(vs, FuelOf()), |vs|, lo, hi);
  }

  /** Percentages in, a percentage out. */
  lemma AverageFuelIsPercentage(vs: seq<Vehicle>)
    requires vs != []
    requires forall v :: v in vs ==> 0 <= v.fuelLevel <= 100
    ensures 0 <= AverageFuel(vs).value <= 100
  {
    AverageFuelWithin(vs, 0, 100);
  }
}
