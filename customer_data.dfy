/** The mock customer list the customer management view is built on, and
    what the view's filter and statistics make of it. */
module CustomerData {
  import opened Text
  import opened Sequences
  import opened Search
  import opened CustomerManagement

  /** The mock customer list the view is built on. */
  const MockCustomers: seq<Customer> :=
    [AcmeCorporation, GlobalLogistics, MetroDelivery, SwiftTransport, CityExpress]

  // The searchable fields of CUST-002 to CUST-005 are named constants, so
  // that facts about each field can be proved on its own.

  const AcmeCorporation := Customer("CUST-001", "Acme Corporation", "John Smith",
    "john.smith@acme.com", "+1 (555) 123-4567", "active", 5, "2023-01-15", "2024-01-20",
    45000, "123 Business Ave, New York, NY")
  const GlobalLogistics := Customer(GlobalLogisticsId, GlobalLogisticsName,
    GlobalLogisticsContact, GlobalLogisticsEmail, "+1 (555) 987-6543", "active", 12, "2022-08-22",
    "2024-01-19", 128000, "456 Commerce St, Los Angeles, CA")
  const GlobalLogisticsId := "CUST-002"
  const GlobalLogisticsName := "Global Logistics Ltd"
  const GlobalLogisticsContact := "Sarah Johnson"
  const GlobalLogisticsEmail := "s.johnson@globallogistics.com"

  const MetroDelivery := Customer(MetroDeliveryId, MetroDeliveryName,
    MetroDeliveryContact, MetroDeliveryEmail, "+1 (555) 456-7890", "pending", 0, "2024-01-10", "2024-01-18",
    0, "789 Industrial Blvd, Chicago, IL")
  const MetroDeliveryId := "CUST-003"
  const MetroDeliveryName := "Metro Delivery Services"
  const MetroDeliveryContact := "Mike Wilson"
  const MetroDeliveryEmail := "mike.w@metrodelivery.com"

  const SwiftTransport := Customer(SwiftTransportId, SwiftTransportName,
    SwiftTransportContact, SwiftTransportEmail, "+1 (555) 321-0987", "active", 8, "2023-06-30", "2024-01-21",
    67500, "321 Highway Dr, Houston, TX")
  const SwiftTransportId := "CUST-004"
  const SwiftTransportName := "Swift Transport Co"
  const SwiftTransportContact := "Emma Davis"
  const SwiftTransportEmail := "emma@swifttransport.com"

  const CityExpress := Customer(CityExpressId, CityExpressName,
    CityExpressContact, CityExpressEmail, "+1 (555) 654-3210", "inactive", 3, "2022-03-12", "2023-12-15",
    23000, "654 Urban Ave, Miami, FL")
  const CityExpressId := "CUST-005"
  const CityExpressName := "City Express"
  const CityExpressContact := "Robert Brown"
  const CityExpressEmail := "r.brown@cityexpress.com"

  /** The "pending" filter with an empty search shows only CUST-003. */
  lemma PendingShowsMetroDelivery()
    ensures FilteredCustomers(MockCustomers, Criteria("", "pending")) == [MetroDelivery]
  {
    var cs, p := MockCustomers, StatusOnly("pending");
    assert Filter(cs, p) == [cs[2]] by {
      assert cs[4..][1..] == [] && cs[3..][1..] == cs[4..] && cs[2..][1..] == cs[3..];
      assert cs[1..][1..] == cs[2..];
      assert Filter(cs[3..], p) == [];
      assert Filter(cs[2..], p) == [cs[2]];
    }
    EmptySearchFiltersByStatus(cs, "pending");
  }

  /** Searching "ACME" with every status shows Acme Corporation: the match
      on its name ignores case. */
  lemma AcmeSearchShowsAcmeCorporation()
    ensures AcmeCorporation in FilteredCustomers(MockCustomers, Criteria("ACME", AllStatuses))
  {
    var crit := Criteria("ACME", AllStatuses);
    assert Lower("ACME") == "acme";
    assert Lower(AcmeCorporation.name) == "acme corporation";
    assert OccursAt(Lower(AcmeCorporation.name), Lower(crit.searchTerm), 0);
    AdmitsIff(crit, AcmeCorporation);
    FilteredCustomersMembership(MockCustomers, crit, AcmeCorporation);
  }

  /** Searching "john" shows Acme Corporation (contact John Smith). */
  lemma JohnSearchShowsAcmeCorporation()
    ensures AcmeCorporation in FilteredCustomers(MockCustomers, Criteria("john", AllStatuses))
  {
    var crit := Criteria("john", AllStatuses);
    assert Lower("john") == "john";
    assert Lower(AcmeCorporation.contactPerson)[..4] == "john";
    assert OccursAt(Lower(AcmeCorporation.contactPerson), Lower(crit.searchTerm), 0);
    AdmitsIff(crit, AcmeCorporation);
    FilteredCustomersMembership(MockCustomers, crit, AcmeCorporation);
  }

  /** Searching "john" also shows Global Logistics, through the middle of
      its email s.johnson@globallogistics.com. */
  lemma JohnSearchShowsGlobalLogistics()
    ensures GlobalLogistics in FilteredCustomers(MockCustomers, Criteria("john", AllStatuses))
  {
    var crit := Criteria("john", AllStatuses);
    assert Lower("john") == "john";
    var e := GlobalLogistics.email;
    assert e[2] == 'j' && e[3] == 'o' && e[4] == 'h' && e[5] == 'n';
    assert Lower(e)[2..6] == "john";
    assert OccursAt(Lower(e), Lower(crit.searchTerm), 2);
    AdmitsIff(crit, GlobalLogistics);
    FilteredCustomersMembership(MockCustomers, crit, GlobalLogistics);
  }

  /** A matching search does not override the status filter: Acme
      Corporation is active, so the "inactive" filter hides it. */
  lemma StatusFilterHidesMatch()
    ensures AcmeCorporation !in FilteredCustomers(MockCustomers, Criteria("acme", "inactive"))
  {
    FilteredCustomersMembership(MockCustomers, Criteria("acme", "inactive"), AcmeCorporation);
  }

  /** The "Active Customers" card over the mock list shows 3. */
  lemma MockActiveCount()
    ensures ActiveCount(MockCustomers) == 3
  {
    var cs, p := MockCustomers, IsActive();
    assert cs[4..][1..] == [] && cs[3..][1..] == cs[4..] && cs[2..][1..] == cs[3..];
    assert cs[1..][1..] == cs[2..];
    assert Filter(cs[4..], p) == [];
    assert Filter(cs[3..], p) == [cs[3]];
    assert Filter(cs[2..], p) == [cs[3]];
    assert Filter(cs[1..], p) == [cs[1], cs[3]];
  }

  /** The "Vehicles Assigned" card over the mock list shows 5 + 12 + 0 + 8 + 3 = 28. */
  lemma MockVehiclesAssigned()
    ensures VehiclesAssigned(MockCustomers) == 28
  {
    var cs, v := MockCustomers, VehiclesOf();
    assert cs[4..][1..] == [] && cs[3..][1..] == cs[4..] && cs[2..][1..] == cs[3..];
    assert cs[1..][1..] == cs[2..];
    assert SumFrom(25, cs[4..], v) == 28;
    assert SumFrom(17, cs[2..], v) == SumFrom(25, cs[4..], v);
    assert SumFrom(0, cs, v) == SumFrom(17, cs[2..], v);
  }

  /** No searchable field of `c`, lower-cased, contains `t`. */
  ghost predicate NoFieldContains(c: Customer, t: string) {
    && !Contains(Lower(c.name), t) && !Contains(Lower(c.contactPerson), t)
    && !Contains(Lower(c.email), t) && !Contains(Lower(c.id), t)
  }

  /** A customer none of whose searchable fields contains the lower-cased
      term is not shown, whatever its status. */
  lemma NoFieldContainsRejects(crit: Criteria, c: Customer)
    requires NoFieldContains(c, Lower(crit.searchTerm))
    ensures !Admits(crit, c)
  {
    AdmitsIff(crit, c);
  }

  /** Searching "acme" with every status shows exactly CUST-001 (Acme
      Corporation): CUST-002 to CUST-005 lack the term in every searchable
      field. */
  lemma AcmeShowsOnlyAcmeCorporation()
    ensures FilteredCustomers(MockCustomers, Criteria("acme", AllStatuses)) == [AcmeCorporation]
  {
    var crit := Criteria("acme", AllStatuses);
    assert Admits(crit, AcmeCorporation) by {
      AcmeSearchShowsAcmeCorporation();
      FilteredCustomersMembership(MockCustomers, Criteria("ACME", AllStatuses), AcmeCorporation);
      assert Lower("ACME") == Lower("acme");
    }
    AcmeRejects(GlobalLogistics);
    AcmeRejects(MetroDelivery);
    AcmeRejects(SwiftTransport);
    AcmeRejects(CityExpress);
    OnlyFirstShown(crit);
  }

  /** Criteria that admit CUST-001 and reject the other four show CUST-001 alone. */
  lemma OnlyFirstShown(crit: Criteria)
    requires Admits(crit, AcmeCorporation)
    requires !Admits(crit, GlobalLogistics) && !Admits(crit, MetroDelivery)
    requires !Admits(crit, SwiftTransport) && !Admits(crit, CityExpress)
    ensures FilteredCustomers(MockCustomers, crit) == [AcmeCorporation]
  {
    var cs, p := MockCustomers, Admitted(crit);
    assert cs[4..][1..] == [] && cs[3..][1..] == cs[4..] && cs[2..][1..] == cs[3..];
    assert cs[1..][1..] == cs[2..];
    assert Filter(cs[4..], p) == [];
    assert Filter(cs[2..], p) == [];
    assert Filter(cs[1..], p) == [];
  }

  /** A customer whose four searchable fields lack "acme" is not shown. */
  lemma AcmeRejects(c: Customer)
    requires c in [GlobalLogistics, MetroDelivery, SwiftTransport, CityExpress]
    ensures !Admits(Criteria("acme", AllStatuses), c)
  {
    assert Lower("acme") == "acme";
    if c == GlobalLogistics {
      AcmeGlobalLogisticsName(); AcmeGlobalLogisticsContact();
      AcmeGlobalLogisticsEmail(); AcmeGlobalLogisticsId();
    } else if c == MetroDelivery {
      AcmeMetroDeliveryName(); AcmeMetroDeliveryContact();
      AcmeMetroDeliveryEmail(); AcmeMetroDeliveryId();
    } else if c == SwiftTransport {
      AcmeSwiftTransportName(); AcmeSwiftTransportContact();
      AcmeSwiftTransportEmail(); AcmeSwiftTransportId();
    } else {
      AcmeCityExpressName(); AcmeCityExpressContact();
      AcmeCityExpressEmail(); AcmeCityExpressId();
    }
    NoFieldContainsRejects(Criteria("acme", AllStatuses), c);
  }

  // Each searchable field of CUST-002 to CUST-005 lacks "acme", ignoring
  // case: it misses one of the term's letters in both cases.

  lemma AcmeGlobalLogisticsName()
    ensures !Contains(Lower(GlobalLogisticsName), "acme")
  {
    FieldLacksLetter(GlobalLogisticsName, "acme", 2);
  }

  lemma AcmeGlobalLogisticsContact()
    ensures !Contains(Lower(GlobalLogisticsContact), "acme")
  {
    FieldLacksLetter(GlobalLogisticsContact, "acme", 1);
  }

  lemma AcmeGlobalLogisticsEmail()
    ensures !Contains(Lower(GlobalLogisticsEmail), "acme")
  {
    FieldLacksLetter(GlobalLogisticsEmail, "acme", 3);
  }

  lemma AcmeGlobalLogisticsId()
    ensures !Contains(Lower(GlobalLogisticsId), "acme")
  {
    FieldLacksLetter(GlobalLogisticsId, "acme", 0);
  }

  lemma AcmeMetroDeliveryName()
    ensures !Contains(Lower(MetroDeliveryName), "acme")
  {
    FieldLacksLetter(MetroDeliveryName, "acme", 0);
  }

  lemma AcmeMetroDeliveryContact()
    ensures !Contains(Lower(MetroDeliveryContact), "acme")
  {
    FieldLacksLetter(MetroDeliveryContact, "acme", 0);
  }

  lemma AcmeMetroDeliveryEmail()
    ensures !Contains(Lower(MetroDeliveryEmail), "acme")
  {
    FieldLacksLetter(MetroDeliveryEmail, "acme", 0);
  }

  lemma AcmeMetroDeliveryId()
    ensures !Contains(Lower(MetroDeliveryId), "acme")
  {
    FieldLacksLetter(MetroDeliveryId, "acme", 0);
  }

  lemma AcmeSwiftTransportName()
    ensures !Contains(Lower(SwiftTransportName), "acme")
  {
    FieldLacksLetter(SwiftTransportName, "acme", 2);
  }

  lemma AcmeSwiftTransportContact()
    ensures !Contains(Lower(SwiftTransportContact), "acme")
  {
    FieldLacksLetter(SwiftTransportContact, "acme", 1);
  }

  lemma AcmeSwiftTransportId()
    ensures !Contains(Lower(SwiftTransportId), "acme")
  {
    FieldLacksLetter(SwiftTransportId, "acme", 0);
  }

  lemma AcmeCityExpressName()
    ensures !Contains(Lower(CityExpressName), "acme")
  {
    FieldLacksLetter(CityExpressName, "acme", 0);
  }

  lemma AcmeCityExpressContact()
    ensures !Contains(Lower(CityExpressContact), "acme")
  {
    FieldLacksLetter(CityExpressContact, "acme", 0);
  }

  lemma AcmeCityExpressEmail()
    ensures !Contains(Lower(CityExpressEmail), "acme")
  {
    FieldLacksLetter(CityExpressEmail, "acme", 0);
  }

  lemma AcmeCityExpressId()
    ensures !Contains(Lower(CityExpressId), "acme")
  {
    FieldLacksLetter(CityExpressId, "acme", 0);
  }

  /** The email of CUST-004 has every letter of "acme"; split at '@' and
      '.', which the term lacks, no piece has them all. */
  lemma AcmeSwiftTransportEmail()
    ensures !Contains(Lower(SwiftTransportEmail), "acme")
  {
    SwiftTransportEmailPieces();
    MissingCharExcludes("emma", "acme", 1);
    MissingCharExcludes("swifttransport", "acme", 1);
    MissingCharExcludes("com", "acme", 0);
    if Contains(Lower(SwiftTransportEmail), "acme") {
      SeparatorSplits("emma", '@', "swifttransport" + ['.'] + "com", "acme");
      SeparatorSplits("swifttransport", '.', "com", "acme");
    }
  }

  lemma SwiftTransportEmailPieces()
    ensures Lower(SwiftTransportEmail) == "emma" + ['@'] + ("swifttransport" + ['.'] + "com")
  {
    assert SwiftTransportEmail == "emma" + ['@'] + ("swifttransport" + ['.'] + "com");
    LowerOfLowerCase(SwiftTransportEmail);
  }
}
