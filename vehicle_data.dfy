/** The mock fleet the vehicle management view is built on, and what the
    view's filter and statistics make of it. */
module VehicleData {
  import opened Text
  import opened Sequences
  import opened Search
  import opened Rounding
  import opened Badges
  import opened VehicleManagement

  /** The mock fleet the view is built on. */
  const MockVehicles: seq<Vehicle> :=
    [FordTransit, MercedesSprinter, IvecoDaily, VolkswagenCrafter, RenaultMaster]

  // The searchable fields of VH-2024-001 are named constants, so that facts
  // about each field can be proved on its own.

  const FordTransit := Vehicle(FordTransitId, FordTransitMake, FordTransitModel, 2024,
    FordTransitPlate, "active", "Downtown Depot", FordTransitDriver, 85, 12450,
    "2024-01-15", "2024-04-15")
  const FordTransitId := "VH-2024-001"
  const FordTransitMake := "Ford"
  const FordTransitModel := "Transit"
  const FordTransitPlate := "ABC-123"
  const FordTransitDriver := "John Smith"

  const MercedesSprinter := Vehicle("VH-2024-002", "Mercedes", "Sprinter", 2023, "XYZ-789",
    "maintenance", "Service Center", "Sarah Johnson", 45, 28750, "2024-01-10", "2024-04-10")
  const IvecoDaily := Vehicle("VH-2023-045", "Iveco", "Daily", 2023, "DEF-456",
    "active", "Route 15", "Mike Wilson", 92, 45200, "2023-12-20", "2024-03-20")
  const VolkswagenCrafter := Vehicle("VH-2023-012", "Volkswagen", "Crafter", 2022, "GHI-321",
    "inactive", "Main Garage", "Unassigned", 15, 67890, "2024-01-05", "2024-04-05")
  const RenaultMaster := Vehicle("VH-2024-003", "Renault", "Master", 2024, "JKL-654",
    "active", "Industrial Zone", "Emma Davis", 78, 8920, "2024-01-20", "2024-04-20")

  /** The "maintenance" filter with an empty search shows only VH-2024-002. */
  lemma MaintenanceShowsMercedesSprinter()
    ensures FilteredVehicles(MockVehicles, Criteria("", "maintenance")) == [MercedesSprinter]
  {
    var vs, p := MockVehicles, StatusOnly("maintenance");
    assert Filter(vs, p) == [vs[1]] by {
      assert vs[4..][1..] == [] && vs[3..][1..] == vs[4..] && vs[2..][1..] == vs[3..];
      assert vs[1..][1..] == vs[2..];
      assert Filter(vs[4..], p) == [];
      assert Filter(vs[3..], p) == [];
      assert Filter(vs[2..], p) == [];
      assert Filter(vs[1..], p) == [vs[1]];
    }
    EmptySearchFiltersByStatus(vs, "maintenance");
  }

  /** Searching "john" shows VH-2024-001 (driver John Smith) and VH-2024-002
      (driver Sarah Johnson). */
  lemma JohnSearchShowsTwoDrivers()
    ensures FordTransit in FilteredVehicles(MockVehicles, Criteria("john", AllStatuses))
    ensures MercedesSprinter in FilteredVehicles(MockVehicles, Criteria("john", AllStatuses))
  {
    var crit := Criteria("john", AllStatuses);
    assert Lower("john") == "john";
    assert Lower(FordTransit.driver)[..4] == "john";
    assert OccursAt(Lower(FordTransit.driver), Lower(crit.searchTerm), 0);
    AdmitsIff(crit, FordTransit);
    FilteredVehiclesMembership(MockVehicles, crit, FordTransit);
    var d := MercedesSprinter.driver;
    assert d[6] == 'J' && d[7] == 'o' && d[8] == 'h' && d[9] == 'n';
    assert Lower(d)[6..10] == "john";
    assert OccursAt(Lower(d), Lower(crit.searchTerm), 6);
    AdmitsIff(crit, MercedesSprinter);
    FilteredVehiclesMembership(MockVehicles, crit, MercedesSprinter);
  }

  /** The location is not searched: VH-2024-001 stands at "Downtown Depot",
      yet searching "depot" does not show it. */
  lemma DepotSearchHidesFordTransit()
    ensures FordTransit !in FilteredVehicles(MockVehicles, Criteria("depot", AllStatuses))
  {
    assert Lower("depot") == "depot";
    FordTransitIdLacksDepot();
    FordTransitMakeLacksDepot();
    FordTransitModelLacksDepot();
    FordTransitPlateLacksDepot();
    FordTransitDriverLacksDepot();
    AdmitsIff(Criteria("depot", AllStatuses), FordTransit);
    FilteredVehiclesMembership(MockVehicles, Criteria("depot", AllStatuses), FordTransit);
  }

  // Each searchable field of VH-2024-001 lacks "depot", ignoring case: it
  // misses one of the term's letters in both cases.

  lemma FordTransitIdLacksDepot()
    ensures !Contains(Lower(FordTransitId), "depot")
  {
    FieldLacksLetter(FordTransitId, "depot", 0);
  }

  lemma FordTransitMakeLacksDepot()
    ensures !Contains(Lower(FordTransitMake), "depot")
  {
    FieldLacksLetter(FordTransitMake, "depot", 1);
  }

  lemma FordTransitModelLacksDepot()
    ensures !Contains(Lower(FordTransitModel), "depot")
  {
    FieldLacksLetter(FordTransitModel, "depot", 0);
  }

  lemma FordTransitPlateLacksDepot()
    ensures !Contains(Lower(FordTransitPlate), "depot")
  {
    FieldLacksLetter(FordTransitPlate, "depot", 0);
  }

  lemma FordTransitDriverLacksDepot()
    ensures !Contains(Lower(FordTransitDriver), "depot")
  {
    FieldLacksLetter(FordTransitDriver, "depot", 0);
  }

  /** The statistics cards over the mock fleet: 3 active, 1 in maintenance. */
  lemma MockStatusCounts()
    ensures StatusCount(MockVehicles, "active") == 3
    ensures StatusCount(MockVehicles, "maintenance") == 1
  {
    var vs, a := MockVehicles, HasStatus("active");
    assert vs[4..][1..] == [] && vs[3..][1..] == vs[4..] && vs[2..][1..] == vs[3..];
    assert vs[1..][1..] == vs[2..];
    assert Filter(vs[4..], a) == [vs[4]];
    assert Filter(vs[3..], a) == [vs[4]];
    assert Filter(vs[2..], a) == [vs[2], vs[4]];
    assert Filter(vs[1..], a) == [vs[2], vs[4]];
    MaintenanceShowsMercedesSprinter();
    StatusCountsProperties(vs, "maintenance");
  }

  /** The "Avg Fuel Level" card over the mock fleet: (85 + 45 + 92 + 15 + 78) / 5
      = 63 exactly. */
  lemma MockAverageFuel()
    ensures AverageFuel(MockVehicles) == Some(63)
  {
    var vs, f := MockVehicles, FuelOf();
    assert vs[4..][1..] == [] && vs[3..][1..] == vs[4..] && vs[2..][1..] == vs[3..];
    assert vs[1..][1..] == vs[2..];
    assert SumFrom(237, vs[4..], f) == 315;
    assert SumFrom(130, vs[2..], f) == SumFrom(237, vs[4..], f);
    assert SumFrom(0, vs, f) == SumFrom(130, vs[2..], f);
    assert RoundedQuotient(315, 5) == 63;
  }

  /** The fuel column colours of the mock fleet: VH-2024-001 (85) is green,
      VH-2024-002 (45) yellow and VH-2023-012 (15) red. */
  lemma MockFuelColors()
    ensures FuelLevelColor(FordTransit.fuelLevel) == GreenText
    ensures FuelLevelColor(MercedesSprinter.fuelLevel) == YellowText
    ensures FuelLevelColor(VolkswagenCrafter.fuelLevel) == RedText
  {
    FuelLevelColorBands(FordTransit.fuelLevel);
    FuelLevelColorBands(MercedesSprinter.fuelLevel);
    FuelLevelColorBands(VolkswagenCrafter.fuelLevel);
  }
}
