/**
 * The three lookup dictionaries of the connection module: region names to
 * Carbon Intensity region ids, region names to price-API DNO numbers, and
 * voltage-level labels to the price API's voltage codes.
 */
module Tables {
  import opened Wrappers

  /** `region_map`: region name to Carbon Intensity region id. */
  const RegionMapTable: map<string, int> := map[
    "North Scotland" := 1,
    "South Scotland" := 2,
    "North West England" := 3,
    "North East England" := 4,
    "Yorkshire" := 5,
    "North Wales" := 6,
    "South Wales" := 7,
    "West Midlands" := 8,
    "East Midlands" := 9,
    "East England" := 10,
    "South West England" := 11,
    "South England" := 12,
    "London" := 13,
    "South East England" := 14,
    "England" := 15,
    "Scotland" := 16,
    "Wales" := 17
  ]

  /** `region_dno`: region name to the price API's DNO number. */
  const RegionDnoTable: map<string, int> := map[
    "East England" := 10,
    "East Midlands" := 11,
    "London" := 12,
    "North Wales" := 13,
    "West Midlands" := 14,
    "North East England" := 15,
    "North West England" := 16,
    "North Scotland" := 17,
    "South Scotland" := 18,
    "South East England" := 19,
    "South England" := 20,
    "South Wales" := 21,
    "South West England" := 22,
    "Yorkshire" := 23,
    // aggregate regions offered to users but not defined by the price API
    "England" := 20,
    "Scotland" := 16,
    "Wales" := 21
  ]

  /** `voltage_level_enums`: user-facing voltage label to the price API's code. */
  const VoltageLevelTable: map<string, string> := map[
    "Low Voltage: <1kV" := "LV",
    "LV Substation: <1kV" := "LV-Sub",
    "High Voltage: <22kV" := "HV"
  ]

  /** The voltage codes the price API accepts. */
  const ApiVoltageCodes: set<string> := {"LV", "LV-Sub", "HV"}

  /** `region_map[region]`; `None` where the dict lookup raises KeyError. */
  function RegionId(region: string): (r: Option<int>)
    ensures r.Some? <==> region in RegionMapTable.Keys
    ensures r.Some? ==> 1 <= r.value <= 17
  {
    if region in RegionMapTable then Some(RegionMapTable[region]) else None
  }

  /** `region_dno[region]`; `None` where the dict lookup raises KeyError. */
  function RegionDno(region: string): (r: Option<int>)
    ensures r.Some? <==> region in RegionDnoTable.Keys
    ensures r.Some? ==> 10 <= r.value <= 23
  {
    if region in RegionDnoTable then Some(RegionDnoTable[region]) else None
  }

  /** `voltage_level_enums[voltage]`; `None` where the dict lookup raises KeyError. */
  function VoltageCode(voltage: string): (r: Option<string>)
    ensures r.Some? <==> voltage in VoltageLevelTable.Keys
    ensures r.Some? ==> r.value in ApiVoltageCodes
  {
    if voltage in VoltageLevelTable then Some(VoltageLevelTable[voltage]) else None
  }

  /** Every region a user can pick is known to both APIs. */
  lemma SameRegionsForBothApis()
    ensures RegionMapTable.Keys == RegionDnoTable.Keys
  {
    assert forall r :: r in RegionMapTable.Keys <==> r in RegionDnoTable.Keys;
  }

  /** Every DNO number 10..23 of the price API is reached by some region. */
  lemma EveryDnoReachable(d: int)
    requires 10 <= d <= 23
    ensures exists region :: RegionDno(region) == Some(d)
  {
    var names := ["East England", "East Midlands", "London", "North Wales", "West Midlands",
                  "North East England", "North West England", "North Scotland", "South Scotland",
                  "South East England", "South England", "South Wales", "South West England", "Yorkshire"];
    assert RegionDno(names[d - 10]) == Some(d);
  }

  /** Distinct voltage labels map to distinct API codes, and every code is used. */
  lemma VoltageCodesBijective(a: string, b: string)
    requires a in VoltageLevelTable && b in VoltageLevelTable && a != b
    ensures VoltageCode(a) != VoltageCode(b)
    ensures VoltageLevelTable.Values == ApiVoltageCodes
  {
    assert VoltageLevelTable.Values == ApiVoltageCodes by {
      assert VoltageLevelTable["Low Voltage: <1kV"] == "LV";
      assert VoltageLevelTable["LV Substation: <1kV"] == "LV-Sub";
      assert VoltageLevelTable["High Voltage: <22kV"] == "HV";
    }
  }

  /**
   * The aggregate region "Scotland" is given DNO 16, the North West, and not
   * 18, the Southern Scotland DNO that its comment in the table names.
   */
  lemma ScotlandSharesNorthWestDno()
    ensures RegionDno("Scotland") == RegionDno("North West England") == Some(16)
    ensures RegionDno("South Scotland") == Some(18)
  {
  }
}
