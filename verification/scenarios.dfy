/**
 * Saved scenarios and the comparison mode. A scenario is a snapshot of the
 * sidebar at the moment it is saved; the session keeps the scenarios by name,
 * in the order their names were first saved, together with the comparison
 * toggle and the scenario chosen for comparison.
 */
module Scenarios {
  import opened Wrappers
  import opened PowerChain
  import opened Sizing
  import opened Kpis
  import opened Comparison

  /** The two mounting options; they select the cell-temperature model parameters. */
  datatype MountType = OpenRack | RoofMounted

  /** The sidebar inputs a scenario records. Losses and efficiency are fractions (percent / 100). */
  datatype Inputs = Inputs(
    location: Option<string>,
    lat: real,
    lon: real,
    tilt: int,
    azimuth: int,
    moduleWp: real,
    nSeries: int,
    nParallel: int,
    numInv: int,
    invRating: real,
    invEfficiency: real,
    mount: MountType,
    losses: Losses,
    years: int,
    degRate: real)

  /** The limits the sidebar widgets impose on their values. */
  predicate SidebarBounds(i: Inputs)
  {
    && 0 <= i.tilt <= 90 && 0 <= i.azimuth <= 360
    && 100.0 <= i.moduleWp <= 800.0 && 1 <= i.nSeries <= 50 && 1 <= i.nParallel <= 10000
    && 1 <= i.numInv <= 100 && 1.0 <= i.invRating <= 5000.0
    && 0.9 <= i.invEfficiency <= 0.995
    && 0.0 <= i.losses.soiling <= 0.2 && 0.0 <= i.losses.dc <= 0.1
    && 0.0 <= i.losses.ac <= 0.1 && 0.0 <= i.losses.avail <= 0.1
    && 1 <= i.years <= 40 && 0.0 <= i.degRate <= 0.02
  }

  /** A saved scenario: the inputs and the capacities derived from them at save time. */
  datatype Scenario = Scenario(inputs: Inputs, totalDcKw: real, totalAcKw: real, dcAcRatio: real)

  /** The record the save button stores for the current sidebar. */
  function Snapshot(i: Inputs): (s: Scenario)
    ensures s.inputs == i
    ensures s.totalAcKw > 0.0 ==> s.dcAcRatio * s.totalAcKw == s.totalDcKw
  {
    var dc := DcCapacity(i.nSeries, i.nParallel, i.moduleWp);
    var ac := AcCapacity(i.numInv, i.invRating);
    Scenario(i, dc, ac, DcAcRatio(dc, ac))
  }

  /**
   * The plant the active run simulates: the efficiency and losses of the
   * sidebar, and capacities of at least one module and one inverter.
   */
  function LivePlant(i: Inputs): (p: Plant)
    ensures p.invEff == i.invEfficiency && p.losses == i.losses
    ensures i.nSeries >= 1 && i.nParallel >= 1 && i.moduleWp > 0.0 ==> p.dcKw >= i.moduleWp / 1000.0
    ensures i.numInv >= 1 && i.invRating > 0.0 ==> p.acLimit >= i.invRating
  {
    Plant(DcCapacity(i.nSeries, i.nParallel, i.moduleWp), AcCapacity(i.numInv, i.invRating), i.invEfficiency, i.losses)
  }

  /**
   * The plant a comparison run simulates, read from the saved record: for a
   * record the save button made, the plant that was live at that moment.
   */
  function PlantOf(s: Scenario): (p: Plant)
    ensures p.invEff == s.inputs.invEfficiency && p.losses == s.inputs.losses
    ensures s == Snapshot(s.inputs) ==> p == LivePlant(s.inputs)
  {
    Plant(s.totalDcKw, s.totalAcKw, s.inputs.invEfficiency, s.inputs.losses)
  }

  /** Re-simulating a saved scenario simulates the plant that was live when it was saved. */
  lemma SnapshotReproducesLivePlant(i: Inputs)
    ensures PlantOf(Snapshot(i)) == LivePlant(i)
  {
  }

  /**
   * Within the sidebar's limits the plant is well formed: loss fractions in
   * [0,1], efficiency in (0,1], at least 0.1 kWp and 1 kWac, the waterfall's
   * grossing-up divisions are defined, and the degradation rate is a fraction.
   */
  lemma SidebarKeepsPlantBounded(i: Inputs)
    requires SidebarBounds(i)
    ensures Bounded(LivePlant(i))
    ensures LivePlant(i).dcKw >= 0.1 && LivePlant(i).acLimit >= 1.0
    ensures i.losses.ac != 1.0 && i.losses.avail != 1.0
    ensures 0.0 <= i.degRate <= 1.0
  {
    assert i.moduleWp / 1000.0 >= 0.1;
  }

  /**
   * The comparison view: present when comparison mode names a target and its
   * run succeeded; absent (single-scenario view) when there is no target or the
   * comparison run failed.
   */
  function ComparisonView(live: Inputs, liveHours: seq<Hour>, target: Option<Scenario>, targetRun: Option<seq<Hour>>): (r: Option<ComparisonFigures>)
    requires SidebarBounds(live)
    requires target.Some? ==> SidebarBounds(target.value.inputs) && target.value == Snapshot(target.value.inputs)
    ensures r.Some? <==> target.Some? && targetRun.Some?
  {
    SidebarKeepsPlantBounded(live);
    if target.Some? && targetRun.Some? then
      var s := target.value;
      SidebarKeepsPlantBounded(s.inputs);
      Some(Compare(AnnualKpis(LivePlant(live), liveHours), LivePlant(live).dcKw,
                   AnnualKpis(PlantOf(s), targetRun.value), s.totalDcKw, live.years))
    else
      None
  }

  /**
   * Saving the current sidebar and comparing against it over the same weather
   * year shows no difference in PR, energy or revenue.
   */
  lemma SavedCopyComparesNeutral(live: Inputs, hours: seq<Hour>)
    requires SidebarBounds(live)
    ensures var r := ComparisonView(live, hours, Some(Snapshot(live)), Some(hours));
      && r.Some?
      && r.value.prDiff == 0.0 && r.value.energyDiffMwh == 0.0
      && r.value.annualRevenueDiff == 0.0 && r.value.horizonRevenueDiff == 0.0
  {
    SnapshotReproducesLivePlant(live);
    SidebarKeepsPlantBounded(live);
    SelfComparisonIsNeutral(AnnualKpis(LivePlant(live), hours), LivePlant(live).dcKw, live.years);
  }

  /** Distinct names are as many as their set. */
  lemma {:induction false} DistinctCardinality(s: seq<string>)
    requires forall i, j :: 0 <= i < j < |s| ==> s[i] != s[j]
    ensures |set n | n in s| == |s|
  {
    if |s| > 0 {
      var rest := s[1..];
      DistinctCardinality(rest);
      assert (set n | n in s) == (set n | n in rest) + {s[0]};
    }
  }

  /** The per-session scenario store and comparison selection. */
  class Session {
    var scenarios: map<string, Scenario>
    /** The scenario names in the order they were first saved (the dictionary's key order). */
    var names: seq<string>
    var comparisonMode: bool
    var selected: Option<string>

    ghost predicate Valid()
      reads this
    {
      && (forall n :: n in scenarios <==> n in names)
      && (forall i, j :: 0 <= i < j < |names| ==> names[i] != names[j])
      && (forall n :: n in scenarios ==>
            SidebarBounds(scenarios[n].inputs) && scenarios[n] == Snapshot(scenarios[n].inputs))
      && (comparisonMode ==> selected.Some? && selected.value in scenarios)
    }

    /** A new session: no scenarios, comparison mode off, nothing selected. */
    constructor ()
      ensures Valid()
      ensures scenarios == map[] && names == [] && !comparisonMode && selected == None
    {
      scenarios := map[];
      names := [];
      comparisonMode := false;
      selected := None;
    }

    /**
     * Saves the current sidebar under `name`. An existing scenario of that name
     * is replaced and keeps its place in the list; a new name goes last.
     */
    method Save(name: string, live: Inputs)
      requires Valid()
      requires SidebarBounds(live)
      modifies this
      ensures Valid()
      ensures scenarios == old(scenarios)[name := Snapshot(live)]
      ensures names == if name in old(scenarios) then old(names) else old(names) + [name]
      ensures comparisonMode == old(comparisonMode) && selected == old(selected)
    {
      if name !in scenarios {
        names := names + [name];
      }
      scenarios := scenarios[name := Snapshot(live)];
    }

    /** The names the sidebar lists, as many as the count it shows. */
    function SavedNames(): (r: seq<string>)
      reads this
      requires Valid()
      ensures |r| == |scenarios|
      ensures forall n :: n in r <==> n in scenarios
    {
      DistinctCardinality(names);
      assert scenarios.Keys == set n | n in names;
      names
    }

    /**
     * The comparison controls, shown only while some scenario is saved: the
     * checkbox sets comparison mode, and while it is on the select box picks
     * the name at position `choice` of the list.
     */
    method ShowComparisonControls(enable: bool, choice: nat)
      requires Valid()
      requires |scenarios| > 0 && enable ==> choice < |names|
      modifies this
      ensures Valid()
      ensures scenarios == old(scenarios) && names == old(names)
      ensures |old(scenarios)| == 0 ==> comparisonMode == old(comparisonMode) && selected == old(selected)
      ensures |old(scenarios)| > 0 ==> comparisonMode == enable
      ensures |old(scenarios)| > 0 && enable ==> selected == Some(names[choice])
      ensures |old(scenarios)| > 0 && !enable ==> selected == old(selected)
    {
      if |scenarios| > 0 {
        comparisonMode := enable;
        if enable {
          selected := Some(names[choice]);
        }
      }
    }

    /** Clears every scenario and turns comparison mode off; the last selection is left in place. */
    method ClearAll()
      requires Valid()
      modifies this
      ensures Valid()
      ensures scenarios == map[] && names == [] && !comparisonMode && selected == old(selected)
    {
      scenarios := map[];
      names := [];
      comparisonMode := false;
    }

    /**
     * The scenario to compare against: present exactly when comparison mode is
     * on, and then the selected name is always a saved one.
     */
    function ComparisonTarget(): (r: Option<Scenario>)
      reads this
      requires Valid()
      ensures r.Some? <==> comparisonMode
      ensures r.Some? ==> selected.Some? && selected.value in scenarios && r.value == scenarios[selected.value]
      ensures r.Some? ==> SidebarBounds(r.value.inputs) && r.value == Snapshot(r.value.inputs)
    {
      if comparisonMode && selected.Some? then Some(scenarios[selected.value]) else None
    }
  }
}
