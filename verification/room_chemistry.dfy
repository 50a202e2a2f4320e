/** `RoomChemistry`: the options of one room's chemistry. The optional
    series start out absent (`None`) and are filled in by the builders. */
module RoomChemistryRecord {
  import opened Wrappers
  import opened TimeDependent
  import opened Bracketed
  import opened Surfaces

  datatype RoomChemistry = RoomChemistry(
    volumeInM3: real,
    surfAreaInM2: real,
    lightType: string,
    glassType: string,
    composition: SurfaceComposition,
    tempInKelvin: Option<TimeDependentValue>,
    rhInPercent: Option<TimeDependentValue>,
    airchangeInPerSecond: Option<TimeDependentValue>,
    lightSwitch: Option<TimeDependentValue>,
    emissions: Option<seq<(string, Option<TimeBracketedValue>)>>,
    nAdults: Option<TimeDependentValue>,
    nChildren: Option<TimeDependentValue>)

  /** The constructor: the five required fields, every optional one absent. */
  function NewRoom(volume: real, surfArea: real, lightType: string, glassType: string,
                   composition: SurfaceComposition): (r: RoomChemistry)
    ensures r.volumeInM3 == volume && r.surfAreaInM2 == surfArea && r.composition == composition
    ensures r.lightType == lightType && r.glassType == glassType
    ensures r.tempInKelvin.None? && r.rhInPercent.None? && r.airchangeInPerSecond.None? && r.lightSwitch.None?
    ensures r.emissions.None? && r.nAdults.None? && r.nChildren.None?
  {
    RoomChemistry(volume, surfArea, lightType, glassType, composition, None, None, None, None, None, None, None)
  }

  /** `surface_area_dictionary()`: the room's surface area shared out among
      the materials of its composition, one entry per material. */
  function RoomSurfaceAreas(r: RoomChemistry): (d: seq<(string, real)>)
    ensures |d| == |Keys|
    ensures forall i :: 0 <= i < |d| ==> d[i].0 == Keys[i] && d[i].1 == r.surfAreaInM2 * Percentages(r.composition)[i] / 100.0
  {
    SurfaceAreaDictionary(r.composition, r.surfAreaInM2)
  }

  /** For a room whose composition was accepted, the shares add back up to
      the room's surface area, up to the composition's tolerance. */
  lemma RoomAreasSumToSurfaceArea(r: RoomChemistry)
    requires Acceptable(r.composition) && r.surfAreaInM2 >= 0.0
    ensures r.surfAreaInM2 - r.surfAreaInM2 * Tolerance / 100.0 <= DictTotal(RoomSurfaceAreas(r))
    ensures DictTotal(RoomSurfaceAreas(r)) <= r.surfAreaInM2 + r.surfAreaInM2 * Tolerance / 100.0
  {
    DictionarySumsToTotal(r.composition, r.surfAreaInM2);
  }
}
