/** The editor's control panel: the chosen gradient, the species and the time
    slider, and the recolouring of every room from the simulation results. */
module ControlPanel {
  import opened Wrappers
  import opened GraphModel
  import opened Colors
  import opened ViewItems

  /** The species offered initially in the editable drop-down. */
  const DefaultSpecies: seq<string> := ["", "O3", "CO"]

  class Panel {
    var gradientName: string
    var speciesItems: seq<string>
    var species: string
    var time: int

    /** The brush `update_node_colors` gives room `n`: dark grey without results
        or species; otherwise the room's record name is looked up, which raises
        AttributeError on a room with no record. */
    function BrushFor(results: Option<Results>, n: NodeItem): (r: Result<Color>)
      reads this`gradientName, this`species, this`time, n`model, (if n.model == null then {} else {n.model})`name
      ensures results.None? || species == "" ==> r == Ok(DarkGray)
      ensures results.Some? && species != "" && n.model == null ==> r == Err("AttributeError")
    {
      if results.None? || species == "" then Ok(DarkGray)
      else if n.model == null then Err("AttributeError")
      else NodeColor(results, species, GradientColors(gradientName), time as real, n.model.name)
    }

    /** The panel as first shown: the first gradient, an empty species and the
        slider at 0; the initial recolouring paints every room dark grey. */
    constructor (nodes: seq<NodeItem>)
      modifies nodes`brush
      ensures gradientName == "ironbow" && speciesItems == DefaultSpecies && species == "" && time == 0
      ensures forall i :: 0 <= i < |nodes| ==> nodes[i].brush == DarkGray
    {
      gradientName := "ironbow";
      speciesItems := DefaultSpecies;
      species := "";
      time := 0;
      new;
      var r := UpdateNodeColors(nodes, None);
    }

    /** `update_node_colors`: paints the rooms in scene order. Every room gets
        the brush `BrushFor` gives it unless one raises, in which case the rooms
        before it are painted, the rooms from it on that are not among them keep
        their brush, and its error propagates. */
    method UpdateNodeColors(nodes: seq<NodeItem>, results: Option<Results>) returns (r: Result<()>)
      modifies nodes`brush
      ensures r.Ok? <==> forall i :: 0 <= i < |nodes| ==> BrushFor(results, nodes[i]).Ok?
      ensures r.Ok? ==> forall i :: 0 <= i < |nodes| ==> BrushFor(results, nodes[i]) == Ok(nodes[i].brush)
      ensures r.Err? ==> exists k :: (0 <= k < |nodes| && BrushFor(results, nodes[k]) == Err(r.msg) &&
        (forall j :: 0 <= j < k ==> BrushFor(results, nodes[j]) == Ok(nodes[j].brush)) &&
        forall i :: k <= i < |nodes| && nodes[i] !in nodes[..k] ==> nodes[i].brush == old(nodes[i].brush))
      ensures forall i :: 0 <= i < |nodes| ==> nodes[i].model == old(nodes[i].model)
    {
      var i := 0;
      while i < |nodes|
        invariant 0 <= i <= |nodes|
        invariant forall j :: 0 <= j < i ==> BrushFor(results, nodes[j]) == Ok(nodes[j].brush)
        invariant forall j :: i <= j < |nodes| && nodes[j] !in nodes[..i] ==> nodes[j].brush == old(nodes[j].brush)
      {
        var c := BrushFor(results, nodes[i]);
        if c.Err? {
          return Err(c.msg);
        }
        nodes[i].brush := c.value;
        assert nodes[..i + 1] == nodes[..i] + [nodes[i]];
        i := i + 1;
      }
      return Ok(());
    }

    /** `add_species_if_new`: a typed species that is non-empty and not yet
        offered joins the drop-down; the rooms are recoloured either way. */
    method AddSpeciesIfNew(nodes: seq<NodeItem>, results: Option<Results>) returns (r: Result<()>)
      modifies this`speciesItems, nodes`brush
      ensures species != "" && species !in old(speciesItems) ==> speciesItems == old(speciesItems) + [species]
      ensures species == "" || species in old(speciesItems) ==> speciesItems == old(speciesItems)
      ensures r.Ok? ==> forall i :: 0 <= i < |nodes| ==> BrushFor(results, nodes[i]) == Ok(nodes[i].brush)
      ensures r.Err? ==> exists k :: (0 <= k < |nodes| && BrushFor(results, nodes[k]) == Err(r.msg) &&
        (forall j :: 0 <= j < k ==> BrushFor(results, nodes[j]) == Ok(nodes[j].brush)) &&
        forall i :: k <= i < |nodes| && nodes[i] !in nodes[..k] ==> nodes[i].brush == old(nodes[i].brush))
    {
      if species != "" && species !in speciesItems {
        speciesItems := speciesItems + [species];
      }
      r := UpdateNodeColors(nodes, results);
    }

    /** `on_time_changed`: the slider moved to `value`; the rooms are recoloured
        at the new time. */
    method OnTimeChanged(value: int, nodes: seq<NodeItem>, results: Option<Results>) returns (r: Result<()>)
      modifies this`time, nodes`brush
      ensures time == value
      ensures r.Ok? ==> forall i :: 0 <= i < |nodes| ==> BrushFor(results, nodes[i]) == Ok(nodes[i].brush)
      ensures r.Err? ==> exists k :: (0 <= k < |nodes| && BrushFor(results, nodes[k]) == Err(r.msg) &&
        (forall j :: 0 <= j < k ==> BrushFor(results, nodes[j]) == Ok(nodes[j].brush)) &&
        forall i :: k <= i < |nodes| && nodes[i] !in nodes[..k] ==> nodes[i].brush == old(nodes[i].brush))
    {
      time := value;
      r := UpdateNodeColors(nodes, results);
    }

    /** A new choice in the gradient drop-down recolours the rooms. */
    method SelectGradient(name: string, nodes: seq<NodeItem>, results: Option<Results>) returns (r: Result<()>)
      requires name in GradientNames
      modifies this`gradientName, nodes`brush
      ensures gradientName == name
      ensures r.Ok? ==> forall i :: 0 <= i < |nodes| ==> BrushFor(results, nodes[i]) == Ok(nodes[i].brush)
      ensures r.Err? ==> exists k :: (0 <= k < |nodes| && BrushFor(results, nodes[k]) == Err(r.msg) &&
        (forall j :: 0 <= j < k ==> BrushFor(results, nodes[j]) == Ok(nodes[j].brush)) &&
        forall i :: k <= i < |nodes| && nodes[i] !in nodes[..k] ==> nodes[i].brush == old(nodes[i].brush))
    {
      gradientName := name;
      r := UpdateNodeColors(nodes, results);
    }
  }

  /** With non-negative data for the species in every room and every room bound
      to a record, recolouring never fails and every brush is a valid colour. */
  lemma RecolourSucceeds(p: Panel, results: Results, nodes: seq<NodeItem>)
    requires |results| > 0 && p.species != ""
    requires forall i :: 0 <= i < |results| ==> HasData(results[i].1, p.species)
    requires forall i, x :: 0 <= i < |results| && x in Column(results[i].1, p.species) ==> x >= 0.0
    requires forall i :: 0 <= i < |nodes| ==> nodes[i].model != null
    ensures forall i :: 0 <= i < |nodes| ==> p.BrushFor(Some(results), nodes[i]).Ok?
    ensures forall i :: 0 <= i < |nodes| ==> ValidColor(p.BrushFor(Some(results), nodes[i]).value)
  {
    forall i | 0 <= i < |nodes|
      ensures p.BrushFor(Some(results), nodes[i]).Ok? && ValidColor(p.BrushFor(Some(results), nodes[i]).value)
    {
      NodeColorDefined(results, p.species, p.gradientName, p.time as real, nodes[i].model.name);
    }
  }
}
