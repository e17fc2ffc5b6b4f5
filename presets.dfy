/** The table of animation presets in output_animations: the state each type animates from. */
module PresetTable {

  /** A value in an emitted configuration object: a number or a string. */
  datatype Value = Num(n: real) | Str(s: string)

  const Presets: map<string, map<string, real>> := map[
    "fadeIn"     := map["opacity" := 0.0],
    "fadeUp"     := map["opacity" := 0.0, "y" := 60.0],
    "fadeDown"   := map["opacity" := 0.0, "y" := -60.0],
    "fadeLeft"   := map["opacity" := 0.0, "x" := 60.0],
    "fadeRight"  := map["opacity" := 0.0, "x" := -60.0],
    "slideUp"    := map["opacity" := 0.0, "y" := 100.0],
    "slideDown"  := map["opacity" := 0.0, "y" := -100.0],
    "slideLeft"  := map["opacity" := 0.0, "x" := 100.0],
    "slideRight" := map["opacity" := 0.0, "x" := -100.0],
    "scaleIn"    := map["opacity" := 0.0, "scale" := 0.8],
    "zoomIn"     := map["opacity" := 0.0, "scale" := 1.2],
    "rotateIn"   := map["opacity" := 0.0, "rotation" := 180.0],
    "flipIn"     := map["opacity" := 0.0, "rotationY" := 90.0]
  ]

  /** The names of the thirteen preset types, as the admin form lists them. */
  const PresetNames: seq<string> := [
    "fadeIn", "fadeUp", "fadeDown", "fadeLeft", "fadeRight",
    "slideUp", "slideDown", "slideLeft", "slideRight",
    "scaleIn", "zoomIn", "rotateIn", "flipIn"]

  /** The table has exactly the thirteen types, each once. */
  lemma PresetCount()
    ensures Presets.Keys == set t | t in PresetNames
    ensures |Presets| == 13
  {
    assert forall i, j :: 0 <= i < j < |PresetNames| ==> PresetNames[i] != PresetNames[j];
    DistinctCount(PresetNames);
  }

  /** A sequence without repeats has as many distinct elements as it is long. */
  lemma {:induction false} DistinctCount(s: seq<string>)
    requires forall i, j :: 0 <= i < j < |s| ==> s[i] != s[j]
    ensures |set x | x in s| == |s|
  {
    if |s| > 0 {
      var t := s[..|s| - 1];
      DistinctCount(t);
      assert (set x | x in s) == (set x | x in t) + {s[|s| - 1]};
    }
  }

  /**
   * Every preset starts fully transparent and sets none of the keys the row's
   * timing adds afterwards.
   */
  lemma PresetsFadeIn()
    ensures forall t :: t in Presets ==> "opacity" in Presets[t] && Presets[t]["opacity"] == 0.0
    ensures forall t :: t in Presets ==>
              "duration" !in Presets[t] && "delay" !in Presets[t] && "ease" !in Presets[t]
  {
  }
}
