/**
 * The render path, output_animations: turn the stored rows into the list of
 * {id, config} directives that the ID-based bootstrap script is given, or
 * decide that no script is emitted at all.
 */
module Render {
  import opened Optional
  import opened Php
  import opened Settings
  import opened PresetTable
  import opened Selection

  /** One element of the emitted JavaScript array: an element id and its from-state. */
  datatype Directive = Directive(id: string, config: map<string, Value>)

  /** The array_filter test: both the raw id and the raw type are non-empty. */
  predicate NonBlank(row: StoredRow)
    ensures NonBlank(row) ==> row.id.Some? && row.animationType.Some?
    ensures NonBlank(row) ==> row.id.value != "" && row.animationType.value != ""
  {
    !IsEmpty(row.id) && !IsEmpty(row.animationType)
  }

  function NonBlankFn(): StoredRow -> bool {
    row => NonBlank(row)
  }

  /** The row's type after sanitize_text_field, the key looked up in the preset table. */
  function SanitizedType(row: StoredRow, san: Sanitizers): string {
    san.text(row.animationType.GetOr(""))
  }

  predicate HasPreset(row: StoredRow, san: Sanitizers) {
    SanitizedType(row, san) in Presets
  }

  function HasPresetFn(san: Sanitizers): StoredRow -> bool {
    row => HasPreset(row, san)
  }

  /** The rows that reach the output: non-blank, with a sanitised type the table knows. */
  function RenderedFn(san: Sanitizers): StoredRow -> bool {
    Both(NonBlankFn(), HasPresetFn(san))
  }

  /** The preset bag of a type; rows without a preset never reach the output. */
  function PresetBag(t: string): map<string, real> {
    if t in Presets then Presets[t] else map[]
  }

  /**
   * The configuration built for a row: the preset, then duration (1 when
   * unset), then delay only when it is set and positive, then ease when an
   * easing is set.
   */
  function RowConfig(row: StoredRow, san: Sanitizers): (c: map<string, Value>)
    ensures "duration" in c && c["duration"] == Num(if row.duration.Some? then row.duration.value else 1.0)
    ensures HasPreset(row, san) ==> "opacity" in c && c["opacity"] == Num(0.0)
    ensures HasPreset(row, san) ==> ("delay" in c <==> row.delay.Some? && row.delay.value > 0.0)
    ensures "ease" in c <==> row.easing.Some?
  {
    PresetsFadeIn();
    var bag := PresetBag(SanitizedType(row, san));
    var withDuration := (map k | k in bag :: Num(bag[k]))["duration" := Num(row.duration.GetOr(1.0))];
    var withDelay :=
      if row.delay.Some? && row.delay.value > 0.0 then withDuration["delay" := Num(row.delay.value)]
      else withDuration;
    if row.easing.Some? then withDelay["ease" := Str(san.text(row.easing.value))] else withDelay
  }

  /** The directive for a row; its id is the raw id after sanitize_html_class. */
  function ToDirective(row: StoredRow, san: Sanitizers): (d: Directive)
    ensures NonBlank(row) ==> d.id == san.htmlClass(row.id.value)
    ensures HasPreset(row, san) ==> "opacity" in d.config && d.config["opacity"] == Num(0.0)
  {
    Directive(san.htmlClass(row.id.GetOr("")), RowConfig(row, san))
  }

  function ToDirectiveFn(san: Sanitizers): StoredRow -> Directive {
    row => ToDirective(row, san)
  }

  /** The directives for the stored rows, in stored order. */
  function Directives(stored: seq<StoredRow>, san: Sanitizers): (ds: seq<Directive>)
    ensures |ds| <= |stored|
  {
    FilterMap(stored, RenderedFn(san), ToDirectiveFn(san))
  }

  /**
   * output_animations. None means that no script is written; otherwise the
   * script is given exactly the directives of the stored rows, and never an
   * empty array.
   */
  method OutputAnimations(stored: seq<StoredRow>, san: Sanitizers) returns (script: Option<seq<Directive>>)
    ensures script.None? <==> Directives(stored, san) == []
    ensures script.Some? ==> script.value == Directives(stored, san)
  {
    if |stored| == 0 {
      return None;
    }
    var animations := Filter(stored, NonBlankFn());
    FilterThenFilterMap(stored, NonBlankFn(), HasPresetFn(san), ToDirectiveFn(san));
    if |animations| == 0 {
      return None;
    }

    var jsAnimations: seq<Directive> := [];
    var i := 0;
    while i < |animations|
      invariant 0 <= i <= |animations|
      invariant jsAnimations == FilterMap(animations[..i], HasPresetFn(san), ToDirectiveFn(san))
    {
      var animation := animations[i];
      var id := san.htmlClass(animation.id.GetOr(""));
      var animationType := san.text(animation.animationType.GetOr(""));
      if animationType in Presets {
        var bag := Presets[animationType];
        var config := map k | k in bag :: Num(bag[k]);
        config := config["duration" := Num(if animation.duration.Some? then animation.duration.value else 1.0)];
        if animation.delay.Some? && animation.delay.value > 0.0 {
          config := config["delay" := Num(animation.delay.value)];
        }
        if animation.easing.Some? {
          config := config["ease" := Str(san.text(animation.easing.value))];
        }
        jsAnimations := jsAnimations + [Directive(id, config)];
      }
      assert animations[..i + 1][..i] == animations[..i];
      i := i + 1;
    }
    assert animations[..i] == animations;

    if |jsAnimations| == 0 {
      return None;
    }
    return Some(jsAnimations);
  }

  /**
   * The output holds exactly the stored rows whose raw id and raw type are
   * non-empty and whose sanitised type is a preset, each once, in stored order,
   * as the directive built from that row.
   */
  lemma {:induction false} RenderedRows(stored: seq<StoredRow>, san: Sanitizers)
    ensures Ascending(Positions(stored, RenderedFn(san)))
    ensures forall i :: 0 <= i < |stored| ==>
              (i in Positions(stored, RenderedFn(san)) <==>
                 !IsEmpty(stored[i].id) && !IsEmpty(stored[i].animationType) &&
                 san.text(stored[i].animationType.value) in Presets)
    ensures forall k :: 0 <= k < |Positions(stored, RenderedFn(san))| ==>
              NonBlank(stored[Positions(stored, RenderedFn(san))[k]]) &&
              HasPreset(stored[Positions(stored, RenderedFn(san))[k]], san)
    ensures |Directives(stored, san)| == |Positions(stored, RenderedFn(san))|
    ensures forall k :: 0 <= k < |Directives(stored, san)| ==>
              var row := stored[Positions(stored, RenderedFn(san))[k]];
              Directives(stored, san)[k] == Directive(san.htmlClass(row.id.value), RowConfig(row, san))
  {
    PositionsExact(stored, RenderedFn(san));
    FilterMapAt(stored, RenderedFn(san), ToDirectiveFn(san));
  }

  /**
   * The configuration of a row with a preset is the preset bag plus duration
   * (the stored one, or 1), plus delay exactly when a positive delay is
   * stored, plus ease exactly when an easing is stored, and nothing else.
   */
  lemma ConfigContents(row: StoredRow, san: Sanitizers)
    requires HasPreset(row, san)
    ensures var bag, c := Presets[SanitizedType(row, san)], RowConfig(row, san);
      && c.Keys == bag.Keys + {"duration"}
                 + (if row.delay.Some? && row.delay.value > 0.0 then {"delay"} else {})
                 + (if row.easing.Some? then {"ease"} else {})
      && (forall k :: k in bag ==> c[k] == Num(bag[k]))
      && c["duration"] == Num(if row.duration.Some? then row.duration.value else 1.0)
      && ("delay" in c <==> row.delay.Some? && row.delay.value > 0.0)
      && ("delay" in c ==> c["delay"] == Num(row.delay.value))
      && ("ease" in c <==> row.easing.Some?)
      && ("ease" in c ==> c["ease"] == Str(san.text(row.easing.value)))
      && c["opacity"] == Num(0.0)
  {
    PresetsFadeIn();
  }

  /** When no stored row is non-blank, nothing is emitted. */
  lemma {:induction false} AllBlankRendersNothing(stored: seq<StoredRow>, san: Sanitizers)
    requires forall i :: 0 <= i < |stored| ==> IsEmpty(stored[i].id) || IsEmpty(stored[i].animationType)
    ensures Directives(stored, san) == []
  {
    NothingPasses(stored, RenderedFn(san), ToDirectiveFn(san));
  }
}
