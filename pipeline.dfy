/**
 * Properties that span the save path, the render path and the gates, and the
 * worked examples of the plugin's behaviour.
 */
module Pipeline {
  import opened Optional
  import opened Php
  import opened Settings
  import opened PresetTable
  import opened Selection
  import opened Render
  import opened Save
  import opened Gates

  /** The configuration facts that hold for every row a submission can save. */
  ghost predicate SaneConfig(c: map<string, Value>) {
    && "duration" in c && c["duration"].Num? && c["duration"].n >= 0.1
    && "ease" in c && "opacity" in c && c["opacity"] == Num(0.0)
    && ("delay" in c ==> c["delay"].Num? && c["delay"].n > 0.0)
  }

  /** A complete, in-bounds row with a preset renders to a sane configuration. */
  lemma SavedRowRenders(row: StoredRow, san: Sanitizers)
    requires HasPreset(row, san)
    requires row.duration.Some? && row.duration.value >= 0.1 && row.easing.Some?
    ensures SaneConfig(RowConfig(row, san))
  {
    ConfigContents(row, san);
  }

  /**
   * Rows saved from the admin form render with a duration of at least 0.1,
   * an ease, opacity 0 and, when present, a positive delay; and there are
   * never more directives than non-empty submitted ids.
   */
  lemma SavedRowsRender(post: Post, san: Sanitizers)
    ensures |Directives(SavedRows(post, san), san)| <= |Positions(IdEntries(post), KeptFn())|
    ensures forall k :: 0 <= k < |Directives(SavedRows(post, san), san)| ==>
              SaneConfig(Directives(SavedRows(post, san), san)[k].config)
  {
    var saved := SavedRows(post, san);
    SavedRowsExact(post, san);
    SavedRowsInBounds(post, san);
    RenderedRows(saved, san);
    var at := Positions(saved, RenderedFn(san));
    forall k | 0 <= k < |Directives(saved, san)|
      ensures SaneConfig(Directives(saved, san)[k].config)
    {
      SavedRowRenders(saved[at[k]], san);
    }
  }

  /** Whenever the ID-based script has something to emit, the library is loaded. */
  lemma IdScriptImpliesLoaded(settings: Settings, page: Page, san: Sanitizers)
    ensures Directives(settings.animations, san) != [] ==> ShouldLoadGsap(settings, page)
  {
  }

  /** Whenever the class-based script is emitted, the library is loaded. */
  lemma ClassScriptImpliesLoaded(settings: Settings, page: Page)
    ensures EmitsClassScript(settings, page) ==> ShouldLoadGsap(settings, page)
  {
  }

  /**
   * The gate looks at the stored list before filtering: blank rows alone,
   * with the class-based flag off, load the library although neither script
   * is emitted.
   */
  lemma BlankRowsStillLoad(settings: Settings, page: Page, san: Sanitizers)
    requires |settings.animations| > 0 && !settings.classBasedEnabled
    requires forall i :: 0 <= i < |settings.animations| ==>
               IsEmpty(settings.animations[i].id) || IsEmpty(settings.animations[i].animationType)
    ensures ShouldLoadGsap(settings, page)
    ensures Directives(settings.animations, san) == []
    ensures !EmitsClassScript(settings, page)
  {
    AllBlankRendersNothing(settings.animations, san);
  }

  /** With nothing stored and the flag off, no asset and no script is emitted. */
  lemma NothingConfigured(page: Page, san: Sanitizers)
    ensures var settings := Settings([], false);
      && !ShouldLoadGsap(settings, page)
      && !EnqueuesStylesheet(settings, page)
      && Directives(settings.animations, san) == []
      && !EmitsClassScript(settings, page)
  {
  }

  /**
   * With the flag on, nothing stored and a singular page whose content uses
   * the class gsap-fade-up, the library and the class-based script are
   * emitted, but no ID-based script.
   */
  lemma ClassOnlyPage(prefix: string, suffix: string, san: Sanitizers)
    ensures var settings, page := Settings([], true), Page(true, Some(prefix + "gsap-fade-up" + suffix));
      && ShouldLoadGsap(settings, page)
      && EnqueuesStylesheet(settings, page)
      && EmitsClassScript(settings, page)
      && Directives(settings.animations, san) == []
  {
    var content := prefix + "gsap-fade-up" + suffix;
    assert content[|prefix|..|prefix| + |Marker|] == Marker;
    assert OccursAt(content, Marker, |prefix|);
  }

  /**
   * The row {id hero, type fadeUp, duration 1.2, delay 0.3, easing power2.out}
   * is emitted as {opacity 0, y 60, duration 1.2, delay 0.3, ease power2.out}
   * when the sanitisers leave those strings alone.
   */
  lemma HeroFadeUp(san: Sanitizers)
    requires san.htmlClass("hero") == "hero" && san.text("fadeUp") == "fadeUp"
    requires san.text("power2.out") == "power2.out"
    ensures Directives([StoredRow(Some("hero"), Some("fadeUp"), Some(1.2), Some(0.3), Some("power2.out"))], san)
         == [Directive("hero", map["opacity" := Num(0.0), "y" := Num(60.0), "duration" := Num(1.2),
                                   "delay" := Num(0.3), "ease" := Str("power2.out")])]
  {
    var row := StoredRow(Some("hero"), Some("fadeUp"), Some(1.2), Some(0.3), Some("power2.out"));
    assert [row][..0] == [];
    assert RenderedFn(san)(row);
    assert RowConfig(row, san) == map["opacity" := Num(0.0), "y" := Num(60.0), "duration" := Num(1.2),
                                      "delay" := Num(0.3), "ease" := Str("power2.out")];
  }
}
