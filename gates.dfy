/**
 * The decisions that control what a page view loads and emits:
 * should_load_gsap, the stylesheet condition of enqueue_gsap and the checks
 * at the top of output_class_animations.
 */
module Gates {
  import opened Optional
  import opened Php
  import opened Settings

  /**
   * The request's view of WordPress: is_singular(), and the global post's
   * content when isset($post->post_content) holds.
   */
  datatype Page = Page(singular: bool, content: Option<string>)

  const Marker: string := "gsap-"

  /** The post content is set and contains the marker. */
  predicate HasMarker(page: Page)
    ensures HasMarker(page) ==> page.content.Some? && |page.content.value| >= 5
  {
    page.content.Some? && Contains(page.content.value, Marker)
  }

  /**
   * should_load_gsap: any stored row at all, before any filtering; or the
   * class-based flag on a singular page whose content carries the marker.
   */
  function ShouldLoadGsap(settings: Settings, page: Page): (load: bool)
    ensures |settings.animations| > 0 ==> load
    ensures |settings.animations| == 0 ==>
              (load <==> settings.classBasedEnabled && page.singular && HasMarker(page))
  {
    if |settings.animations| > 0 then true
    else if settings.classBasedEnabled && page.singular then
      page.content.Some? && Contains(page.content.value, Marker)
    else false
  }

  /**
   * enqueue_gsap returns early unless should_load_gsap holds, so the two
   * library scripts are enqueued exactly when it does; the class-based
   * stylesheet is added on top when the flag is on.
   */
  function EnqueuesStylesheet(settings: Settings, page: Page): (style: bool)
    ensures style <==> settings.classBasedEnabled && (|settings.animations| > 0 || (page.singular && HasMarker(page)))
  {
    if !ShouldLoadGsap(settings, page) then false
    else settings.classBasedEnabled
  }

  /**
   * output_class_animations writes the class-based script when the flag is
   * on, the page is singular, its content carries the marker and
   * should_load_gsap holds; the last check always holds once the others do.
   */
  function EmitsClassScript(settings: Settings, page: Page): (emit: bool)
    ensures emit <==> settings.classBasedEnabled && page.singular && HasMarker(page)
  {
    if !settings.classBasedEnabled then false
    else if !page.singular then false
    else if !(page.content.Some? && Contains(page.content.value, Marker)) then false
    else ShouldLoadGsap(settings, page)
  }
}
