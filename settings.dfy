/**
 * What the plugin keeps in the WordPress options table: the list of ID-based
 * animation rows under 'gsap_scroll_animations' and the class-based flag under
 * 'gsap_scroll_animations_class_based_enabled'.
 */
module Settings {
  import opened Optional

  /**
   * One stored animation row. Each key may be unset: rows written by the save
   * path have all five, rows from older data need not. Numbers are the values
   * floatval yields for them.
   */
  datatype StoredRow = StoredRow(
    id: Option<string>,
    animationType: Option<string>,
    duration: Option<real>,
    delay: Option<real>,
    easing: Option<string>)

  /** Both options, as get_option returns them (an empty list and false when absent). */
  datatype Settings = Settings(animations: seq<StoredRow>, classBasedEnabled: bool)
}
