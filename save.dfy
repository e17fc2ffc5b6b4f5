/**
 * The save path of render_admin_page: the submitted form's parallel arrays
 * become the stored list of animation rows and the class-based flag.
 */
module Save {
  import opened Optional
  import opened Php
  import opened Settings
  import opened Selection

  /**
   * The submitted form. animationIds is $_POST['animation_id'] when it is set
   * and an array, as (key, value) entries in array order; the other row
   * fields are looked up by that key and may lack it.
   */
  datatype Post = Post(
    submitted: bool,
    animationIds: Option<seq<(int, string)>>,
    animationTypes: map<int, string>,
    durations: map<int, string>,
    delays: map<int, string>,
    easings: map<int, string>,
    classBasedEnabled: bool)

  /** An entry is saved when its raw id is non-empty in PHP's sense. */
  function KeptFn(): ((int, string)) -> bool {
    (entry: (int, string)) => !EmptyString(entry.1)
  }

  /** The stored row built for the id entry at key index. */
  function SavedRow(entry: (int, string), post: Post, san: Sanitizers): (row: StoredRow)
    ensures row.id.Some? && row.animationType.Some? && row.duration.Some? && row.delay.Some? && row.easing.Some?
    ensures row.duration.value >= 0.1 && row.delay.value >= 0.0
  {
    var index := entry.0;
    var duration := if index in post.durations then san.floatval(post.durations[index]) else 1.0;
    var delay := if index in post.delays then san.floatval(post.delays[index]) else 0.0;
    var easing := if index in post.easings then san.text(post.easings[index]) else "power1.out";
    var animationType := if index in post.animationTypes then san.text(post.animationTypes[index]) else "fadeIn";
    StoredRow(Some(san.text(entry.1)), Some(animationType), Some(Max(0.1, duration)), Some(Max(0.0, delay)), Some(easing))
  }

  function SavedRowFn(post: Post, san: Sanitizers): ((int, string)) -> StoredRow {
    (entry: (int, string)) => SavedRow(entry, post, san)
  }

  /** The id entries of the submission; none when the field is missing or not an array. */
  function IdEntries(post: Post): seq<(int, string)> {
    post.animationIds.GetOr([])
  }

  /** The rows a submission saves, in submission order. */
  function SavedRows(post: Post, san: Sanitizers): (rows: seq<StoredRow>)
    ensures |rows| <= |IdEntries(post)|
  {
    FilterMap(IdEntries(post), KeptFn(), SavedRowFn(post, san))
  }

  /** The foreach loop over $_POST['animation_id'] that appends the rows to save. */
  method SanitizeRows(post: Post, san: Sanitizers) returns (animations: seq<StoredRow>)
    ensures animations == SavedRows(post, san)
  {
    animations := [];
    if post.animationIds.Some? {
      var ids := post.animationIds.value;
      var i := 0;
      while i < |ids|
        invariant 0 <= i <= |ids|
        invariant animations == FilterMap(ids[..i], KeptFn(), SavedRowFn(post, san))
      {
        var (index, id) := ids[i];
        if !EmptyString(id) {
          var duration := if index in post.durations then san.floatval(post.durations[index]) else 1.0;
          var delay := if index in post.delays then san.floatval(post.delays[index]) else 0.0;
          var easing := if index in post.easings then san.text(post.easings[index]) else "power1.out";
          animations := animations + [StoredRow(
            Some(san.text(id)),
            Some(if index in post.animationTypes then san.text(post.animationTypes[index]) else "fadeIn"),
            Some(Max(0.1, duration)),
            Some(Max(0.0, delay)),
            Some(easing))];
        }
        assert ids[..i + 1][..i] == ids[..i];
        i := i + 1;
      }
      assert ids[..i] == ids;
    }
  }

  /**
   * render_admin_page as far as it changes the stored options. canManage is
   * current_user_can('manage_options'); nonceValid is the outcome of
   * check_admin_referer, which ends the request when it fails. An accepted
   * submission replaces both options outright; otherwise nothing changes.
   */
  method RenderAdminPage(current: Settings, canManage: bool, nonceValid: bool, post: Post, san: Sanitizers)
    returns (next: Settings)
    ensures canManage && post.submitted && nonceValid ==>
              next.animations == SavedRows(post, san) && next.classBasedEnabled == post.classBasedEnabled
    ensures !(canManage && post.submitted && nonceValid) ==> next == current
  {
    if !canManage {
      return current;
    }
    if !post.submitted {
      return current;
    }
    if !nonceValid {
      return current;
    }
    var animations := SanitizeRows(post, san);
    next := Settings(animations, post.classBasedEnabled);
  }

  /**
   * A row is saved for exactly the id entries whose raw id is non-empty, once
   * each and in submission order; so there are as many saved rows as such ids.
   */
  lemma SavedRowsExact(post: Post, san: Sanitizers)
    ensures Ascending(Positions(IdEntries(post), KeptFn()))
    ensures forall i :: 0 <= i < |IdEntries(post)| ==>
              (i in Positions(IdEntries(post), KeptFn()) <==> !EmptyString(IdEntries(post)[i].1))
    ensures |SavedRows(post, san)| == |Positions(IdEntries(post), KeptFn())|
    ensures forall k :: 0 <= k < |SavedRows(post, san)| ==>
              SavedRows(post, san)[k] == SavedRow(IdEntries(post)[Positions(IdEntries(post), KeptFn())[k]], post, san)
  {
    PositionsExact(IdEntries(post), KeptFn());
    FilterMapAt(IdEntries(post), KeptFn(), SavedRowFn(post, san));
  }

  /**
   * Every key of a saved row is set; its duration is at least 0.1 and its
   * delay at least 0; a missing field takes its default (type fadeIn,
   * duration 1, delay 0, easing power1.out); a submitted number is kept when
   * it is in range and replaced by the bound when it is not; the id, type and
   * easing are stored as sanitize_text_field returns them.
   */
  lemma SavedRowBounds(entry: (int, string), post: Post, san: Sanitizers)
    ensures var row, index := SavedRow(entry, post, san), entry.0;
      && row.id.Some? && row.animationType.Some? && row.duration.Some? && row.delay.Some? && row.easing.Some?
      && row.duration.value >= 0.1 && row.delay.value >= 0.0
      && (index !in post.animationTypes ==> row.animationType.value == "fadeIn")
      && (index !in post.durations ==> row.duration.value == 1.0)
      && (index !in post.delays ==> row.delay.value == 0.0)
      && (index !in post.easings ==> row.easing.value == "power1.out")
      && (index in post.durations && san.floatval(post.durations[index]) >= 0.1 ==>
            row.duration.value == san.floatval(post.durations[index]))
      && (index in post.delays && san.floatval(post.delays[index]) >= 0.0 ==>
            row.delay.value == san.floatval(post.delays[index]))
      && (index in post.durations && san.floatval(post.durations[index]) < 0.1 ==> row.duration.value == 0.1)
      && (index in post.delays && san.floatval(post.delays[index]) < 0.0 ==> row.delay.value == 0.0)
      && row.id.value == san.text(entry.1)
      && (index in post.animationTypes ==> row.animationType.value == san.text(post.animationTypes[index]))
      && (index in post.easings ==> row.easing.value == san.text(post.easings[index]))
  {
  }

  /** Every row a submission saves is complete and within the bounds. */
  lemma SavedRowsInBounds(post: Post, san: Sanitizers)
    ensures forall k :: 0 <= k < |SavedRows(post, san)| ==>
              var row := SavedRows(post, san)[k];
              && row.id.Some? && row.animationType.Some? && row.duration.Some? && row.delay.Some? && row.easing.Some?
              && row.duration.value >= 0.1 && row.delay.value >= 0.0
  {
    SavedRowsExact(post, san);
    forall k | 0 <= k < |SavedRows(post, san)|
      ensures var row := SavedRows(post, san)[k];
              && row.id.Some? && row.animationType.Some? && row.duration.Some? && row.delay.Some? && row.easing.Some?
              && row.duration.value >= 0.1 && row.delay.value >= 0.0
    {
      SavedRowBounds(IdEntries(post)[Positions(IdEntries(post), KeptFn())[k]], post, san);
    }
  }
}
