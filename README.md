# GSAP Scroll Animations — a Dafny model of the server-side pipeline

The WordPress plugin `gsap-scroll-animations.php` lets an administrator list
animation rows. Each row has an HTML id, an animation type, a duration, a delay
and an easing. Separately, the administrator can switch on a fixed catalogue of
class-based scroll effects. On each page view the plugin decides whether to load
the GSAP library. It then writes the configured rows into the page as a
JavaScript array of `{id, config}` records, and it may add the class-based
script.

This project models the three server-side parts of class
`GSAP_Scroll_Animations` and proves properties about them:

- **Save path** (`render_admin_page`, module `Save`). The submitted form's
  parallel arrays become the stored rows. Only entries with a non-empty raw id
  are kept, in submission order. Missing fields get their defaults: type
  `fadeIn`, duration 1, delay 0, easing `power1.out`. Duration is raised to at
  least 0.1 and delay to at least 0. The class-based flag is stored as "the
  checkbox field was present". Both options are replaced outright.
  `Save.SanitizeRows` is the `foreach` loop, proved equal to the specification
  function `Save.SavedRows`.
- **Render path** (`output_animations`, module `Render`). Stored rows whose raw
  id or raw type is empty are dropped, and so are rows whose sanitised type is
  not one of the 13 presets (module `PresetTable`). Each remaining row gives a
  copy of its preset bag plus `duration`. `delay` is added only when it is set
  and positive, and `ease` only when an easing is set. The records keep stored
  order. `Render.OutputAnimations` carries the early returns and the loop, and
  is proved to emit exactly `Render.Directives`, or nothing when that list is
  empty.
- **Gates** (`should_load_gsap`, `enqueue_gsap`, `output_class_animations`,
  module `Gates`). These are boolean decisions over the stored settings,
  `is_singular()` and the post content.

Module `Selection` holds the order-preserving filter and map that both loops
implement, with its lemmas (exact positions, concatenation, fusion of two
filters). Module `Pipeline` connects the parts and states worked examples.

WordPress state is passed in as explicit values. `Settings.Settings` holds the
two options as `get_option` returns them. `Gates.Page` holds `is_singular()` and
the global post's content. `Save.Post` holds the submitted form. The capability
and nonce checks are boolean inputs of `Save.RenderAdminPage`.
`sanitize_text_field`, `sanitize_html_class` and `floatval` are arbitrary
functions in `Php.Sanitizers`. Every property holds whatever they compute,
except the worked example `Pipeline.HeroFadeUp`, which assumes they leave its
three strings unchanged.

Behaviour of the code worth knowing:

- The load gate tests the stored list before any filtering (line 78). Blank
  stored rows alone therefore load the library even though no script is written
  (`Pipeline.BlankRowsStillLoad`).
- Rows with an empty raw id are dropped when saving (line 688), not only when
  rendering.
- The id is sanitised with `sanitize_text_field` when saving and with
  `sanitize_html_class` when rendering. The render filter tests the raw stored
  id (line 139), so an emitted id can still be empty after sanitising. No
  property claims otherwise.
- PHP's `empty()` treats the string `"0"` as empty (`Php.EmptyString`). So an
  id of `"0"` is dropped on both paths. The save path tests only the id
  (line 688), so a type of `"0"` is saved and dropped only at render (line 139).

## Model

| member | source | states |
|---|---|---|
| `Php.Max` | gsap-scroll-animations.php:696-697 | the result is at least both arguments and is one of them |
| `PresetTable.PresetCount` | gsap-scroll-animations.php:147-201 | the preset table has exactly the 13 listed type names, each once |
| `PresetTable.PresetsFadeIn` | gsap-scroll-animations.php:147-201 | every preset has opacity 0 and sets none of duration, delay, ease |
| `Php.EmptyString` | gsap-scroll-animations.php:688 | the definition of PHP's `empty()` on a submitted string, true for `""` and `"0"`; the ensures adds only that strings of two or more characters are never empty |
| `Php.Contains` | gsap-scroll-animations.php:86 | the definition of `strpos(...) !== false` (the needle occurs at some position); the ensures adds only that the needle is then no longer than the haystack |
| `Gates.HasMarker` | gsap-scroll-animations.php:279 | the definition of the line-279 (and line-86) test: the post content is set and contains "gsap-"; the ensures adds only that the content is then set and at least 5 characters long |
| `Render.NonBlank` | gsap-scroll-animations.php:138-140 | the definition of the array_filter test of line 139: both raw keys are set and neither is empty in PHP's sense (`Php.IsEmpty`, so neither is `""` nor `"0"`); the ensures adds only that both keys are set and not `""` |
| `Render.RowConfig` | gsap-scroll-animations.php:207-219 | the config has duration (stored or 1), opacity 0 for a preset type, delay iff a positive delay is stored, ease iff an easing is stored |
| `Render.ToDirective` | gsap-scroll-animations.php:204-224 | a non-blank row's record has the raw id after sanitize_html_class as its id, and a preset row's config has opacity 0 |
| `Render.Directives` | gsap-scroll-animations.php:203-226 | the directive list for the stored rows; never longer than the stored list |
| `Save.SavedRow` | gsap-scroll-animations.php:689-699 | a saved row has every key set, duration >= 0.1 and delay >= 0 |
| `Save.SavedRows` | gsap-scroll-animations.php:686-701 | the rows a submission saves; never more than the submitted ids |
| `Render.OutputAnimations` | gsap-scroll-animations.php:130-231 | no script when the directive list is empty (including an empty stored or filtered list); otherwise the script gets exactly the directive list, never an empty array |
| `Render.RenderedRows` | gsap-scroll-animations.php:138-226 | the output holds exactly the stored rows with non-empty raw id and type whose sanitised type is a preset, once each, in stored order, each as its sanitised id and built config |
| `Render.ConfigContents` | gsap-scroll-animations.php:207-219 | a config is the preset bag plus duration (stored or 1), delay iff a delay is set and > 0, ease iff an easing is set, with those values and no other keys; opacity is 0 |
| `Render.AllBlankRendersNothing` | gsap-scroll-animations.php:137-144 | when every stored row has an empty id or type, nothing is emitted |
| `Save.SanitizeRows` | gsap-scroll-animations.php:686-702 | the save loop produces exactly the specification list `SavedRows` |
| `Save.RenderAdminPage` | gsap-scroll-animations.php:675-708 | an allowed, submitted, nonce-valid form replaces the row list with `SavedRows` and the flag with the checkbox's presence; otherwise the settings are unchanged |
| `Save.SavedRowsExact` | gsap-scroll-animations.php:686-701 | a row is saved for exactly the entries whose raw id is non-empty, once each, in submission order; the saved count equals the number of such ids |
| `Save.SavedRowBounds` | gsap-scroll-animations.php:689-698 | a saved row has every key set, duration >= 0.1, delay >= 0, the defaults for missing fields, the submitted number when in range and exactly the bound (0.1 or 0) when below it, and the id, type and easing as sanitize_text_field returns them |
| `Save.SavedRowsInBounds` | gsap-scroll-animations.php:689-698 | every row of a submission's saved list is complete, with duration >= 0.1 and delay >= 0 |
| `Gates.ShouldLoadGsap` | gsap-scroll-animations.php:75-92 | true whenever the unfiltered stored list is non-empty; otherwise true iff the flag is on, the page is singular and its content contains "gsap-" |
| `Gates.EnqueuesStylesheet` | gsap-scroll-animations.php:94-127 | the stylesheet is enqueued iff the flag is on and the stored list is non-empty or the page is singular with the marker |
| `Gates.EmitsClassScript` | gsap-scroll-animations.php:265-286 | the class script is emitted iff the flag is on, the page is singular and its content contains "gsap-"; the trailing load check adds nothing |
| `Pipeline.SavedRowRenders` | gsap-scroll-animations.php:207-219 | a complete, in-bounds row with a preset renders with duration >= 0.1, an ease, opacity 0, and a positive delay when one is present |
| `Pipeline.SavedRowsRender` | gsap-scroll-animations.php:687-701 | rows saved from any submission render with sane configs, and never into more directives than there were non-empty ids |
| `Pipeline.IdScriptImpliesLoaded` | gsap-scroll-animations.php:75-81 | whenever the ID-based script has directives, the load gate holds |
| `Pipeline.ClassScriptImpliesLoaded` | gsap-scroll-animations.php:281-286 | whenever the class script is emitted, the load gate holds |
| `Pipeline.BlankRowsStillLoad` | gsap-scroll-animations.php:77-80 | stored rows that are all blank, with the flag off, load the library but emit neither script |
| `Pipeline.NothingConfigured` | gsap-scroll-animations.php:75-92 | no stored rows and the flag off: no library, no stylesheet, no directives, no class script |
| `Pipeline.ClassOnlyPage` | gsap-scroll-animations.php:265-286 | flag on, nothing stored, singular page containing "gsap-fade-up": library, stylesheet and class script, but no directives |
| `Pipeline.HeroFadeUp` | gsap-scroll-animations.php:203-226 | the row hero/fadeUp/1.2/0.3/power2.out is emitted as {opacity 0, y 60, duration 1.2, delay 0.3, ease power2.out} |

## Left out

- The plugin update checker (lines 21-29): a network client in a library that is not part of this model.
- WordPress hook registration, settings registration and the admin menu (lines 38-70): host wiring with no logic.
- `get_option` and `update_option`: the stored options are values passed in and returned (`Settings.Settings`).
- `current_user_can` and `check_admin_referer`: their outcomes are boolean inputs of `Save.RenderAdminPage`. A failed nonce check ends the request, which the model treats as "nothing changes".
- `wp_enqueue_script`, `wp_enqueue_style` and the CDN URLs: only the decisions are modelled. The two library scripts are enqueued exactly when `Gates.ShouldLoadGsap` holds.
- `json_encode` and the key order of PHP arrays: a config is a `map`, so the order in which keys appear in the emitted JSON is not modelled.
- The internals of `sanitize_text_field`, `sanitize_html_class` and `floatval`: they are arbitrary functions, so nothing depends on what they strip or parse.
- Stored numbers are modelled as the values `floatval` yields for them. A legacy stored duration or delay held as a string is not modelled separately.
- Submitted parallel fields other than `animation_id` are maps from the array key to a string. A field sent as a plain string, for which PHP would index characters, is not modelled. Array keys are integers.
- `Gates.Page`: one page value answers both the enqueue hook (lines 94-127) and the footer hook (lines 265-286). The source reads the global `$post` separately in each (lines 86 and 279), and a theme loop that changes `$post` without resetting it can make the two answers differ. The model does not capture that.
- `Save.Post`: each `animation_id` element is a string. An element that is itself an array is not modelled. PHP's `empty()` is false for a non-empty array, so such a row is saved, and `sanitize_text_field` turns its id into `''`.
- Floating point: numbers are exact reals. The code only uses `max`, defaults and `> 0`, so no rounding is involved. Overflow is not modelled either. `floatval("1e999")` gives INF, line 696 would store it, and `json_encode` at line 232 would then fail, leaving `var animations = ;` in the page. A `floatval` of type `string -> real` cannot produce that value.
- The inline client JavaScript: the ID-based bootstrap (lines 234-261) and the class-based effect catalogue (lines 288-670). They are browser code driven by GSAP, the DOM, timers and scroll events.
- The admin page HTML and its jQuery add, remove and toggle rows (lines 715-1208): presentation only.
