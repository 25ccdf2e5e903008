# Aurora Australis exhibit: layers, input routing, compositing and legend

This project models the core of the Aurora Australis interactive map exhibit
(`AURORA_SOFTWARE.py`) in Dafny and proves properties of that model. The
exhibit shows a base map across two monitors. Three joystick players press
buttons to switch thematic map layers on and off. Each layer fades in and
out in steps of 15 opacity units. It plays its sound from the step it
becomes fully visible until it has faded out, and it may be an animated GIF. A third monitor shows a legend for the visible
layers. The legend lays its titles and items out in up to three columns and
picks the largest font size that fits.

The model has these modules:

- `Layers`: one map layer (`ImagenConFade`). Its fade, sound and animation
  steps are pure functions over `LayerState`. Class `Layer` holds the same
  state in mutable fields, and its methods are proved equal to those
  functions.
- `Catalog`: the layer table, the `(player, button)` binding table
  (`mapeo_capas`) and the reset screen (`imagen_reinicio`).
- `Router`: what a joystick press does to the layers, as a fold over the
  layers bound to the button. It also proves the invariants presses keep.
- `Compositor`: one frame. Visible layers are sorted stably by activation
  order, each is faded one step and drawn, and the legend is then chosen.
- `LegendElements`, `Packing`, `LegendLayout`, `Glyphs`: the legend
  (`dibujar_leyenda_tercer_monitor`). They cover element generation with the
  two shared tables, greedy column packing, the font/column search, column
  geometry, the cursor that places each element, and the symbol dispatch.
- `Exhibit`: the main loop. Class `Exhibit` holds the layers, the binding
  table, the activation counter and the narration keys. `Tick` handles a
  batch of events and then renders one frame. It is proved against the pure
  functions `HandleAll` and `DrawFrame`.

Time, the joystick list, the loaded images' frame counts and the loaded
sounds are parameters. Sound playback and drawing are returned as values:
`SoundCmd`, `Effect` and `Plan`.

Behaviour of the code worth noting:

- When no font size fits, the layout keeps its initial 16 pt, a 20 px line
  and one column.
- The search's pixel-height test never rejects a packing of at most three
  columns (`HeightCheckRedundant`).
- The `num_columnas > 1` exit in the search loop is never taken. The inner
  loop only ever sees the initial value 1.
- The legend of a frame is built from the layers selected before that
  frame's fades are applied. The selection and its order do not depend on
  the opacity that the fades change.
- A `circulo_<x>_relleno` symbol whose radius field is not an integer makes
  `int()` raise outside any `try`, and the program ends. The non-filled form
  falls back to a square. `GlyphOf` returns `RadiusNotAnInteger` in the
  first case (`FilledWithoutRadiusRaises`, `EmptyFieldRaises`,
  `MarkerFieldRaises`). `Tick` reports such a frame by returning
  `running == false` (`LegendRaisesExactly`).

## Model

| member | source | states |
|---|---|---|
| Glyphs.FirstField | AURORA_SOFTWARE.py:785-790 | `split("_")[1]` after the prefix: the result is a prefix of the text, holds no underscore, and stops exactly at the next underscore or the end |
| Glyphs.Named | AURORA_SOFTWARE.py:739-782 | the listed names tested before the prefix rule, each with its own glyph; every listed circle is a `circulo_` name with a positive radius; `GlyphOf` states how the list takes precedence |
| Glyphs.TrimStart | AURORA_SOFTWARE.py:786 | `int()`'s leading white-space strip: the result is a suffix of the input, everything dropped is white space, and it does not start with white space |
| Glyphs.TrimEnd | AURORA_SOFTWARE.py:786 | `int()`'s trailing white-space strip: the result is a prefix of the input, everything dropped is white space, and it does not end with white space |
| Glyphs.ParseInt | AURORA_SOFTWARE.py:786-789 | `int()` on the first field: text that is empty or all white space raises, and a plain digit string reads as its decimal value; the other cases are stated by `ParseDecimal`, `NegativeRadius`, `SpacedRadius` and the raising examples |
| Glyphs.Decimal | AURORA_SOFTWARE.py:786 | the canonical spelling of a radius is a non-empty string of digits |
| Glyphs.DecimalValue | AURORA_SOFTWARE.py:786 | reading the canonical spelling of `n` as digits gives `n` back |
| Glyphs.ParseDecimal | AURORA_SOFTWARE.py:786 | `int()` of the canonical spelling of `n` is `n` |
| Glyphs.GlyphOf | AURORA_SOFTWARE.py:735-795 | no symbol or an empty one draws a square; each listed name draws its own glyph; an unlisted name without the `circulo_` prefix draws a square; an unlisted `circulo_` name draws a circle of radius `int()` of its first field when that parses, filled exactly when the name contains `_relleno`; when it does not parse, a filled name raises and any other draws a square |
| Glyphs.RingRoundTrip | AURORA_SOFTWARE.py:783-791 | `circulo_<n>` draws a one-pixel ring of radius `n` for every `n` |
| Glyphs.DiscRoundTrip | AURORA_SOFTWARE.py:783-787 | `circulo_<n>_relleno` draws a filled disc of radius `n` for every `n` |
| Glyphs.FilledWithoutRadiusRaises | AURORA_SOFTWARE.py:784-787 | `circulo_x_relleno` takes the branch whose `int()` is not caught, and raises |
| Glyphs.UnparsableRingIsSquare | AURORA_SOFTWARE.py:788-792 | `circulo_abc` falls into the `except ValueError` and draws a square |
| Glyphs.NegativeRadius | AURORA_SOFTWARE.py:788-790 | `circulo_-3` parses, sign included, as a ring of radius -3 |
| Glyphs.SpacedRadius | AURORA_SOFTWARE.py:788-790 | `circulo_ 7` parses, white space ignored, as a ring of radius 7 |
| Glyphs.EmptyFieldRaises | AURORA_SOFTWARE.py:784-787 | `circulo__relleno` has an empty radius field and raises |
| Glyphs.MarkerFieldRaises | AURORA_SOFTWARE.py:784-787 | `circulo_relleno` has `relleno` as its radius field and raises |
| LegendElements.Members | AURORA_SOFTWARE.py:571-573 | the layers of one shared group: every layer it keeps is in the input and in the group, and every layer of the input in the group is kept |
| LegendElements.MembersAppend | AURORA_SOFTWARE.py:571-573 | selecting a group's members distributes over concatenation, so the members keep their input order |
| LegendElements.MembersOfOne | AURORA_SOFTWARE.py:571-573 | a single layer is kept exactly when it belongs to the group |
| LegendElements.Titles | AURORA_SOFTWARE.py:575 | the legend title of each member, in order |
| LegendElements.ItemsOf | AURORA_SOFTWARE.py:577-582 | one item per table row with that row's name and colour; the symbol is kept or dropped as the block requires |
| LegendElements.CollectMembers | AURORA_SOFTWARE.py:571-573 | the list comprehension computes the group's members |
| LegendElements.AppendOwn | AURORA_SOFTWARE.py:603-612 | one layer's title (when present) and its rows are appended to the elements so far |
| LegendElements.SharedBlocks | AURORA_SOFTWARE.py:570-597 | the land-use block then the SEIA block, each present only when one of its layers is selected, and the set of emitted groups |
| LegendElements.OtherLayers | AURORA_SOFTWARE.py:599-612 | the remaining layers contribute their own blocks in order, skipping those whose group was emitted |
| LegendElements.Generate | AURORA_SOFTWARE.py:566-612 | the full element list of the legend |
| LegendElements.Elements | AURORA_SOFTWARE.py:566-612 | the element list the legend is laid out from; it is empty exactly when no layer is in a shared group and none has rows of its own; its contents are stated by `Generate`, `ElementCounts` and the block lemmas |
| LegendElements.LandUseMemberOnlyRetitles | AURORA_SOFTWARE.py:574-583 | one more selected land-use layer adds no element; it only extends the merged title by `" & "` and its own title |
| LegendElements.LandUseBlockRetitled | AURORA_SOFTWARE.py:574-576 | one more land-use member changes only the first element of the land-use block, to the extended merged title |
| LegendElements.OthersUnchanged | AURORA_SOFTWARE.py:586-602 | one more land-use member leaves the SEIA block, the emitted groups and every other layer's contribution unchanged |
| LegendElements.InvestmentMemberChangesNothing | AURORA_SOFTWARE.py:589-597 | one more selected SEIA layer leaves the whole element list unchanged |
| LegendElements.ElementCounts | AURORA_SOFTWARE.py:566-612 | the legend has one item per shared row of each emitted group plus every row of the other layers, and one title per emitted group plus one per other layer with rows and a title |
| LegendElements.TwoLandUseLayers | AURORA_SOFTWARE.py:571-583 | two selected land-use layers give one merged title over the nine shared rows: ten elements |
| LegendElements.OneLandUseLayer | AURORA_SOFTWARE.py:574-583 | one selected land-use layer gives its own title over the shared rows |
| Packing.Height | AURORA_SOFTWARE.py:650 | an element takes between one line (item) and 1.4 lines (title), in tenths |
| Packing.Open | AURORA_SOFTWARE.py:654-656 | starting a new column adds exactly one column |
| Packing.Extend | AURORA_SOFTWARE.py:661-662 | appending to the last column keeps the number of columns |
| Packing.Greedy | AURORA_SOFTWARE.py:644-664 | greedy packing always has at least one column |
| Packing.Capped | AURORA_SOFTWARE.py:697-713 | capped packing always has at least one column |
| Packing.GreedyKeepsOrder | AURORA_SOFTWARE.py:648-662 | greedy packing keeps every element, in order, and its running height is the height of its last column |
| Packing.GreedyColumnsFit | AURORA_SOFTWARE.py:646-662 | when a column holds at least a title, no greedy column exceeds the capacity |
| Packing.GreedyMonotone | AURORA_SOFTWARE.py:653-659 | more elements never need fewer columns, which justifies the early `return None` |
| Packing.CappedProperties | AURORA_SOFTWARE.py:696-713 | capped packing keeps every element in order, uses at most `max_cols` columns, equals greedy packing when that fits, and otherwise keeps greedy's first columns and pushes the rest into its last |
| Packing.Split | AURORA_SOFTWARE.py:643-664 | `dividir_en_columnas` returns greedy packing when it needs at most `max_cols` columns, and None otherwise |
| Packing.SplitFinal | AURORA_SOFTWARE.py:696-713 | `dividir_en_columnas_final` computes capped packing |
| LegendLayout.LineSpacing | AURORA_SOFTWARE.py:639 | a positive font size has a positive line spacing |
| LegendLayout.Tallest | AURORA_SOFTWARE.py:671-677 | the result bounds every column's pixel height and is zero or the height of some column |
| LegendLayout.Search | AURORA_SOFTWARE.py:633-689 | the first font size that fits is chosen; when none fits the fallback is kept; the result is always the fallback or the choice for a fitting size |
| LegendLayout.Chosen | AURORA_SOFTWARE.py:633-689 | the legend's size is whatever the search over the tried sizes settles on; its line spacing and symbol size are those of its font size; `Search` and `ChosenIsLargestFit` state which size |
| LegendLayout.HeightCheckRedundant | AURORA_SOFTWARE.py:643-679 | for the configured sizes, a size fits exactly when greedy packing needs at most three columns |
| LegendLayout.PanelHoldsCapacity | AURORA_SOFTWARE.py:622-646 | for each tried size, a column holds a title, and a full column is no taller than the 670-pixel panel |
| LegendLayout.ChosenIsLargestFit | AURORA_SOFTWARE.py:622-689 | the layout uses one to three columns and the largest size whose packing needs at most three of them; with none, the fallback 16/20/16/1 |
| LegendLayout.ChooseLayout | AURORA_SOFTWARE.py:622-689 | the nested search loops compute the chosen layout |
| LegendLayout.TallestColumn | AURORA_SOFTWARE.py:671-677 | the height scan computes the tallest column |
| LegendLayout.ColumnPixels | AURORA_SOFTWARE.py:673-675 | a column's pixel height is its line spacing times its height in lines |
| LegendLayout.ColumnWidth | AURORA_SOFTWARE.py:719 | `n` columns and their gutters fill the panel short of it by less than `n` pixels; with no columns the width is the panel's |
| LegendLayout.ColumnsInsidePanel | AURORA_SOFTWARE.py:719-724 | every column lies inside the panel, and the next one starts one gutter right of its right edge |
| LegendLayout.Placements | AURORA_SOFTWARE.py:725-801 | one placed element per element of the column |
| LegendLayout.PlacementPositions | AURORA_SOFTWARE.py:725-801 | element `k` is placed at the column's left edge, below the first line by the advances of the elements before it |
| LegendLayout.AdvanceWithinHeight | AURORA_SOFTWARE.py:727-801 | the cursor moves down no further than the column's height in lines |
| LegendLayout.PlaceAll | AURORA_SOFTWARE.py:723-724 | one placed column per column |
| LegendLayout.PlaceAllColumns | AURORA_SOFTWARE.py:723-724 | column `k` is placed at `x = 25 + k * (width + 30)` |
| LegendLayout.FinalColumnsShape | AURORA_SOFTWARE.py:696-716 | the final split keeps every element in order, in one to three columns |
| LegendLayout.PlanPlacesEveryElement | AURORA_SOFTWARE.py:696-801 | the plan places every element once and in order, in one to three columns inside the panel, each at its column's left edge below the ones before it |
| LegendLayout.GreedyFitsHeight | AURORA_SOFTWARE.py:643-664 | for a tried size, no greedy column's cursor reaches below the panel's content height |
| LegendLayout.FinalIsGreedy | AURORA_SOFTWARE.py:696-716 | when a size fits, the final split equals its greedy packing |
| LegendLayout.PlanFitsHeight | AURORA_SOFTWARE.py:696-801 | when some size fits, no column of the final layout reaches below the panel's content height |
| LegendLayout.ChosenFont | AURORA_SOFTWARE.py:633-689 | when some size fits, the choice is that of a configured size whose packing needs at most three columns |
| LegendLayout.PlaceColumn | AURORA_SOFTWARE.py:725-801 | the cursor loop computes the column's placements |
| LegendLayout.PlaceColumns | AURORA_SOFTWARE.py:723-724 | the column loop computes every column's placements |
| LegendLayout.LayOut | AURORA_SOFTWARE.py:691-801 | choosing, splitting again and placing computes the legend's plan |
| LegendLayout.PlanOf | AURORA_SOFTWARE.py:691-801 | the laid-out legend has one to three columns that fit side by side, gutters included, inside the panel's width; `PlanPlacesEveryElement` and `PlanFitsHeight` state where each element goes |
| LegendLayout.DrawLegend | AURORA_SOFTWARE.py:545-804 | no legend exactly for an empty selection; otherwise the plan of the selection's elements |
| Compositor.LegendOf | AURORA_SOFTWARE.py:545-547 | no legend exactly when the list of layers is empty; otherwise a plan of one to three columns |
| LegendLayout.PlanRaisesExactly | AURORA_SOFTWARE.py:729-795 | drawing the plan raises exactly when some element is an item whose filled-circle radius `int()` rejects |
| Layers.InitialCoherent | AURORA_SOFTWARE.py:360-374 | a new layer (off, invisible, frame 0, silent) satisfies the layer invariant |
| Layers.SoundOn | AURORA_SOFTWARE.py:392-396 | Play is issued exactly when there is a sound that is not playing; afterwards it plays if it has a sound or already played; nothing else changes |
| Layers.SoundOff | AURORA_SOFTWARE.py:398-402 | Stop is issued exactly when there is a sound that is playing; afterwards it plays only if it has no sound and played; nothing else changes |
| Layers.FadeInStep | AURORA_SOFTWARE.py:404-409 | below full opacity the alpha rises by 15 or to full; at or above full nothing changes; Play exactly on the step reaching full with a silent sound; the invariant is kept |
| Layers.FadeOutStep | AURORA_SOFTWARE.py:411-416 | above zero the alpha falls by 15 or to zero; otherwise nothing changes; Stop exactly on the step reaching zero with a playing sound; the invariant is kept |
| Layers.FadeStepFor | AURORA_SOFTWARE.py:911-915 | the fade applied to a layer in a frame keeps the invariant |
| Layers.AnimateStep | AURORA_SOFTWARE.py:385-390 | with frames and more than 100 ms elapsed, the frame advances by one, wrapping, and the time is recorded; otherwise nothing changes; the invariant is kept |
| Layers.DrawStep | AURORA_SOFTWARE.py:418-423 | a picture is shown exactly when the layer has frames, with its animated frame and its opacity; the layer is animated first |
| Layers.FadeInReaches | AURORA_SOFTWARE.py:404-409 | after `k` fade-ins the alpha is `min(alpha + 15k, max_alpha)`, and once full a layer with a sound is playing it |
| Layers.FadeOutReaches | AURORA_SOFTWARE.py:411-416 | after `k` fade-outs the alpha is `max(alpha - 15k, 0)`, and once zero no sound plays |
| Layers.SoundsAlternate | AURORA_SOFTWARE.py:392-416 | over any sequence of fades, Play and Stop alternate, the first is Play exactly when the sound was silent, and the last tells whether it plays now |
| Layers.FramesCycle | AURORA_SOFTWARE.py:385-390 | `k` well-spaced updates advance the frame by `k` modulo the frame count and record the last update time |
| Layers.Layer.constructor | AURORA_SOFTWARE.py:352-370 | a new layer has its configuration and the initial state, and satisfies the invariant |
| Layers.Layer.PlaySound | AURORA_SOFTWARE.py:392-396 | `reproducir_sonido` updates the fields as `SoundOn` says |
| Layers.Layer.StopSound | AURORA_SOFTWARE.py:398-402 | `detener_sonido` updates the fields as `SoundOff` says |
| Layers.Layer.FadeIn | AURORA_SOFTWARE.py:404-409 | `fade_in` updates the fields as `FadeInStep` says and keeps the invariant |
| Layers.Layer.FadeOut | AURORA_SOFTWARE.py:411-416 | `fade_out` updates the fields as `FadeOutStep` says and keeps the invariant |
| Layers.Layer.Animate | AURORA_SOFTWARE.py:385-390 | `actualizar_animacion` updates the fields as `AnimateStep` says and keeps the invariant |
| Layers.Layer.Draw | AURORA_SOFTWARE.py:418-423 | `dibujar` updates the fields and returns the picture as `DrawStep` says |
| Catalog.BuildBindings | AURORA_SOFTWARE.py:485-493 | the table's keys are exactly the configured keys, and each key lists exactly its configurations |
| Catalog.BoundToMeaning | AURORA_SOFTWARE.py:485-493 | a key's list holds exactly the configurations with that key, in strictly increasing table order |
| Catalog.EveryLayerBoundOnce | AURORA_SOFTWARE.py:485-493 | every configuration's key is in the table, and the configuration is bound under that key and no other |
| Catalog.FirstMatch | AURORA_SOFTWARE.py:489 | the joined layer is at or before the configuration, matches its name and file, and no earlier layer does |
| Catalog.JoinIsIdentity | AURORA_SOFTWARE.py:489-490 | with no two configurations sharing name and file, the join finds each configuration's own layer |
| Catalog.FirstReset | AURORA_SOFTWARE.py:496-500 | the designated reset screen is a reset layer with none before it; with none, there are no reset layers |
| Catalog.FindReset | AURORA_SOFTWARE.py:496-500 | the loop with `break` finds the designated reset screen |
| Router.DeactivateOthers | AURORA_SOFTWARE.py:849-852 | every layer that is not a reset screen is switched off with nothing else changed; reset screens are kept |
| Router.PressOne | AURORA_SOFTWARE.py:841-874 | handling one bound layer changes only switches and orders, raises the counter by at most one, switches a reset screen on and flips any other layer; `ResetPressEffects` and `TogglePressEffects` state the full effect |
| Router.PressAll | AURORA_SOFTWARE.py:838-874 | handling the bound layers keeps the number of layers and raises the counter by at most one per layer |
| Router.ResetPressEffects | AURORA_SOFTWARE.py:844-857 | a reset press switches every other layer off, switches the screen on ordered just above the counter, keeps other reset screens and the counter |
| Router.ResetPressIdempotent | AURORA_SOFTWARE.py:844-857 | pressing a reset screen twice is the same as once |
| Router.TogglePressEffects | AURORA_SOFTWARE.py:858-874 | a press on another layer switches the designated reset screen off and flips the layer; switching on advances the counter and orders it there; switching off keeps both; nothing else changes |
| Router.PressKeepsExclusive | AURORA_SOFTWARE.py:838-874 | while the reset screen is on every other layer is off, before and after any press |
| Router.PressKeepsOrdersBounded | AURORA_SOFTWARE.py:838-874 | no layer is ordered above the counter, except a reset screen at most one above, before and after any press |
| Router.SwitchedOnIsTopmost | AURORA_SOFTWARE.py:866-868 | a layer just switched on is ordered above every other non-reset layer |
| Compositor.Selected | AURORA_SOFTWARE.py:905-906 | exactly the indices of the visible layers, in increasing order |
| Compositor.Insert | AURORA_SOFTWARE.py:905-908 | insertion adds the index to the sequence as a multiset |
| Compositor.SortByOrder | AURORA_SOFTWARE.py:905-908 | sorting is a permutation of its input |
| Compositor.DrawOrder | AURORA_SOFTWARE.py:905-908 | the draw order names only layers |
| Compositor.DrawOrderIsStableSort | AURORA_SOFTWARE.py:905-908 | each frame draws exactly the visible layers, once each, in ascending activation order with ties in table order |
| Compositor.Visit | AURORA_SOFTWARE.py:911-916 | a layer's turn keeps the number of layers and every layer's switch and order |
| Compositor.Composite | AURORA_SOFTWARE.py:910-916 | a frame keeps the number of layers and every layer's switch and order |
| Compositor.CompositeEffects | AURORA_SOFTWARE.py:910-916 | a frame changes only the drawn layers, each faded one step and then animated, and keeps every layer's invariant |
| Compositor.EffectsNameDrawnLayers | AURORA_SOFTWARE.py:910-916 | sound commands and pictures name only layers that took their turn |
| Compositor.DrawRecord | AURORA_SOFTWARE.py:910-916 | the pictures handed out are exactly one per layer of the order with frames, with its animated frame and faded alpha, in that order; the sound commands are exactly the fade steps' non-silent ones, in that order |
| Compositor.FrameRecord | AURORA_SOFTWARE.py:905-916 | the same for a whole frame drawn in its stable-sorted draw order |
| Compositor.LegendRaisesExactly | AURORA_SOFTWARE.py:918-920 | a legend raises exactly when there is one and one of its elements has a filled-circle symbol whose radius `int()` rejects |
| Compositor.NonReset | AURORA_SOFTWARE.py:920 | the entries of the draw order that are not reset screens: every kept entry is in the order and not a reset screen, and every such entry of the order is kept |
| Compositor.NonResetKeepsSorted | AURORA_SOFTWARE.py:920 | dropping the reset screens keeps the draw order sorted by activation order |
| Compositor.NonResetKeepsDistinct | AURORA_SOFTWARE.py:920 | dropping the reset screens keeps each layer at most once |
| Compositor.LegendLayers | AURORA_SOFTWARE.py:920 | the legend is given, position by position, the sources of the draw order's entries that are not reset screens |
| Compositor.LegendSelection | AURORA_SOFTWARE.py:904-920 | the layers whose sources the legend is given are exactly the visible layers that are not reset screens, each once, in ascending activation order with ties in table order |
| Compositor.NothingVisibleNoLegend | AURORA_SOFTWARE.py:918-920 | with no layer visible there is no legend |
| Compositor.FrameLegend | AURORA_SOFTWARE.py:918-920 | a frame has a legend exactly when the designated reset screen is not on and some visible layer is not a reset screen |
| Exhibit.ConfigsOf | AURORA_SOFTWARE.py:431-479 | the configuration rows of the setups, in order |
| Exhibit.StatesOf | AURORA_SOFTWARE.py:482 | the state of each layer object, in order |
| Exhibit.PlayerOf | AURORA_SOFTWARE.py:829-834 | a known joystick's player is one more than its first position; an unknown one has none |
| Exhibit.KeyStep | AURORA_SOFTWARE.py:879-896 | quit exactly on Shift+Escape; a key with a loaded sound flips its state and issues Stop if it played, else Play; any other key changes nothing |
| Exhibit.NarrationKeyTwice | AURORA_SOFTWARE.py:886-896 | pressing a narration key twice restores its state, having issued Play and Stop in some order |
| Exhibit.Silence | AURORA_SOFTWARE.py:813 | every key with a sound entry starts not playing |
| Exhibit.Handle | AURORA_SOFTWARE.py:818-896 | handling one event keeps the loop state well formed against the wiring |
| Exhibit.DrawFrame | AURORA_SOFTWARE.py:904-920 | one frame: every layer not visible is left as it is, every visible one is faded one step and animated exactly once, and there is a legend exactly when `FrameLegend` says so |
| Exhibit.IgnoredEventsChangeNothing | AURORA_SOFTWARE.py:829-876 | a button of an unknown joystick, an unbound button, and any other kind of event leave the loop state unchanged |
| Exhibit.HandleAll | AURORA_SOFTWARE.py:818-896 | handling a batch of events keeps the loop state well formed |
| Exhibit.QuitOnlyStops | AURORA_SOFTWARE.py:817-896 | the loop stops exactly when an event was a quit request, and whether it stops changes nothing else |
| Exhibit.HandleKeepsInvariant | AURORA_SOFTWARE.py:837-896 | every event keeps reset exclusivity and the order bound, and never lowers the counter |
| Exhibit.HandleAllKeepsInvariant | AURORA_SOFTWARE.py:817-896 | any batch of events keeps the invariants and never lowers the counter |
| Exhibit.Exhibit.constructor | AURORA_SOFTWARE.py:482-500 | every layer built from its setup and off, the binding table and reset screen of the configurations, the given joysticks, narration sounds and shared legend tables, counter zero, no narration playing, and the invariants hold |
| Exhibit.Exhibit.SwitchOffOthers | AURORA_SOFTWARE.py:849-852 | the layer objects end as `DeactivateOthers` says |
| Exhibit.Exhibit.SetLayer | AURORA_SOFTWARE.py:856-857 | one layer's switch and order are set and no other layer changes |
| Exhibit.Exhibit.PressLayer | AURORA_SOFTWARE.py:841-874 | the handling of one bound layer updates the objects and the counter as `PressOne` says |
| Exhibit.Exhibit.PressEach | AURORA_SOFTWARE.py:840-874 | the loop over the bound layers updates the objects and the counter as `PressAll` says |
| Exhibit.Exhibit.Press | AURORA_SOFTWARE.py:837-876 | a bound key is handled as `PressAll` says; an unbound key changes nothing; the narration state is unchanged |
| Exhibit.Exhibit.FindPlayer | AURORA_SOFTWARE.py:829-834 | the joystick loop finds `PlayerOf` |
| Exhibit.Exhibit.HandleKey | AURORA_SOFTWARE.py:879-896 | the key handler updates the narration state and reports as `KeyStep` says, and leaves the counter |
| Exhibit.Exhibit.HandleEvent | AURORA_SOFTWARE.py:818-896 | one event updates the objects as `Handle` says and keeps the invariants |
| Exhibit.Exhibit.HandleEvents | AURORA_SOFTWARE.py:818-896 | the event loop updates the objects as `HandleAll` says and keeps the invariants |
| Exhibit.Exhibit.DrawAll | AURORA_SOFTWARE.py:910-916 | the drawing loop updates the layers and returns the effects as `Composite` says |
| Exhibit.Exhibit.VisitLayer | AURORA_SOFTWARE.py:911-916 | one layer's turn updates it and returns its effects as `Visit` says |
| Exhibit.Exhibit.Render | AURORA_SOFTWARE.py:904-920 | drawing a frame updates the layers and returns the frame as `DrawFrame` says, and keeps the invariants |
| Exhibit.Exhibit.Tick | AURORA_SOFTWARE.py:817-920 | one pass of the loop handles the events as `HandleAll` says and then draws as `DrawFrame` says, keeping the invariants; the loop goes on exactly when no event quit and the legend did not raise |
| Exhibit.NewLayers | AURORA_SOFTWARE.py:482 | one new, distinct layer per setup, with its configuration, off and invisible |

## Left out

- Drawing, fonts and text rendering are left out: the screen fills, blits, glyph pixels, the rounded panel and `texto.get_height()`. The legend is modelled down to the position of every title and item and the glyph kind of every symbol. A label's vertical offset depends on font metrics and is not modelled.
- Image and GIF loading (`cargar_imagen_escalada`) is not modelled: each layer's frame count is a parameter. A failed load gives one blank frame in the source; here that is a frame count of 1.
- Sound loading and the mixer are not modelled. Whether a layer or a narration key has a sound is a parameter. Playing and stopping are returned as `Play`/`Stop` commands.
- The clock (`pygame.time.get_ticks`) is a parameter of each step. Joystick enumeration is a parameter: the list of connected instance ids.
- Logging and the CSV event log (`log_evento_csv`, `logger`) are left out. They have no effect on state.
- The splash screen, display set-up, `pygame.display.flip`, `pygame.time.delay(30)` and `pygame.quit` are left out. They are I/O.
- Colours are kept as the configured strings; `pygame.Color` parsing is not modelled.
- The configuration tables (`acciones_y_rutas`, `leyenda_comun`, `leyenda_comun_seia`, `teclas_sonidos`) are parameters, not constants. `TwoLandUseLayers` assumes the configured shape of nine and three shared rows.
- `max_alpha` is a natural number; negative values are not modelled.
- A layer's `sonido` is modelled as present or absent; the truthiness of a loaded `Sound` object is taken as true.
- The land-use title is joined from strings. A land-use layer without `titulo_leyenda` would make `" & ".join` raise; the model treats a missing legend title as the empty string, so that error path is not modelled.
- The fallback item for a layer with no `leyenda` and no `leyenda_compartida` attribute (lines 613-619) is not modelled. Every layer object has that attribute, so the branch cannot be reached.
- The `hasattr(capa, 'leyenda_compartida')` tests are modelled as always true, for the same reason.
- `int()` is modelled on ASCII text: white space, an optional sign and decimal digits. Unicode digits and underscores between digits are not modelled.
- The table join `next(c for c in imagenes_con_fade if ...)` is modelled by `FirstMatch`. The rest of the model binds each configuration to its own index, which equals the join when no two configurations share both name and file, as in the configured table.
- Python floats: line heights are `int(t * 1.25)` and `int(e * 1.4)`, and column heights are float sums. They are modelled exactly in tenths of a line, `(t * 5) / 4` and `(e * 14) / 10`. These agree for the three line spacings used (20, 17, 15). Floating-point rounding in the accumulated heights is not modelled.
- `max_altura // esp_linea` in `Packing.Split` is Dafny's Euclidean division, which equals Python's floor division for the positive panel height used here. Negative heights are not modelled.
- Exhibit.Exhibit.HandleKey: requires the narration state to have the same keys as the sound table. Both are built from `teclas_sonidos` (lines 151-160 and 813), so the source always meets it.
- Layers.FramesCycle: stated only for update times each more than 100 ms after the previous change; other timings leave the frame unchanged, as `AnimateStep` states.
- Exhibit.Exhibit.Tick: when drawing the legend raises, the source leaves the frame half drawn and the program ends with the exception. The model finishes the frame and returns `running == false`; the half-drawn frame is not modelled.
- The SEIA rows are read with `elem['simbolo']` (line 595), which raises `KeyError` for a row without a symbol. The model gives such a row an item with no symbol (`ItemsOf`), so that error path is not modelled; every configured SEIA row has a symbol.
