# Page marker controller, modelled in Dafny

A model of the `PageMarker` controller of the page-marking userscript
(`src/utils/pageMarker.ts`). The controller keeps a configuration record
(`enabled`, `blurAmount`, `maskOpacity`, `mode`, `excludeSelectors`,
`showButton`, `buttonPosition`), writes every field to a key-value store
under its own `marker_*` key, and keeps at most one full-page overlay element
(id `page-marker-mask-layer`) in the document. That overlay holds a blur layer,
a mask layer or both, as `mode` says.

Files and modules:

- `config.dfy`, module `Config`: the record `MarkerConfig`, the mode, the
  partial update `ConfigUpdate` (TypeScript's `Partial<MarkerConfig>`) and the
  merge `{ ...config, ...updates }` with its algebra.
- `storage.dfy`, module `Storage`: the stored values, the `Store` class (both
  storage backends as one store), `Load` (what `loadConfig` builds) and `Saved`
  (the store after the seven writes of `saveConfig`), with the save/load round trip.
- `dom.dfy`, module `Dom`: overlay layers, the top-level elements of the page
  body, the `Document` class with the three DOM operations the controller uses,
  and the functions giving the body after a removal (`Removed`) and after an
  apply (`Applied`), with the "at most one overlay" and idempotence lemmas.
- `marker.dfy`, module `Marker`: the `PageMarker` class, whose methods are proved
  against the functions above, the toggle lemmas, and the `Page` class holding
  the single instance (`getInstance`).

Modelling choices:

- Numbers (`blurAmount`, `maskOpacity`, the button coordinates) are `real`
  values that are only stored and copied, never computed with.
- The stored mode is a string that the source casts to the mode type without a
  check. `Mode.Unrecognised(name)` keeps such a string, and its overlay gets no
  children, because neither branch of `updateMaskLayer` matches it. Typed
  callers can only pass the three declared modes, so `UpdateConfig` requires
  `TypedUpdate`. The record's mode is therefore always well formed.
- The document is the sequence of top-level body elements. `getElementById` is
  the first element carrying the overlay id. A page element could carry that id
  too, so "at most one overlay" is the invariant `CountOverlays(body) <= 1`. It
  is part of `PageMarker.Valid()` and every method keeps it.
- `toggle` calls `saveConfig`, so it rewrites all seven keys. `updateConfig`
  leaves the document untouched when the merged record is disabled, so an
  existing overlay stays.

## Model

| member | source | states |
|---|---|---|
| Config.ParseMode | src/utils/pageMarker.ts:45 | the mode read from a stored string is well formed, and it is one of the declared modes exactly when the string is "blur", "mask" or "both" |
| Config.ParseModeName | src/utils/pageMarker.ts:45 | reading back a written well-formed mode gives that mode |
| Config.ModeNameParse | src/utils/pageMarker.ts:45 | writing back a read mode gives the stored string |
| Config.ModeName | src/utils/pageMarker.ts:56 | a declared mode is stored as one of the three names, and a well-formed mode stored as one of them is a declared mode |
| Config.Merge | src/utils/pageMarker.ts:66-67 | every field the update carries takes the update's value, and every field it does not carry keeps its old value |
| Config.MergeNoChange | src/utils/pageMarker.ts:66-67 | merging the empty update leaves the record unchanged |
| Config.MergeWhole | src/utils/pageMarker.ts:66-67 | an update carrying every field replaces the whole record |
| Config.MergeIdempotent | src/utils/pageMarker.ts:66-67 | merging the same update twice equals merging it once |
| Config.MergeThen | src/utils/pageMarker.ts:66-67 | two merges in a row equal one merge of the combined update, in which the later update wins |
| Config.MergeWellFormed | src/utils/pageMarker.ts:5 | an update typed as Partial<MarkerConfig> keeps the record's mode well formed |
| Storage.Store.Get | src/utils/pageMarker.ts:12-17 | the stored value when the key was written, otherwise the caller's default; it is the map-level lookup the readers use |
| Storage.LookupAfterWrite | src/utils/pageMarker.ts:12-23 | a read right after a write of a key gives the written value, and the write leaves every other key's read unchanged |
| Storage.ReadBool | src/utils/pageMarker.ts:42 | the stored flag when a flag is stored under the key, the default when the key is absent or holds another kind |
| Storage.ReadNumber | src/utils/pageMarker.ts:43-44 | the stored number when a number is stored under the key, the default otherwise |
| Storage.ReadMode | src/utils/pageMarker.ts:45 | the stored string cast to a mode, whose name is that string, when a string is stored; the default otherwise |
| Storage.ReadPoint | src/utils/pageMarker.ts:48 | the stored position when a point is stored, the given default otherwise |
| Storage.Saved | src/utils/pageMarker.ts:52-60 | a save adds exactly the seven marker keys and leaves every other key as it was |
| Storage.Store.Set | src/utils/pageMarker.ts:19-23 | that key now maps to the value, and every other key is unchanged |
| Storage.Load | src/utils/pageMarker.ts:40-49 | the loaded record never has selectors and its mode is well formed |
| Storage.LoadEmpty | src/utils/pageMarker.ts:40-49 | an empty store loads as enabled=false, blur 8, opacity 0.9, mode both, no selectors, button shown, and the given default position |
| Storage.LoadSaved | src/utils/pageMarker.ts:40-60 | a save followed by a load gives the same record, except that the selector list loads empty |
| Storage.LoadIgnoresSelectors | src/utils/pageMarker.ts:46 | whatever is stored under marker_exclude_selectors does not change what loads |
| Storage.SavedKeys | src/utils/pageMarker.ts:53-59 | a save writes each of the seven fields under its own key, whatever the store held before |
| Storage.SavedTwice | src/utils/pageMarker.ts:52-60 | of two saves, only the last is visible in the store |
| Dom.Layers | src/utils/pageMarker.ts:90-123 | one child for blur or mask, two for both, none for an unrecognised mode; a blur child exactly when the mode includes blur, a mask child exactly when it includes the mask; children carry the configured radius and opacity, blur before mask |
| Dom.FindOverlay | src/utils/pageMarker.ts:140 | the lookup gives the first element carrying the overlay id, or nothing when no element carries it |
| Dom.FindCount | src/utils/pageMarker.ts:140-141 | the lookup finds nothing exactly when no element carries the overlay id |
| Dom.Removed | src/utils/pageMarker.ts:139-144 | a removal takes away exactly one element carrying the overlay id when there is one, leaves the page's own elements in order, and leaves a body without the id as it was |
| Dom.RemoveFirst | src/utils/pageMarker.ts:140-142 | taking out the first element carrying the id lowers the id count by one and keeps the page's own elements |
| Dom.Applied | src/utils/pageMarker.ts:126-137 | an apply keeps the page's own elements in order and, when enabled, ends the body with the overlay rendering the configuration |
| Dom.RemovedLeavesNone | src/utils/pageMarker.ts:139-144 | with at most one overlay, none is left after a removal, and a body without one is unchanged |
| Dom.AppliedOverlay | src/utils/pageMarker.ts:126-137 | after an apply there is exactly one overlay when enabled and none when disabled; the one left renders the configuration and is what the lookup finds |
| Dom.AppliedIdempotent | src/utils/pageMarker.ts:126-137 | applying twice with an unchanged configuration gives the same body as applying once |
| Dom.RemovedApplied | src/utils/pageMarker.ts:126-144 | removing after an apply gives the body with the old overlay removed |
| Dom.FindAfterClean | src/utils/pageMarker.ts:136-140 | in a body without the id, an overlay appended at the end is the one the lookup finds |
| Dom.Document.GetOverlay | src/utils/pageMarker.ts:140 | the document's lookup by the overlay id |
| Dom.Document.RemoveAt | src/utils/pageMarker.ts:142 | the found element leaves the body, and the others keep their order |
| Dom.Document.AppendChild | src/utils/pageMarker.ts:136 | the element is added at the end of the body |
| Marker.Toggled | src/utils/pageMarker.ts:147 | a toggle flips enabled and changes no other field |
| Marker.ToggledBody | src/utils/pageMarker.ts:150-155 | a toggle keeps the page's own elements, and when it enables the marker the body ends with the overlay of the toggled configuration |
| Marker.ToggledOverlay | src/utils/pageMarker.ts:146-158 | after a toggle an overlay exists exactly when the toggle enabled the marker |
| Marker.ToggleTwice | src/utils/pageMarker.ts:146-158 | two toggles restore the record; the body is then as after one apply (from enabled) or one removal (from disabled) |
| Marker.FirstToggle | src/utils/pageMarker.ts:40-49 | on an empty store, a toggle enables the marker and draws a blur layer of radius 8 followed by a mask layer of opacity 0.9 |
| Marker.UpdateBlurRedraws | src/utils/pageMarker.ts:66-71 | updating blurAmount on an enabled marker in mode both redraws the overlay with the new radius and the old opacity |
| Marker.PageMarker.constructor | src/utils/pageMarker.ts:29-31 | the new marker's record is what the store loads to |
| Marker.PageMarker.SaveConfig | src/utils/pageMarker.ts:52-60 | the store is the old store with the seven field writes applied |
| Marker.PageMarker.GetConfig | src/utils/pageMarker.ts:62-64 | the current record, as a value that later changes to the marker cannot reach |
| Marker.PageMarker.IsEnabled | src/utils/pageMarker.ts:160-162 | the current enabled flag, with no effect on any state |
| Marker.PageMarker.UpdateConfig | src/utils/pageMarker.ts:66-72 | the record becomes the merge of the old record and the update, and the store holds the saved merged record; the overlay is redrawn when enabled, with exactly one overlay left, and the document is untouched when disabled |
| Marker.PageMarker.CreateMaskLayer | src/utils/pageMarker.ts:74-88 | a fresh overlay carries the overlay id and has no children |
| Marker.PageMarker.UpdateMaskLayer | src/utils/pageMarker.ts:90-124 | the filled overlay holds exactly the layers the mode asks for |
| Marker.PageMarker.ApplyMarker | src/utils/pageMarker.ts:126-137 | the body becomes the apply of the old body; exactly one overlay is left when enabled, none when disabled |
| Marker.PageMarker.RemoveMarker | src/utils/pageMarker.ts:139-144 | the first element with the id is removed; no overlay is left, and a body without one is unchanged |
| Marker.PageMarker.Toggle | src/utils/pageMarker.ts:146-158 | enabled is flipped and returned, the whole record is saved, and the overlay is redrawn or removed, so one exists exactly when the result is true |
| Marker.Page.GetInstance | src/utils/pageMarker.ts:33-38 | the first call creates a marker loaded from the store; later calls return the same marker, unreloaded |

## Left out

- The CSS text of the overlay and its layers (positioning, `z-index`, `!important`, transitions, the `rgba` string). Only the kind of each layer and its parameter are modelled.
- The default button position, computed from `window.innerWidth` and `window.innerHeight` with floating point. It is passed in as `defaultPosition`.
- The choice between the userscript host's value API and `localStorage`, the `page-marker-` key prefix of the fallback, and the JSON encoding it uses. Both backends are one typed store.
- Storage.Load: a stored value of the wrong kind (for example a number under `marker_enabled`) is read as the key's default. The source would carry such a value into the record untyped. In the model, only a mode string outside the three names stays, as `Mode.Unrecognised`.
- Dom.FindOverlay: `getElementById` searches the whole document. The model searches only the top-level elements of the body, which is where the overlay is appended.
- Marker.PageMarker.UpdateMaskLayer: the element is changed in place in the source. The model returns the filled element as a value, and the caller appends that value.
- Object sharing is not modelled, because datatype values cannot be shared mutably. The shallow copy in `getConfig` (line 63) shares the `buttonPosition` object and the `excludeSelectors` array with the controller. `updateConfig` (line 67) keeps the caller's own array and point objects by reference, so a caller that mutates them later changes the controller's record.
- Marker.PageMarker.constructor: the page is assumed to hold at most one element with id `page-marker-mask-layer`, and `Marker.Page.constructor` assumes the same. `getInstance` accepts any page. On a page that already holds two such elements, `applyMarker` removes only the first and then appends, so two remain; the model's guarantees of exactly one overlay do not cover that page.
- A `Partial` key that is present but holds `undefined` (`{ blurAmount: undefined }`) is not modelled. `ConfigUpdate` writes it as `None`, the same as an absent key. In the source it overwrites the field with `undefined`. In the `localStorage` fallback, `saveConfig` then stores the string "undefined", and the next `loadConfig` fails in `JSON.parse`.
- Marker.Page.GetInstance: the static `instance` field becomes the `marker` slot of an explicit `Page` object that holds the store and the document.
- The host glue in `src/main.ts` is not part of this model: menu commands, the control panel, notifications, the URL watcher and the unload hook.
- `excludeSelectors` is saved but never used to exclude anything, in the source as in the model.
- Running out of storage space and a missing `document.body` are not modelled. The source does not handle them either.
