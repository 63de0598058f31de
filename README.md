# Orion Ship Data Editor — a verified model of its core

The Orion Ship Data Editor is a desktop editor for the `shipData` HJSON file
of Artemis Cosmos. The file holds a `#ship-list` array of ship maps. The
editor never re-dumps the whole document. It edits the loaded text
"surgically", so that comments, key spellings and layout survive:

- **insert** renders a new ship block and splices it into the ship list,
  after the last ship of the same side or before the closing `]`;
- **delete** cuts the first `{…}` block whose `key` matches, together with
  one separating comma;
- **save** finds the current ship's block, patches each changed field in
  place, and stamps the `#OrionShipEditor` banner line.

Around that text patcher the model also covers:

- the HJSON renderers;
- the post-processing pass over dumped text;
- the grouping of ships by side;
- the beam-arc/sector overlap test;
- the keyboard easter egg;
- the editor's dialogs (torpedoes, beam ports, exhaust ports, new ship);
- the Wavefront OBJ/MTL loader and the orbit camera of the 3D preview.

One module per concern:

| file | module | models |
|---|---|---|
| `wrappers.dfy` | `Wrappers` | `Option`, `Result` |
| `pytext.dfy` | `PyText` | the Python `str` methods the code uses (ASCII) |
| `records.dfy` | `Records` | decoded HJSON values; a dict as an insertion-ordered association list |
| `scanner.dfy` | `Scanner` | comment skipping, `_looks_hjsonish`, bracket balancing, `_extract_ship_list_region`, `_iter_top_level_flow_maps` |
| `pattern.dfy` | `Pattern` | the key and patch regular expressions, as backtracking matchers in Python `re` priority order |
| `objects.dfy` | `ObjectFinder` | `_iter_object_spans_for_key` and its `find_object_bounds` |
| `patcher.dfy` | `Patcher` | `_patch_scalar_in_block`, `_patch_list_in_block` |
| `render.dfy` | `Render` | `_repr_hjson_*` |
| `banner.dfy` | `Banner` | `_format_editor_banner_value`, `_upsert_editor_banner_simple` |
| `shipblock.dfy` | `ShipBlock` | `_deduce_key_style`, `_render_ship_block`, `_ship_list_indentation` |
| `editor.dfy` | `Editor` | class `ShipEditor`: `_surgical_insert_ship_block`, `_surgical_delete_ship_by_key`, `_surgical_save_current_ship` |
| `postprocess.dfy` | `PostProcess` | `_postprocess_hjson_text` and `fix_flow_map` |
| `sidegroups.dfy` | `SideGroups` | `_build_side_groups` |
| `angles.dfy` | `Angles` | `normalize_angle`, `beam_overlaps_sector` |
| `easteregg.dfy` | `EasterEgg` | class `KeyWatcher`: `setup_easter_egg`, `check_key_sequence` |
| `dialogs.dfy` | `Dialogs` | classes `TorpedoDialog`, `BeamPortsDialog`, `ExhaustPortsDialog`, `NewShipDialog` |
| `objviewer.dfy` | `ObjViewer` | `_triangulate`, class `ObjModel` (`load`) |
| `camera.dfy` | `ViewCamera` | class `OrbitCamera`: the preview frame's drag, wheel and key handlers |

Where the source mutates state, the model does too. The editor's raw text
is the field `ShipEditor.rawText`. Each dialog's rows are a `seq` field in
which a removed row becomes a `None` tombstone. The camera's yaw, pitch and
zoom are fields, as are the OBJ model's vertex lists. Loops in the source
are `while` or `for` loops with invariants. Each such method is proved equal to a
specification function, and the lemmas are stated about that function.

Quirks of the code that the model keeps as written:

- `_extract_ship_list_region` compares a character with the two-character
  literal `'\\\\'` (shipDataEditor.py:901). That test never holds, so while
  it brackets the ship list a backslash does not escape a quote
  (`RegionDialect.escapes == false`). The list and object balancers do
  honour escapes.
- `_iter_top_level_flow_maps` closes a string at the first matching quote
  that does not follow a backslash (shipDataEditor.py:936). An escaped
  backslash before the quote therefore still keeps the string open.
- The key search of `_iter_object_spans_for_key` has no prefix constraint.
  `monkey: x` matches as key `x` (`Pattern.NoPrefixConstraint`).
- The single-quoted alternative of the patch pattern ends in `'+`
  (shipDataEditor.py:1117), so a run of closing quotes is taken whole.
- `_repr_hjson_map_pretty` drops the map's last comma, but
  `_repr_hjson_list_pretty` keeps a comma after every element.
- An insert after a same-side block adds a comma after the new block as
  well as before it.
- The banner pattern ends in `\s*,?\s*$` under MULTILINE
  (shipDataEditor.py:807). The greedy `\s*` runs past line breaks, so
  re-stamping an existing banner also removes the blank lines after it, up
  to the last line break of that whitespace run (`Banner.BannerTail`,
  `Banner.LastEolIn`).
- Delete takes the first matching object anywhere in the text. It only
  checks that a ship list exists, not that the object lies inside it.

## Model

| member | source | states |
|---|---|---|
| Angles.Mod360 | shipDataEditor.py:96-97 | Python's `% 360` on a positive modulus: a result in [0, 360) that differs from the input by whole turns |
| Angles.NormalizeSpec | shipDataEditor.py:96-97 | `normalize_angle` lands in [-180, 180) and differs from its input by a whole number of turns |
| Angles.NormalizeFixes | shipDataEditor.py:96-97 | an angle already in [-180, 180) is returned unchanged |
| Angles.NormalizeIdempotent | shipDataEditor.py:96-97 | normalising twice is normalising once |
| Angles.NormalizePeriodic | shipDataEditor.py:96-97 | adding a full turn does not change the normalised angle |
| Angles.DiffNormalized | shipDataEditor.py:109-123 | the modular difference `is_between` takes does not depend on whether its operands were normalised |
| Angles.IsBetweenOnArc | shipDataEditor.py:109-123 | `is_between` holds exactly when the angle lies on the counter-clockwise arc from start to end, wrapping at 360 |
| Angles.OnArcTurns | shipDataEditor.py:109-123 | membership of an arc is invariant under whole turns |
| Angles.OnArcShifted | shipDataEditor.py:99-123 | normalising the barrel angle before adding the half-width does not change which arc an edge lies on |
| Angles.BeamOverlapsSpec | shipDataEditor.py:99-123 | `beam_overlaps_sector` is true exactly when one of the beam's two edges or its centre lies on the sector's arc |
| Angles.AimedBeamOverlaps | shipDataEditor.py:99-123 | a beam whose barrel points into the sector overlaps it, whatever its width |
| ViewCamera.Clamp | OrionData/obj_view_gl.py:432 | `max(lo, min(hi, x))` lies in [lo, hi], is `x` inside the range and the nearer bound outside it |
| ViewCamera.ClampIdempotent | OrionData/obj_view_gl.py:432 | clamping twice is clamping once |
| ViewCamera.OrbitCamera.constructor | OrionData/obj_view_gl.py:177-181 | yaw 30, pitch -15, zoom 2.5, wireframe off, no drag in progress; zoom and pitch within their clamps |
| ViewCamera.OrbitCamera.DragStart | OrionData/obj_view_gl.py:421-422 | records the pointer position and changes nothing else |
| ViewCamera.OrbitCamera.DragMove | OrionData/obj_view_gl.py:424-433 | before a drag nothing changes; during one, yaw and pitch move half a degree per pixel of pointer motion, pitch is clamped to ±89.9 and the pointer is recorded |
| ViewCamera.OrbitCamera.ZoomDir | OrionData/obj_view_gl.py:439-442 | a positive direction scales zoom by 0.9 and any other by 1.1, clamped to [0.5, 10]; zooming in never increases the zoom, zooming out never decreases it |
| ViewCamera.OrbitCamera.Wheel | OrionData/obj_view_gl.py:435-437 | a positive wheel delta zooms in, any other delta zooms out |
| ViewCamera.OrbitCamera.OnKey | OrionData/obj_view_gl.py:444-448 | `w` in either case toggles wireframe only; `r` restores the default yaw, pitch and zoom; every other key changes nothing |
| EasterEgg.Last | shipDataEditor.py:418-425 | the window holds the last `n` elements of the sequence, or all of them when there are fewer |
| EasterEgg.LastSnoc | shipDataEditor.py:418-425 | appending a key and dropping the oldest on overflow keeps exactly the last `n` presses |
| EasterEgg.KeyWatcher.constructor | shipDataEditor.py:410-416 | the secret is Up, Up, Down, Down and the window starts empty |
| EasterEgg.KeyWatcher.CheckKeySequence | shipDataEditor.py:418-425 | fires exactly when the last presses since the egg last fired spell the secret; a firing empties the window; the window never exceeds the secret's length |
| EasterEgg.SecretFires | shipDataEditor.py:418-425 | the secret typed after any history fires the egg |
| Records.GetSpec | shipDataEditor.py:1436 | `dict.get` finds nothing exactly when no entry has the key, and otherwise returns the value of an entry with that key |
| Records.GetFirst | shipDataEditor.py:1436 | the value `dict.get` returns is that of the first entry with the key |
| Records.UpdateGet | shipDataEditor.py:1436 | after `ship.update(updates)` a key reads its value from `updates` if present there, and otherwise from `ship` |
| Records.Remove | shipDataEditor.py:1269 | `dict.pop(k)` removes the key, keeps every other key's value and adds no entry |
| Records.Put | shipDataEditor.py:1270 | storing a key gives it the new value and leaves every other key alone; an existing key keeps its position and a new key goes last |
| Records.PyRepr | shipDataEditor.py:1413-1416 | `str()` of a list or dict, as the key search uses it: a list is bracketed, a dict braced, and a string item is quoted with `'` unless it holds a `'` and no `"` |
| Records.StrReprRoundTrip | shipDataEditor.py:1413-1416 | the quoted form of a string item reads back as the string, so different strings are written differently |
| Records.SortStrings | shipDataEditor.py:1452 | `sorted` returns an ordered permutation of its input |
| PyText.IntRoundTrip | OrionData/dialogs.py:96 | `int(str(n)) == n` for every integer |
| Scanner.NextSignificant | shipDataEditor.py:869-881 | the skip stops at the end of text or at a character that is neither whitespace nor the start of a `//`, `#` or block comment |
| Scanner.SkipToSignificant | shipDataEditor.py:869-881 | the skip loop computes `NextSignificant` |
| Scanner.ValueStartAfterKey | shipDataEditor.py:677-710 | a value found after a key sits at a non-space character |
| Scanner.BracketedFromIff | shipDataEditor.py:677-710 | the sniff is true exactly when the first candidate key that occurs is followed by a value starting with `[` |
| Scanner.SniffKeys | shipDataEditor.py:677-710 | the sniffing loop over the candidate keys computes `BracketedFrom` |
| Scanner.LooksHjsonish | shipDataEditor.py:677-710 | `_looks_hjsonish` computes `Bracketed` over `#ship-list`, `"#ship-list"` and the unhashed spellings |
| Scanner.FirstKeyHit | shipDataEditor.py:850-857 | a hit is an occurrence of one of the keys, with that key's length |
| Scanner.FindFirstKey | shipDataEditor.py:850-857 | the key search loop computes `FirstKeyHit` |
| Scanner.ValueAfterColon | shipDataEditor.py:858-881 | a value found after the colon lies beyond the colon at a non-space character |
| Scanner.Balance | shipDataEditor.py:883-920 | a balanced end lies past the start, just after a closing bracket of the dialect |
| Scanner.BalanceScan | shipDataEditor.py:883-920 | the quote-, comment- and depth-tracking walk computes `Balance` |
| Scanner.BalancePlain | shipDataEditor.py:883-920 | in text without quotes or comments, the balanced end is the first point where the bracket depth returns to zero |
| Scanner.ShipListRegion | shipDataEditor.py:840-922 | a region found runs from a `[` to its matching `]` |
| Scanner.ExtractShipListRegion | shipDataEditor.py:840-922 | `_extract_ship_list_region` computes `ShipListRegion` |
| Scanner.FlowMapsOk | shipDataEditor.py:924-950 | every block listed lies inside the array, starts with `{` and ends with `}`; blocks are in order and do not overlap |
| Scanner.IterTopLevelFlowMaps | shipDataEditor.py:924-950 | the scanning loop computes `FlowMaps`, and its blocks satisfy `SpansOk` |
| Pattern.QuotedEnd | shipDataEditor.py:965 | the end of a quoted run lies at a closing quote |
| Pattern.KeyMatchAt | shipDataEditor.py:961-971 | a `[Kk]ey` match at a position captures a value token that starts after it |
| Pattern.KeyMatches | shipDataEditor.py:1088 | `finditer` over the key pattern: every listed match is a real match at its position |
| Pattern.NoPrefixConstraint | shipDataEditor.py:966-967 | the key pattern also matches inside a longer word: `monkey: x` yields the value `x` |
| Pattern.PatchSearch | shipDataEditor.py:1111-1119 | the patch pattern's search returns the leftmost match, and no match exists when it returns none |
| Pattern.HeadSearch | shipDataEditor.py:1140-1144 | the list head's search returns the leftmost match, and no match exists when it returns none |
| ObjectFinder.BackwardOpen | shipDataEditor.py:986-1019 | the backward walk stops only at a `{` at or before the anchor |
| ObjectFinder.WalkBack | shipDataEditor.py:986-1019 | the backward scanning loop computes `BackwardOpen` |
| ObjectFinder.LastAnchoredBrace | shipDataEditor.py:1020-1031 | the fallback brace is the last line-anchored `{` at or before the anchor, or there is none |
| ObjectFinder.ObjectBounds | shipDataEditor.py:980-1086 | an object found around an anchor starts at or before it with `{` and ends with `}` |
| ObjectFinder.FindObjectBounds | shipDataEditor.py:980-1086 | `find_object_bounds` computes `ObjectBounds` |
| ObjectFinder.ObjectSpansForKey | shipDataEditor.py:953-1100 | every span yielded is a `{…}` object inside the text |
| ObjectFinder.ObjectSpansSound | shipDataEditor.py:1088-1100 | every span yielded is the object around a key match whose value equals the wanted key |
| ObjectFinder.SpansForComplete | shipDataEditor.py:1088-1100 | every key match with the wanted value and resolvable bounds contributes its object |
| ObjectFinder.CollectSpans | shipDataEditor.py:1088-1100 | the match loop computes `SpansFor` |
| ObjectFinder.IterObjectSpansForKey | shipDataEditor.py:953-1100 | `_iter_object_spans_for_key` computes `ObjectSpansForKey` |
| Render.EscapeIsOnePass | shipDataEditor.py:712-726 | the two chained `replace` calls escape backslashes and quotes as one left-to-right pass |
| Render.UnescapeEscape | shipDataEditor.py:712-726 | unescaping the escaped text gives back the original string |
| Render.ReprScalar | shipDataEditor.py:712-726 | every scalar renders to non-empty text; lists and maps are not scalars |
| Render.ReprScalarRoundTrip | shipDataEditor.py:712-726 | a rendered integer parses back to itself; a rendered string or null is quoted and unescapes to its `str()` |
| Render.ReprList | shipDataEditor.py:780-788 | a list of scalars renders as `[…]`; a list holding a list or map has no one-line form |
| Render.MapLinesShape | shipDataEditor.py:740-760 | a pretty map opens with `{`, closes with the indented `}`, and its last entry keeps no trailing comma |
| Render.ListLinesShape | shipDataEditor.py:762-777 | a pretty list opens with `[`, closes with the indented `]`, and its last element keeps its comma |
| Render.RenderValuePretty | shipDataEditor.py:727-738 | the dispatcher computes `ValuePretty` |
| Render.RenderMapPretty | shipDataEditor.py:740-760 | the loop over the entries computes `MapPretty` |
| Render.RenderListPretty | shipDataEditor.py:762-777 | the loop over the elements computes `ListPretty` |
| Render.AppendMapEntries | shipDataEditor.py:743-756 | appending the entries one at a time yields the full map body |
| Render.AppendListItems | shipDataEditor.py:765-775 | appending the elements one at a time yields the full list body |
| Patcher.PatchScalar | shipDataEditor.py:1103-1127 | at most one replacement, made exactly when the pattern matches; the value token is replaced by the new value and every character before and after it is kept |
| Patcher.RenderedStringReadWhole | shipDataEditor.py:1117 | a rendered string spliced into any text is read back by the value pattern as one token, and that token unescapes to the string |
| Patcher.FindListSite | shipDataEditor.py:1140-1177 | a site exists exactly when the head pattern matches; its value position is then the first significant character after the head, and its indent is the run of spaces and tabs starting that line |
| Patcher.PatchList | shipDataEditor.py:1130-1227 | at most one replacement; no replacement leaves the block as it was |
| Patcher.PatchListReplacesBracketed | shipDataEditor.py:1178-1227 | when the value is a balanced `[…]`, exactly that bracketed slice is replaced by the rendered list and the rest of the block is kept |
| Patcher.PatchListOtherCases | shipDataEditor.py:1140-1177 | no head match, a value position at the end of the block, or an unbalanced `[` leaves the block unchanged; a non-list value falls back to scalar patching with the rendered list |
| Patcher.RenderObjBracketed | shipDataEditor.py:1219 | a list of maps renders as a multi-line `[…]` closed at the sampled indent |
| Patcher.PatchListInBlock | shipDataEditor.py:1130-1227 | `_patch_list_in_block` computes `PatchList` |
| Patcher.SkipAfterHead | shipDataEditor.py:1162-1177 | the skip loop after the head computes `NextSignificant` |
| Banner.BannerValue | shipDataEditor.py:789-796 | the banner text carries the time stamp right after its fixed 21-character opening |
| Banner.BannerSearch | shipDataEditor.py:798-816 | the banner search returns the leftmost banner line and reports none only when no line matches |
| Banner.FoundLine | shipDataEditor.py:798-816 | a banner line found starts a line, has an indent of spaces and tabs only, and ends at a line break or the end of text |
| Banner.UpsertReplacesFirst | shipDataEditor.py:798-816 | with a banner present, the first banner line is replaced by the new one at the same indent and the rest of the text is kept |
| Banner.UpsertInsertsAfterBrace | shipDataEditor.py:798-816 | with no banner, the new line goes right after the first `{`, preceded by CRLF exactly when the text uses CRLF |
| Banner.UpsertLeavesBraceless | shipDataEditor.py:798-816 | text with neither a banner nor a `{` is returned unchanged |
| Banner.BannerLineRecognized | shipDataEditor.py:798-816 | any banner line the saver writes is matched by the banner pattern |
| Banner.UpsertReplacedIsFound | shipDataEditor.py:798-816 | after a replacing stamp, the next stamp finds the banner again |
| Banner.UpsertInsertedIsFound | shipDataEditor.py:798-816 | after an inserting stamp whose `{` ends its line, the next stamp finds the banner instead of inserting a second one |
| ShipBlock.DeduceKeyStyle | shipDataEditor.py:1230-1241 | each field keeps the sample's capitalised spelling when present, `key` is chosen only when the sample has `key` but not `Key`, and the rest default to lower case |
| ShipBlock.DefaultIsEmptySample | shipDataEditor.py:1230-1241 | with no sample ship the style is `Key`, `name`, `side`, `artfileroot` |
| ShipBlock.ApplyKeyStyleKeeps | shipDataEditor.py:1299-1315 | restyling leaves every field other than the four styled keys unchanged |
| ShipBlock.ApplyKeyStyleDrops | shipDataEditor.py:1299-1315 | after restyling, no styled key is left in the spelling the file does not use |
| ShipBlock.ApplyKeyStyleKey | shipDataEditor.py:1299-1315 | the key field carries the other spelling's value if there was one, else its own |
| ShipBlock.ApplyKeyStyleSide | shipDataEditor.py:1299-1315 | the side field carries the other spelling's value if there was one, else its own |
| ShipBlock.Reorder | shipDataEditor.py:1264-1270 | reordering keeps every field's value |
| ShipBlock.ReorderRest | shipDataEditor.py:1266-1270 | after the preferred fields come all the other fields, in the ship's own order |
| ShipBlock.ReorderLength | shipDataEditor.py:1266-1270 | reordering a dict neither adds nor loses an entry |
| ShipBlock.ReorderPrefix | shipDataEditor.py:1264-1270 | the preferred keys present in the ship come first, in the preferred order |
| ShipBlock.OrderFields | shipDataEditor.py:1264-1270 | the ordering loop computes `Reorder` |
| ShipBlock.RenderShipBlock | shipDataEditor.py:1259-1271 | `_render_ship_block` computes `ShipBlockText` |
| ShipBlock.ShipBlockShape | shipDataEditor.py:1259-1271 | a rendered ship block opens with `{` and closes with `}` at the item indent minus two |
| ShipBlock.SideText | shipDataEditor.py:1317-1328 | the side for clustering is the lower-cased truthy `side`, else the lower-cased truthy `Side`, else empty; it is none (the source raises) when the chosen value is not text |
| ShipBlock.SideTextIgnoresCase | shipDataEditor.py:1317-1328 | ships whose side texts agree ignoring case get the same side |
| ShipBlock.ShipListIndentation | shipDataEditor.py:1243-1257 | the line break is CRLF exactly when the text holds one; the base indent is the text from the start of the line up to `[`; the item indent is the text from the start of the first block's line up to that block, or the base indent plus two spaces when the list has no block |
| Editor.FirstDecodedFrom | shipDataEditor.py:1287-1297 | the probe takes the first block that decodes, skipping every earlier one |
| Editor.SampleStyle | shipDataEditor.py:1287-1297 | the sampled key style is always a valid choice of spellings |
| Editor.ProbeKeyStyle | shipDataEditor.py:1287-1297 | the probing loop computes `SampleStyle` |
| Editor.SameSideEnd | shipDataEditor.py:1317-1328 | the same-side scan fails exactly when some decodable block has a side that is not text |
| Editor.SameSideEndIsLast | shipDataEditor.py:1317-1328 | a successful scan ends after the last block with the new ship's side, or finds none when no block has that side |
| Editor.SameSideEndInList | shipDataEditor.py:1317-1328 | a same-side end found lies inside the ship list |
| Editor.FindSameSideEnd | shipDataEditor.py:1317-1328 | the loop computes `SameSideEnd` |
| Editor.BackOverSpace | shipDataEditor.py:1338-1341 | the backward walk passes only whitespace and stops at the array start or a non-space character |
| Editor.ScanBackOverSpace | shipDataEditor.py:1338-1341 | the backward loop computes `BackOverSpace` |
| Editor.PlanInList | shipDataEditor.py:1317-1358 | a planned insertion point lies strictly inside the ship list |
| Editor.PlaceBlock | shipDataEditor.py:1330-1358 | the insertion point lies strictly inside the ship list |
| Editor.PlaceBlockWhere | shipDataEditor.py:1331-1355 | after a same-side block the new block goes at that block's end with a comma on both sides; otherwise it goes at the closing `]`, with a leading comma exactly when the last non-space character before the bracket is not `[` |
| Editor.PlaceBlockAdds | shipDataEditor.py:1346-1358 | the added text is an optional leading `,` and line break, the item indent, the block, and a line break with or without a comma |
| Editor.PlanInListAddsBlock | shipDataEditor.py:1299-1358 | the text added is the restyled ship's rendered block, wrapped as in `PlaceBlockAdds` |
| Editor.PlanInsert | shipDataEditor.py:1279-1283 | empty text and text without a ship list are refused with their own errors; a plan lies inside the ship list |
| Editor.PlanInsertInRegion | shipDataEditor.py:1279-1358 | once the ship list is found, inserting is planning within that list |
| Editor.InsertInRegion | shipDataEditor.py:1330-1358 | a successful insert puts the planned text at the planned point and keeps everything else |
| Editor.InsertAddsOneBlock | shipDataEditor.py:1273-1358 | a successful insert adds exactly one rendered block, with separators, inside the ship list and nothing else |
| Editor.ComputePlanInList | shipDataEditor.py:1317-1358 | computes `PlanInList` |
| Editor.ComputePlace | shipDataEditor.py:1330-1358 | computes `PlaceBlock` |
| Editor.ComputePlan | shipDataEditor.py:1273-1358 | computes `PlanInsert` |
| Editor.DeleteSlice | shipDataEditor.py:1365-1373 | a cut exists exactly when the text is non-empty, has a ship list and has an object for the key |
| Editor.CutAround | shipDataEditor.py:1375-1393 | the cut covers the block |
| Editor.CutAroundIsSeparator | shipDataEditor.py:1375-1393 | the cut removes only whitespace and one comma besides the block: the comma before it when there is one, else a comma after it |
| Editor.DeleteCutsOneBlock | shipDataEditor.py:1360-1394 | a delete removes the first object whose key matches, plus separators, and keeps the text on either side |
| Editor.ComputeDeleteSlice | shipDataEditor.py:1360-1373 | computes `DeleteSlice` |
| Editor.ComputeCut | shipDataEditor.py:1375-1393 | computes `CutAround` |
| Editor.Locate | shipDataEditor.py:1413-1431 | the search is for `str()` of the value, a list or dict included; a located span is a `{…}` object of the text |
| Editor.LocateBy | shipDataEditor.py:1413-1431 | a missing or falsy key is not looked up; otherwise the lookup is `Locate` |
| Editor.FindShip | shipDataEditor.py:1413-1431 | the ship is looked up by `key`, then by `name`; a span found is a `{…}` object |
| Editor.Relocate | shipDataEditor.py:1432-1446 | after an insert, the ship is looked up again; a span found is a `{…}` object |
| Editor.ComputeLocate | shipDataEditor.py:1413-1431 | computes `Locate` |
| Editor.ComputeFindShip | shipDataEditor.py:1413-1431 | computes `FindShip` |
| Editor.ComputeRelocate | shipDataEditor.py:1432-1446 | computes `Relocate` |
| Editor.KeyForms | shipDataEditor.py:1452-1474 | a field is patched under its own name, plus the other capitalisation for the four styled keys |
| Editor.PatchField | shipDataEditor.py:1452-1474 | patching a field fails exactly when its value is a map, or a list of scalars without a one-line form |
| Editor.SortedKeys | shipDataEditor.py:1452 | the fields are patched in sorted order, each of them exactly once |
| Editor.PatchOne | shipDataEditor.py:1452-1474 | computes `PatchField` |
| Editor.PatchFields | shipDataEditor.py:1452-1474 | the patch loop computes the fold of `PatchField` over the sorted keys |
| Editor.PatchAndStamp | shipDataEditor.py:1452-1479 | a failed patch leaves the text unchanged |
| Editor.PatchNothing | shipDataEditor.py:1476-1479 | with no changed fields, the save only stamps the banner |
| Editor.SaveFailsWhole | shipDataEditor.py:1395-1480 | a failed save leaves the text as it was, or as the fallback insert of the updated ship left it |
| Editor.SaveTouchesOnlyTheBlock | shipDataEditor.py:1395-1480 | a successful save of a located ship replaces only that ship's block, then stamps the banner |
| Editor.SaveNothingStampsBanner | shipDataEditor.py:1395-1480 | saving with no changes only stamps the banner |
| Editor.ShipEditor.constructor | shipDataEditor.py:1273 | the editor holds the loaded raw text |
| Editor.ShipEditor.Insert | shipDataEditor.py:1273-1358 | the new text is `InsertText` of the old, or the text is unchanged and the error is returned |
| Editor.ShipEditor.Delete | shipDataEditor.py:1360-1394 | reports removal exactly when `DeleteText` succeeds, and then the text is its result |
| Editor.ShipEditor.Save | shipDataEditor.py:1395-1480 | the new text and the error are `SaveText` of the old text |
| PostProcess.Visible | shipDataEditor.py:1681-1744 | the text with all whitespace removed, the measure the pass must preserve |
| PostProcess.FlowMapText | shipDataEditor.py:1692-1732 | `fix_flow_map` always yields a `{…}` text |
| PostProcess.QuotedCopyVerbatim | shipDataEditor.py:1700-1714 | the corrected string walk copies the quoted text exactly as it stands |
| PostProcess.CopyQuoted | shipDataEditor.py:1700-1714 | the corrected quoted-copy loop computes `QuotedCopy` |
| PostProcess.FixFlowMap | shipDataEditor.py:1692-1732 | the corrected `fix_flow_map` loop computes `FlowMapText` |
| PostProcess.FixFromVisible | shipDataEditor.py:1692-1732 | the corrected walk changes only whitespace |
| PostProcess.FlowMapTextVisible | shipDataEditor.py:1692-1732 | the corrected `fix_flow_map` keeps every non-space character and wraps them in braces |
| PostProcess.MapFixerKeepsLook | shipDataEditor.py:1733-1744 | the corrected rewrite of a `{…}` keeps its non-space text |
| PostProcess.SubMapsVisible | shipDataEditor.py:1733-1744 | rewriting every flow map of a list body keeps its non-space text |
| PostProcess.ListMatchShape | shipDataEditor.py:1732 | a list match is a `ship-list` key, then whitespace, `:`, whitespace, `[`, the body and `]` |
| PostProcess.SubListsVisible | shipDataEditor.py:1733-1744 | rewriting every ship list keeps the non-space text |
| PostProcess.SubListsNoMatch | shipDataEditor.py:1733-1744 | text without a ship-list key is left alone |
| PostProcess.PostprocessNoList | shipDataEditor.py:1681-1744 | text without `ship-list` comes back unchanged |
| PostProcess.PostprocessKeepsVisible | shipDataEditor.py:1681-1744 | the corrected pass changes whitespace and nothing else |
| PostProcess.FixFlowMapDropsEscaped | shipDataEditor.py:1700-1714 | the walk as written turns `"a\"b"` into `"a\b"`, losing the escaped quote |
| PostProcess.PostprocessAsWrittenLosesEscape | shipDataEditor.py:1681-1744 | the pass as written changes more than whitespace on `ship-list:[{"a\"b"}]` |
| PostProcess.ExampleOutput | shipDataEditor.py:1681-1744 | the exact output of the pass as written on that input |
| SideGroups.Friendly | shipDataEditor.py:2110 | the display name is the raw side with only its first letter upper-cased |
| SideGroups.Classify | shipDataEditor.py:2091-2108 | a ship is valid exactly when its side is non-blank text; invalid ships go to the `unknown` bucket shown as `Unknown` |
| SideGroups.BuildSideGroups | shipDataEditor.py:2085-2114 | the grouping loop computes `GroupAll` |
| SideGroups.GroupAllFails | shipDataEditor.py:2093-2094 | the grouping fails exactly when some ship's `name` or `key` is present but not text, so that `.strip()` raises |
| SideGroups.AddShipSpec | shipDataEditor.py:2098-2112 | adding a ship keeps bucket keys distinct, appends the ship to its bucket, opens a new bucket last, and leaves other buckets alone |
| SideGroups.GroupAllSpec | shipDataEditor.py:2085-2114 | each bucket holds exactly the ships whose side folds to its key, in input order; the invalid set is exactly the keys of the invalid ships |
| SideGroups.SameFoldSameBucket | shipDataEditor.py:2088-2089 | two sides that agree ignoring case land in the same bucket |
| SideGroups.SideGroupsOf | shipDataEditor.py:2078-2114 | `_build_side_groups` fails exactly when some ship's `name` or `key` is not text, and otherwise groups by side and records the invalid ones |
| Dialogs.BeamWordsShape | OrionData/dialogs.py:329-350 | the pasted words are non-empty, contain no whitespace and no comma |
| Dialogs.BeamPaste | OrionData/dialogs.py:329-350 | no clipboard is a paste failure, a count other than three numbers is refused, and three words become x, y and z |
| Dialogs.BeamPastePlain | OrionData/dialogs.py:329-350 | `x y z` or `x, y, z` pastes as those three numbers |
| Dialogs.BeamPasteLegacy | OrionData/dialogs.py:332-338 | the legacy `[x, y, z],` form pastes as the same three numbers |
| Dialogs.BeamPasteText | OrionData/dialogs.py:329-350 | whatever the clipboard, it pastes as the three words of its cleaned text |
| Dialogs.ExhaustPaste | OrionData/dialogs.py:489-509 | no clipboard, an unbracketed text and a bracket without exactly three non-blank parts each give their own error; a success gives three stripped, comma-free, non-empty parts |
| Dialogs.ExhaustPasteOf | OrionData/dialogs.py:489-509 | a bracketed text with three parts pastes as those parts stripped |
| Dialogs.ExhaustPasteBracketed | OrionData/dialogs.py:489-509 | `[x, y, z]` with any spacing pastes as x, y and z |
| Dialogs.ExhaustRefusesPlain | OrionData/dialogs.py:494-507 | an unbracketed `x y z` is refused by the exhaust dialog yet accepted by the beam dialog |
| Dialogs.NonBlankKeeps | OrionData/dialogs.py:498 | filtering blank parts keeps only non-blank parts of the input, never more than it had |
| Dialogs.LiveRemove | OrionData/dialogs.py:73-80 | removing a row drops exactly that row from the live rows |
| Dialogs.LiveReplace | OrionData/dialogs.py:329-350 | replacing a live row keeps the number of live rows and their order |
| Dialogs.LivePresent | OrionData/dialogs.py:10-52 | a freshly built dialog's live rows are its initial rows |
| Dialogs.ConvertAll | OrionData/dialogs.py:363-393 | the conversion fails exactly when some row fails to convert, and otherwise converts each row in order |
| Dialogs.ConvertStops | OrionData/dialogs.py:363-393 | one bad live row makes the whole conversion fail |
| Dialogs.ConvertLive | OrionData/dialogs.py:363-393 | the `on_ok` loop over live rows computes `ConvertAll` |
| Dialogs.PasteAt | OrionData/dialogs.py:329-350 | a parse error or a removed row leaves the rows unchanged with an error; otherwise the row's x, y, z are replaced |
| Dialogs.Cells | OrionData/dialogs.py:88-96 | each row is read as its stripped type and parsed count |
| Dialogs.TorpedoScanSpec | OrionData/dialogs.py:82-102 | the torpedo check succeeds exactly when the named rows have distinct types and integer counts, and then yields one entry per named row |
| Dialogs.TorpedoIgnoresBlank | OrionData/dialogs.py:90 | rows with a blank type do not affect the check |
| Dialogs.TorpedoErrorStays | OrionData/dialogs.py:82-102 | once a row is rejected, later rows do not change the outcome |
| Dialogs.InitialTorpedoRows | OrionData/dialogs.py:24-30 | one row per current torpedo type, or one blank row when there are none |
| Dialogs.TorpedoRoundTrip | OrionData/dialogs.py:24-102 | pressing OK on an unedited dialog returns the torpedoes it was opened with |
| Dialogs.BlankStartRow | OrionData/dialogs.py:30 | the blank starting row of an empty dialog yields no torpedoes |
| Dialogs.TorpedoDialog.constructor | OrionData/dialogs.py:10-52 | the rows are the initial rows, all present, and there is no result yet |
| Dialogs.TorpedoDialog.AddRow | OrionData/dialogs.py:54-71 | appends one present row |
| Dialogs.TorpedoDialog.RemoveRow | OrionData/dialogs.py:73-80 | turns exactly that row into a tombstone |
| Dialogs.TorpedoDialog.OnOk | OrionData/dialogs.py:82-102 | the check over the live rows decides; only a success sets the result |
| Dialogs.IntReadsBack | OrionData/dialogs.py:373-377 | an integer written to an entry reads back to itself after stripping |
| Dialogs.BeamRowRoundTrip | OrionData/dialogs.py:149-393 | a beam port written into a row reads back to itself |
| Dialogs.DefaultBeamPort | OrionData/dialogs.py:290-301 | a new row reads as a port at the origin, colour `red`, all numbers zero |
| Dialogs.InitialBeamRows | OrionData/dialogs.py:149-167 | one row per current port, or one default row when there are none |
| Dialogs.BeamRoundTrip | OrionData/dialogs.py:149-393 | pressing OK on an unedited beam dialog returns the ports it was opened with |
| Dialogs.BeamPortsDialog.constructor | OrionData/dialogs.py:114-195 | the rows are the initial rows and there is no result yet |
| Dialogs.BeamPortsDialog.AddRow | OrionData/dialogs.py:288-327 | appends the given row, or the default row |
| Dialogs.BeamPortsDialog.RemoveRow | OrionData/dialogs.py:352-361 | turns exactly that row into a tombstone |
| Dialogs.BeamPortsDialog.PastePosition | OrionData/dialogs.py:329-350 | a bad paste or a removed row changes nothing and reports the error; otherwise only that row's x, y, z change |
| Dialogs.BeamPortsDialog.OnOk | OrionData/dialogs.py:363-393 | all live rows convert and become the result, or the dialog reports the invalid numbers and keeps its old result |
| Dialogs.InitialExhaustRows | OrionData/dialogs.py:424-435 | one row per current port, or one default row when there are none |
| Dialogs.ExhaustRowRoundTrip | OrionData/dialogs.py:424-540 | an exhaust port written into a row reads back to itself |
| Dialogs.ExhaustRoundTrip | OrionData/dialogs.py:424-540 | pressing OK on an unedited exhaust dialog returns the ports it was opened with |
| Dialogs.ExhaustPortsDialog.constructor | OrionData/dialogs.py:401-450 | the rows are the initial rows and there is no result yet |
| Dialogs.ExhaustPortsDialog.AddRow | OrionData/dialogs.py:452-487 | appends the given row, or the default row |
| Dialogs.ExhaustPortsDialog.RemoveRow | OrionData/dialogs.py:511-519 | turns exactly that row into a tombstone |
| Dialogs.ExhaustPortsDialog.PastePosition | OrionData/dialogs.py:489-509 | a bad paste or a removed row changes nothing and reports the error; otherwise only that row's x, y, z change |
| Dialogs.ExhaustPortsDialog.OnOk | OrionData/dialogs.py:521-540 | all live rows convert and become the result, or the dialog reports the invalid numbers and keeps its old result |
| Dialogs.GeneratedKeyShape | OrionData/dialogs.py:561-566 | the generated key is `side_name`, lower case, with spaces replaced by underscores and its length preserved |
| Dialogs.UpdateKeyStable | OrionData/dialogs.py:561-568 | with side and name filled in, the key follows them whatever it was; otherwise it is kept; updating twice is updating once |
| Dialogs.NewShipCheckSpec | OrionData/dialogs.py:608-648 | a blank required field is reported first, then an unparsable scale, and otherwise the check succeeds |
| Dialogs.ShipRecordFields | OrionData/dialogs.py:623-647 | the new ship's dict carries the entered strings, the formatted scales and zeroed counters |
| Dialogs.NewShipDialog.constructor | OrionData/dialogs.py:548-606 | defaults: the first existing side or `Unknown`, name `New Ship`, art root `unknown`, scales 1 and radius 0 |
| Dialogs.NewShipDialog.SetSide | OrionData/dialogs.py:561-568 | changing the side regenerates the key and changes nothing else |
| Dialogs.NewShipDialog.SetName | OrionData/dialogs.py:561-568 | changing the name regenerates the key and changes nothing else |
| Dialogs.NewShipDialog.OnOk | OrionData/dialogs.py:608-648 | a failed check reports its error and keeps the old result; a success sets the new ship; the fields stay as entered |
| ObjViewer.Fan | OrionData/obj_view_gl.py:10-15 | a polygon of n ≥ 3 corners gives n − 2 triangles `(p0, pi, pi+1)`; smaller ones give none |
| ObjViewer.Triangulate | OrionData/obj_view_gl.py:10-15 | `_triangulate` computes the fan |
| ObjViewer.IdxOfInt | OrionData/obj_view_gl.py:61-70 | a positive index is one-based, a negative one counts from the end, and zero is missing |
| ObjViewer.IdxSameElement | OrionData/obj_view_gl.py:61-70 | index k and index k − n − 1 name the same element |
| ObjViewer.FaceTokenTriple | OrionData/obj_view_gl.py:71-86 | `v/t/n` resolves all three indices |
| ObjViewer.FaceTokenPair | OrionData/obj_view_gl.py:71-86 | `v/t` has no normal index |
| ObjViewer.FaceTokenNoTexture | OrionData/obj_view_gl.py:71-86 | `v//n` has no texture index |
| ObjViewer.FaceTokenBare | OrionData/obj_view_gl.py:71-86 | a bare `v` has only a vertex index |
| ObjViewer.FaceCorners | OrionData/obj_view_gl.py:71-86 | a face parses exactly when every token resolves, and then each corner carries its token's indices and the active material |
| ObjViewer.ParseFace | OrionData/obj_view_gl.py:71-86 | the token loop computes `FaceCorners` |
| ObjViewer.ActiveIsLastUsemtl | OrionData/obj_view_gl.py:90-91 | the active material after reading is the one named by the last `usemtl` line |
| ObjViewer.FaceLineAppends | OrionData/obj_view_gl.py:59-87 | a face line fails exactly when one of its tokens fails; otherwise one face is appended |
| ObjViewer.IgnoredLine | OrionData/obj_view_gl.py:46-50 | comment lines, blank lines and faces with fewer than three corners change nothing |
| ObjViewer.NoneStays | OrionData/obj_view_gl.py:44-91 | once a line fails to parse, the whole load fails |
| ObjViewer.ReadObjLine | OrionData/obj_view_gl.py:46-91 | the per-line dispatch computes `ObjLine` |
| ObjViewer.ReadObj | OrionData/obj_view_gl.py:44-91 | the line loop computes `ObjLines`; when a line fails it also gives that line and what the lines before it built |
| ObjViewer.MaterialBlock | OrionData/obj_view_gl.py:94-116 | a `newmtl` block ends with its name mapped to its last `map_Kd` |
| ObjViewer.NoMaterialNoChange | OrionData/obj_view_gl.py:94-116 | an MTL file with no `newmtl` leaves the material map unchanged |
| ObjViewer.ReadMtl | OrionData/obj_view_gl.py:102-114 | the MTL loop computes `MtlFile` |
| ObjViewer.ReadMtlLibs | OrionData/obj_view_gl.py:94-116 | the loop over libraries computes `MtlLibs`, skipping files not present |
| ObjViewer.FanAllCount | OrionData/obj_view_gl.py:119-122 | triangulating all faces gives as many triangles as the faces' fans have |
| ObjViewer.TriangulateAll | OrionData/obj_view_gl.py:119-122 | the loop computes `FanAll` |
| ObjViewer.Mesh | OrionData/obj_view_gl.py:138-146 | one output triangle per input triangle |
| ObjViewer.MeshDefaults | OrionData/obj_view_gl.py:138-146 | a valid index picks its element; an invalid or missing one gives the origin, `(0, 0)` or the normal `(0, 0, 1)` |
| ObjViewer.BuildMesh | OrionData/obj_view_gl.py:138-146 | the conversion loop computes `Mesh` |
| ObjViewer.FirstTexture | OrionData/obj_view_gl.py:148-156 | the texture is that of the first used material with a `map_Kd`, or none when no used material has one |
| ObjViewer.PickTexture | OrionData/obj_view_gl.py:148-156 | the loop computes `FirstTexture` |
| ObjViewer.ObjModel.constructor | OrionData/obj_view_gl.py:19-34 | an empty model with no texture |
| ObjViewer.ObjModel.Load | OrionData/obj_view_gl.py:36-157 | succeeds exactly when every line parses; then the vertex lists, the triangles and the texture are those of the specification; on failure (where the source raises) the vertex lists are those the lines before the failing line appended, with no triangles and no texture |

## Left out

- HJSON decoding (`hjson.loads`) is a parameter `Decoder` that returns `None` where the library raises.
- Whole-document loading and dumping (`load_data`, `save_data`, ruamel round-trip mode) are not modelled. Only the text patcher that the editor runs on the loaded text is.
- File I/O, `os.path`, `Orion.hjson` discovery and the image and texture loaders are outside the model. MTL files are given as a map from name to lines. Their presence on disk is a set of names.
- The clock: the banner's time stamp is a parameter of the save.
- Floating point: `float()` is the parameter `FloatParser` and `str(float)` is `FloatFormatter`. Angles and camera values are exact reals. The OBJ loader's vertex normalisation (centre and scale) is not modelled, so its `v` is the vertices as read.
- `calculate_damage_statistics`, `_coerce_like`, the preview's `_pick`/`_raycast`, `_draw_overlays` and all GL drawing are not modelled. They are floating-point geometry or rendering.
- Tk widgets, event binding, message boxes, redraw requests and debug `print`s are not modelled. The dialogs are modelled on their entry texts and row lists.
- Text is ASCII: case folding, `isspace` and `upper` are those of ASCII characters.
- Records.PyRepr: characters outside ASCII are written as they are. Python escapes those it counts as unprintable, which needs the Unicode database.
- Exception messages are modelled as fixed error strings, not as the library's texts.
- Patcher.RenderedStringReadWhole: proved for strings rendered by `ReprScalar`. A value token that some other writer quoted is not covered.
- Editor.PlanInList: its contract only bounds the insertion point. The exact text added is stated by `Editor.PlanInListAddsBlock`.
- Editor.PlaceBlock: its contract only bounds the insertion point. Where the block goes and which commas it gets are stated by `Editor.PlaceBlockWhere`.

## Findings

| source | as written | input that shows it | evidently intended | confidence | as-written member | corrected member |
|---|---|---|---|---|---|---|
| shipDataEditor.py:1700-1714 | inside a quoted string, `fix_flow_map` appends only the backslash of an escape pair and then skips both characters, so the escaped character is lost | `ship-list:[{"a\"b"}]` becomes a list holding `{"a\b"}` | copy the backslash and the escaped character, so the pass only changes whitespace | not executed | PostProcess.PostprocessAsWrittenLosesEscape | PostProcess.PostprocessKeepsVisible |
