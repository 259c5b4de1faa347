# Wired: avatar equipping, flow loading, accessor packing and panel logic in Dafny

This project models the pure logic at the heart of five pieces of the Wired
3D-space platform, and proves properties of that logic:

- **glTF accessor packing** (`processAccessor` of the new engine's glTF
  exporter), module `Exporter` with `GltfConstants`. It covers:
  - mapping the attribute's typed array to a glTF component type;
  - defaulting and draw-range clamping of the element window;
  - the item-size and interleaved-buffer errors;
  - the writer call;
  - appending the accessor to the document.
- **Avatar equip / unequip** (`AvatarLayout`), module `AvatarProfile`. It
  covers:
  - copying Lens profile attributes with nullish fields turned into
    undefined ones;
  - `addAttribute`, which removes, appends or replaces by key;
  - the `isEquipped` lookup;
  - the unequip filter.
- **Script-editor flow loading** (`loadFlow`), module `ScriptFlow`. The
  behaviour-graph properties of the scene become the editor's nodes and its
  flow and parameter edges.
- **Play settings panel** (`Settings`), module `PlaySettings` with
  `RadixStrings`. It covers:
  - the guest name, whose id is printed in hex and padded to two digits;
  - the handle label, whose id is padded to four digits;
  - the performance-rank colour.
- **Inspector panel** (`InspectMenu`), module `Inspector`. It covers the
  list of components the add button offers and the panels that are shown.

`Wrappers` holds the `Option` and `Result` types.

Side effects become explicit in the model:

- The exporter's mutations become values: a new document together with the
  writer call that the code makes.
- The typed-array dispatch becomes an `ArrayKind` datatype.
- The writers and `getMinMax` become function parameters, as does the
  `ATTRIBUTE_TYPES` item-size table (`types`). The glTF 2.0 element-type
  table is given as `GltfConstants.StandardAttributeTypes`.
- JavaScript `null` and `undefined` are told apart wherever the code tells
  them apart, using `AvatarProfile.Nullish`.

## Model

| member | source | states |
|---|---|---|
| Exporter.ComponentTypeOf | packages/new-engine/src/gltf/exporter/processAccessor.ts:43-58 | Float32, Uint32, Uint16 and Uint8 arrays are exactly the kinds mapped to FLOAT, UNSIGNED_INT, UNSIGNED_SHORT and UNSIGNED_BYTE; every other kind has no component type |
| Exporter.RequestedWindow | packages/new-engine/src/gltf/exporter/processAccessor.ts:38-60 | a missing start is 0 and a missing count is the attribute's count; given values are kept |
| Exporter.DrawEnd | packages/new-engine/src/gltf/exporter/processAccessor.ts:66-69 | a finite draw range ends its count of elements after its start; an infinite one ends at the attribute's count |
| Exporter.ClampToDrawRange | packages/new-engine/src/gltf/exporter/processAccessor.ts:63-75 | without a non-indexed geometry the window is unchanged; otherwise the clamped window holds exactly the elements both requested and inside the draw range (an infinite range ends at the attribute's count), starts at one of the two starts, and never has a negative count |
| Exporter.WriterCallFor | packages/new-engine/src/gltf/exporter/processAccessor.ts:92-98 | the interleaved writer is called exactly for interleaved attributes, with the given buffer, and both writers get the component type and the clamped window |
| Exporter.ProcessAccessor | packages/new-engine/src/gltf/exporter/processAccessor.ts:20-117 | an unsupported array kind is an error whatever the other arguments; a requested count of 0 then returns null and leaves the document unchanged; then an unknown item size, then an interleaved attribute without a buffer, is an error (each as an if-and-only-if); otherwise one accessor is appended after the existing ones (an absent list starts empty) and its index returned; it has byte offset 0, the component code, the clamped count, the min/max of the clamped window, the element type of the item size, the writer's buffer view and buffer index, and `normalized` only when the attribute is normalized |
| Exporter.ClampedToZeroIsStillWritten | packages/new-engine/src/gltf/exporter/processAccessor.ts:60-75 | a nonzero requested count that clamping reduces to 0 still gives an appended accessor, of count 0 |
| Exporter.ClampedToZeroExample | packages/new-engine/src/gltf/exporter/processAccessor.ts:60-116 | elements 8..9 of a ten-element FLOAT VEC3 attribute under draw range 0..4 clamp to window (8, 0) and are packed as accessor 0 with count 0 |
| Exporter.ProcessAccessorClampedCheck | packages/new-engine/src/gltf/exporter/processAccessor.ts:60-75 | with the zero check after clamping, an appended accessor never has count 0, and has count at least 1 whenever the requested count is not negative; in every other case it agrees with the code |
| Exporter.FloatVec3Example | packages/new-engine/src/gltf/exporter/processAccessor.ts:43-110 | a flat Float32 attribute of item size 3 packed over elements 0..2 gives a FLOAT (5126) VEC3 accessor of count 3 whose bounds are those of that window |
| Exporter.PackingTwiceAppendsTwice | packages/new-engine/src/gltf/exporter/processAccessor.ts:114-116 | nothing is reused: packing the same attribute twice appends two accessors at consecutive indices, keeps the earlier ones and makes two writer calls |
| GltfConstants.CodesAreDistinct | packages/new-engine/src/gltf/exporter/processAccessor.ts:44-55 | the four component codes differ, so a code identifies its component type |
| AvatarProfile.OrUndefined | apps/client/src/components/layouts/AvatarLayout/AvatarLayout.tsx:58-59 | `?? undefined` keeps a defined value and turns null into undefined, never null |
| AvatarProfile.CopyAttribute | apps/client/src/components/layouts/AvatarLayout/AvatarLayout.tsx:54-61 | the copy keeps key and value and every defined trait or display type, and has no null field |
| AvatarProfile.CopyAttributes | apps/client/src/components/layouts/AvatarLayout/AvatarLayout.tsx:53-62 | absent profile attributes give the empty list; otherwise the copy of each attribute, in order |
| AvatarProfile.FindIndex | apps/client/src/components/layouts/AvatarLayout/AvatarLayout.tsx:77-79 | -1 exactly when no attribute has the key; otherwise the first position whose key matches |
| AvatarProfile.Find | apps/client/src/components/layouts/AvatarLayout/AvatarLayout.tsx:44 | the first attribute with the key, and none when the list is absent or has no such key |
| AvatarProfile.KeyCount | apps/client/src/components/layouts/AvatarLayout/AvatarLayout.tsx:77-79 | a key occurs zero times exactly when the search for it finds nothing |
| AvatarProfile.AddAttribute | apps/client/src/components/layouts/AvatarLayout/AvatarLayout.tsx:71-93 | an undefined value removes the first entry with the key (no change when there is none); a value is appended when the key is new and otherwise replaces the first entry in place; afterwards the key's lookup yields the new entry, and removal lowers the key's count by one |
| AvatarProfile.Equip | apps/client/src/components/layouts/AvatarLayout/AvatarLayout.tsx:53-95 | equipping an id makes the "avatar" lookup find exactly the new entry; equipping undefined removes one "avatar" entry if there is one; the entries with other keys are the copied profile's, in order |
| AvatarProfile.EquipThenEquipped | apps/client/src/components/layouts/AvatarLayout/AvatarLayout.tsx:44-95 | after `addAttribute("avatar", id)` the equipped check of that id holds |
| AvatarProfile.IsEquipped | apps/client/src/components/layouts/AvatarLayout/AvatarLayout.tsx:44-45 | with an "avatar" entry, the page shows the avatar as equipped exactly when its id is the first such entry's value; without one (or without a profile list), exactly when the id is undefined |
| AvatarProfile.AddAttributeIdempotent | apps/client/src/components/layouts/AvatarLayout/AvatarLayout.tsx:71-93 | adding the same key and value twice is the same as adding it once |
| AvatarProfile.AddThenRemove | apps/client/src/components/layouts/AvatarLayout/AvatarLayout.tsx:71-93 | for a key not yet present, adding it and then removing it restores the list |
| AvatarProfile.AddAttributeKeepsOtherKeys | apps/client/src/components/layouts/AvatarLayout/AvatarLayout.tsx:71-93 | every entry with another key survives `addAttribute`, in the same order |
| AvatarProfile.RemovedCount | apps/client/src/components/layouts/AvatarLayout/AvatarLayout.tsx:81-85 | splicing out the first entry with a key lowers the number of entries with that key by exactly one |
| AvatarProfile.MarkAvatars | apps/client/src/components/layouts/AvatarLayout/AvatarLayout.tsx:124-134 | each entry becomes null exactly when its key is "avatar", and otherwise becomes its copy, position by position |
| AvatarProfile.Compact | apps/client/src/components/layouts/AvatarLayout/AvatarLayout.tsx:135 | the kept values are exactly the non-null entries, and there are no more of them than entries |
| AvatarProfile.CompactAppend | apps/client/src/components/layouts/AvatarLayout/AvatarLayout.tsx:135 | filtering a concatenation is filtering each part and concatenating, so order and repeats are kept |
| AvatarProfile.CompactSingle | apps/client/src/components/layouts/AvatarLayout/AvatarLayout.tsx:135 | a single value is kept and a single null is dropped |
| AvatarProfile.Unequip | apps/client/src/components/layouts/AvatarLayout/AvatarLayout.tsx:122-135 | no attribute of the result has the key "avatar" |
| AvatarProfile.UnequipKeepsOthersInOrder | apps/client/src/components/layouts/AvatarLayout/AvatarLayout.tsx:122-135 | unequipping is copying the attributes other than "avatar", in their order, so the length drops by the number of avatar entries |
| AvatarProfile.WithoutKeyMembers | apps/client/src/components/layouts/AvatarLayout/AvatarLayout.tsx:122-135 | the entries kept when a key is dropped are exactly those with another key |
| AvatarProfile.CopyWithoutKey | apps/client/src/components/layouts/AvatarLayout/AvatarLayout.tsx:122-135 | copying and dropping a key commute |
| AvatarProfile.CopyIdempotent | apps/client/src/components/layouts/AvatarLayout/AvatarLayout.tsx:53-62 | copying an already copied list changes nothing |
| AvatarProfile.UnequipAfterEquip | apps/client/src/components/layouts/AvatarLayout/AvatarLayout.tsx:95-135 | unequipping after equipping any id gives what unequipping the original profile gives |
| AvatarProfile.UnequipThenNotEquipped | apps/client/src/components/layouts/AvatarLayout/AvatarLayout.tsx:44-45 | after unequipping, no id counts as equipped |
| ScriptFlow.NodeOf | apps/client/src/editor/components/ScriptMenu/utils/loadFlow.ts:20-25 | the editor node takes the node's name as id and its type; absent parameters give empty data and an absent position gives (0, 0) |
| ScriptFlow.EmittedOfMembers | apps/client/src/editor/components/ScriptMenu/utils/loadFlow.ts:12-18 | the kept properties are exactly the behaviour nodes of the list whose extras name the script; every other property is dropped |
| ScriptFlow.FlowLinks | apps/client/src/editor/components/ScriptMenu/utils/loadFlow.ts:27-37 | one link per flow entry, in order: from the node's output named by the key to the "flow" input of the node named by the value |
| ScriptFlow.ParamLinks | apps/client/src/editor/components/ScriptMenu/utils/loadFlow.ts:39-51 | a node gets exactly one parameter link per parameter that holds a link |
| ScriptFlow.ParamLinksSound | apps/client/src/editor/components/ScriptMenu/utils/loadFlow.ts:39-51 | every parameter link goes from a linked parameter's link and socket to that parameter of the node |
| ScriptFlow.ParamLinksComplete | apps/client/src/editor/components/ScriptMenu/utils/loadFlow.ts:39-51 | every linked parameter has its link; the other parameters have none |
| ScriptFlow.NodeLinks | apps/client/src/editor/components/ScriptMenu/utils/loadFlow.ts:27-51 | a node contributes one edge per flow output plus one per linked parameter |
| ScriptFlow.LoadFlow | apps/client/src/editor/components/ScriptMenu/utils/loadFlow.ts:8-55 | edge ids are fresh and consecutive, in the order the edges are pushed |
| ScriptFlow.LoadFlowEdgeCount | apps/client/src/editor/components/ScriptMenu/utils/loadFlow.ts:12-52 | the number of edges is the sum, over the script's behaviour nodes, of their flow outputs and linked parameters |
| ScriptFlow.LoadFlowNodes | apps/client/src/editor/components/ScriptMenu/utils/loadFlow.ts:12-25 | the nodes are exactly one per behaviour node of the script, in list order; every other property is skipped |
| ScriptFlow.LoadFlowAppend | apps/client/src/editor/components/ScriptMenu/utils/loadFlow.ts:12-52 | loading a concatenated list is loading its halves one after the other |
| ScriptFlow.LoadFlowSingle | apps/client/src/editor/components/ScriptMenu/utils/loadFlow.ts:12-52 | one behaviour node of the script yields its node and its edges; any other property yields nothing |
| ScriptFlow.SkippedPropertyIsInvisible | apps/client/src/editor/components/ScriptMenu/utils/loadFlow.ts:13-18 | inserting a property of another script or another kind changes neither nodes nor edges |
| ScriptFlow.NodeFlowEdges | apps/client/src/editor/components/ScriptMenu/utils/loadFlow.ts:27-37 | flow entry k of a node gives its edge k: from the node's output named by the key to the target's "flow" input |
| ScriptFlow.NodeParamEdges | apps/client/src/editor/components/ScriptMenu/utils/loadFlow.ts:39-51 | after the flow edges, each edge belongs to a linked parameter and each linked parameter has an edge |
| RadixStrings.NatToString | apps/client/src/play/ui/Settings.tsx:53 | `toString(radix)` of a natural number is a non-empty string of digits, one digit exactly when the number is below the radix, with no leading zero unless it is 0 |
| RadixStrings.IntToString | apps/client/src/play/ui/Settings.tsx:53 | a negative number prints as "-" and the digits of its magnitude; a non-negative one as its digits |
| RadixStrings.ParseNat | apps/client/src/play/ui/Settings.tsx:162 | a string has a value exactly when it is a non-empty string of digits |
| RadixStrings.PadStart | apps/client/src/play/ui/Settings.tsx:53 | `padStart(width, fill)` is fill characters followed by the original string, of length the larger of width and the original length |
| RadixStrings.ParseNatToString | apps/client/src/play/ui/Settings.tsx:162 | parsing the printed digits of a number gives the number back |
| RadixStrings.LeadingZerosValue | apps/client/src/play/ui/Settings.tsx:162 | leading zeros do not change the value of a digit string |
| RadixStrings.ParsePaddedNat | apps/client/src/play/ui/Settings.tsx:162 | zero-padded digits of a number parse back to the number |
| RadixStrings.ParsePaddedInt | apps/client/src/play/ui/Settings.tsx:53 | the padded hex of an integer parses back to it (for negatives when the width is at most 2, which `padStart(2)` is) |
| PlaySettings.GuestName | apps/client/src/play/ui/Settings.tsx:50-53 | "Guest" exactly for a null or undefined id; otherwise "Guest 0x" and the id's lower-case hex padded to two digits |
| PlaySettings.GuestNameRoundTrip | apps/client/src/play/ui/Settings.tsx:50-53 | different ids give different guest names: the id, or its absence, is read back from the name |
| PlaySettings.GuestNameOfZero | apps/client/src/play/ui/Settings.tsx:50-53 | id 0 is a present id: its name is "Guest 0x00", not "Guest" |
| PlaySettings.GuestNamePadding | apps/client/src/play/ui/Settings.tsx:53 | ids 0 to 15 get exactly one leading zero; ids of 256 or more get none and show at least three hex digits |
| PlaySettings.GuestNameNegativePadding | apps/client/src/play/ui/Settings.tsx:53 | ids -15 to -1 get no leading zero, the minus sign filling the second place ("Guest 0x-5") |
| PlaySettings.HandleLabel | apps/client/src/play/ui/Settings.tsx:162 | the label is "#" alone when no handle id is loaded; otherwise "#", then zeros up to four digits, then the id's decimal digits, of length one more than the larger of 4 and the digit count |
| PlaySettings.HandleLabelOfTwelve | apps/client/src/play/ui/Settings.tsx:162 | handle id 12 is shown as "#0012" |
| PlaySettings.HandleLabelRoundTrip | apps/client/src/play/ui/Settings.tsx:162 | the digits after "#" parse back to the handle id |
| PlaySettings.RankColourOf | apps/client/src/play/ui/Settings.tsx:83-92 | exactly the ranks other than Very Poor, Poor, Medium and Good get the gradient |
| PlaySettings.RankClass | apps/client/src/play/ui/Settings.tsx:84-92 | the four solid colours are `text-` classes and the gradient class is the only one that is not, and the sixth character differs between all five classes |
| PlaySettings.RankBadgeOf | apps/client/src/play/ui/Settings.tsx:81-99 | a missing or empty rank shows the pulsing placeholder; any other rank is shown with its own text and the colour `RankColourOf` gives it |
| PlaySettings.RankColours | apps/client/src/play/ui/Settings.tsx:83-92 | Very Poor is red, Poor orange, Medium yellow and Good green, the four ranks get four different colours, and every other rank gets the gradient |
| PlaySettings.RankClassesDiffer | apps/client/src/play/ui/Settings.tsx:83-92 | the five badge classes are pairwise different, so the class shows which colour was chosen |
| Inspector.AvailableComponents | apps/client/src/editor/components/InspectMenu/InspectMenu.tsx:24-28 | Script is always offered first; Mesh exactly without a mesh, Physics exactly without a collider, SpawnPoint exactly when neither this node nor another is a spawn point; in that fixed order |
| Inspector.InspectMenu | apps/client/src/editor/components/InspectMenu/InspectMenu.tsx:22-61 | nothing is rendered exactly when no node is selected or it does not exist; otherwise the mesh, physics and spawn-point panels show exactly when the node has them, and the add button always shows |
| Inspector.OfferedOrShown | apps/client/src/editor/components/InspectMenu/InspectMenu.tsx:26-49 | mesh and physics are either offered or shown, never both and never neither; a spawn point elsewhere is neither offered nor shown |
| Inspector.AvailableHasNoDuplicates | apps/client/src/editor/components/InspectMenu/InspectMenu.tsx:24-28 | no component is offered twice |

## Left out

- The writers `processBufferView` and `processInterleavedBufferView` and the
  `getMinMax` helper are function parameters. Their effects on buffers and
  buffer views are not modelled.
- `bufferViewTarget` (processAccessor.ts:78-86) is computed but never used,
  so it is not modelled.
- `WEBGL_CONSTANTS` and `ATTRIBUTE_TYPES` come from a constants file that is
  not part of this model. The component codes are the glTF 2.0 ones (5121,
  5123, 5125, 5126). The item-size table is a parameter, and the standard
  table is given for the examples.
- JavaScript numbers are modelled as unbounded integers:
  - start, count and the draw range are integers;
  - `Infinity` is an absent draw-range count;
  - positions are reals.
- Non-integer player ids, and the float formatting of `toString(16)`, are
  not modelled, because the player id is an integer here.
- Edge ids come from `nanoid()`, which is random. They are modelled as
  consecutive natural numbers from a given start, given in push order once
  all links are collected. Only their freshness and order are stated.
- In `loadFlow`, an object parameter value without a `link` is recorded as
  `Record`.
  - A `null` value is left out: `"link" in null` throws in JavaScript.
  - Parameters and flow are ordered entry lists, standing for the order of
    `Object.entries`.
- In `loadFlow`, a parameter object that has a `link` key whose value is
  undefined or null makes `value.link.name` throw a TypeError
  (loadFlow.ts:45). A `Linked` value always carries a link name, so this
  throw is not modelled.
- The `if (!profile) return;` early exits of the equip and unequip handlers
  (AvatarLayout.tsx:49 and 118) are not modelled. Without a profile nothing is
  sent; the model describes the list sent when a profile is loaded.
- The engine, its scene, the behaviour extension's property list and React
  rendering are not part of this model. That includes stores, hooks, the
  transform and script panels, and the `AddComponentButton`. Their outputs
  are taken as inputs: the property list, the selection, the stats rank and
  the profile.
- The Lens profile writes (`setProfileMetadata`), router navigation, loading
  state, cover picture and the metadata envelope are I/O and are not
  modelled.
- `Inspector.InspectMenu`: the add button's condition `length > 0` always
  holds, because Script is always offered. The model states that it always
  shows.
- The other files of the repository are not part of this model. They
  include the other players, the animations, the physics and sphere
  components, and the pages.

glTF 2.0 requires every accessor's `count` to be at least 1, so a window that
draw-range clamping empties should yield no accessor. The code checks the
requested count before clamping (processAccessor.ts:61).
`Exporter.ProcessAccessor` follows the code, and the finding below records the
difference.

## Findings

| source | as written | input that shows it | evidently intended | confidence | as-written member | corrected member |
|---|---|---|---|---|---|---|
| packages/new-engine/src/gltf/exporter/processAccessor.ts:61-75 | `count === 0` is checked on the requested count, before the draw-range clamp, so a window that the clamp empties is still written and appended with `count: 0` | attribute of 10 Float32 VEC3 elements, start 8, count 2, non-indexed geometry with draw range start 0 and count 5: the window clamps to (8, 0) and accessor 0 has count 0 | return null when the clamped count is 0; glTF 2.0 requires an accessor count of at least 1 | medium, not executed | Exporter.ClampedToZeroExample | Exporter.ProcessAccessorClampedCheck |
