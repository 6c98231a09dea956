# The tempestweb client, modelled and proved

A Python app sends ordered batches of index-relative patches to a browser. The client
keeps a live element tree in step with them, asks for a fresh scene when it cannot, and
around that core keeps an offline write queue, a read-side pull, a socket, a database
connection, a scoped key-value store and a gesture recognizer. This project models those
parts of the JavaScript client and proves what each of them is for. Code that updates
state in place is a class or a loop here, proved against a function of its old state;
the theorems are about those functions, over every input and every run.

| file | what it models |
|---|---|
| `Common.dfy` | options, minimum, maximum |
| `Tree.dfy` | labelled trees addressed by paths: what a rewrite reaches, leaves alone and commutes with |
| `ChildList.dfy` | insert, remove and the append-again reorder on a child list |
| `Patches.dfy` | the wire format, the five patch kinds, batches that stop at the first failure |
| `Parts.dfy` | the elements the renderer draws inside widgets, and the law of what they are after any updates |
| `Render.dfy`, `Refinement.dfy` | elements refine the abstract tree, patch by patch and batch by batch, with the exact exceptions |
| `Typing.dfy` | what the widget builders can produce, and why the renderer follows every diff between such trees |
| `Dom.dfy` | the same on a heap of element objects with child lists and parent pointers |
| `Mount.dfy` | the wire decoder and the mount, each with its own pending flag |
| `Repair.dfy` | the two-party repair protocol: lost frames, failed patches, requests, answers, reconnects |
| `Faces.dfy` | the protocol on abstract trees and on elements |
| `Page.dfy` | the decoder and the mount over the heap of element objects, doing what the protocol says |
| `OfflineQueue.dfy`, `Delivery.dfy` | the offline queue: one replay, then replay against lost responses and crashes |
| `Pull.dfy` | the read-side pull and merge |
| `IdbKv.dfy` | the shared IndexedDB connection |
| `Outbox.dfy`, `SocketTransport.dfy`, `StreamTransport.dfy` | the event buffer and the two transports that keep it |
| `Mask.dfy` | the input mask |
| `Imaging.dfy` | the quality search |
| `Storage.dfy` | owner-scoped storage |
| `Gestures.dfy` | the pointer recognizer |
| `Virtualize.dfy` | the virtual list over time: its windows, what it asks for, and its spacers |

`dafny verify dfyconfig.toml` checks everything.

## Assumptions

- Repair: both directions are first-in first-out; any frame may arrive undecodable, and
  only a reconnect loses what is in flight; a diff, where Python computed it, is correct
  between Python's own trees. Of an undecodable full scene it is assumed that the decoder
  is not already waiting when it arrives, or that another is still to come
  (`Repair.Possible`): `Repair.GarbledAnswerExactly` and `Repair.GarbledReconnectExactly`
  show that this is exactly what the protocol needs. `client/wire.js:24-26` means it so: one
  request for a run of undecodable frames, since a scene Python cannot encode comes back the
  same. The price is `Repair.GarbledAnswerStalls`, a run that ends with nothing mounted.
- Live elements: scenes and diffs are typed, that is, what the widget builders in
  `client/transpile/widgets.gen.js` make. On abstract trees nothing need be typed.
- Delivery: one queue instance; sequence numbers grow; a request takes effect before its
  send settles, or before the page dies, or not at all; the server remembers the keys it
  has seen and answers success only for a key it has seen.
- Pull: the pending set does not change between attempts, and interrupted attempts read
  rows the finished one reads too.
- Connection: `close()` is not called while an open is in flight, and
  `InvalidStateError` comes only from a connection that is closed. Each guard is shown to
  be exact.
- Gestures: every press carries a fresh pointer id.
- Storage: owners hold no NUL, nor do names under the default owner.
- Arithmetic on qualities, scroll offsets and coordinates is over exact reals. Moves of a
  child by `appendChild`, `insertBefore` and `replaceChild` follow section 4.2.3 of the
  WHATWG DOM Standard. Status codes 408 and 409 are those of sections 15.5.9 and 15.5.10
  of RFC 9110, 425 of section 5.2 of RFC 8470 and 429 of section 4 of RFC 6585.

## Where the code does not do what it says

- A full scene nobody's mount asked for, as after a reconnect, stacks its overlays on those
  already shown: `Repair.OverlaysExactly` says exactly when the layer comes out right, and
  `Repair.OverlaysStack` is a run from an empty page that shows each of them twice.
- `client/native/sync.js:48-65` reads a response with an error status as an empty last
  page, so the watermark can pass rows nobody read. `Pull.WatermarkMovesEarly` says exactly
  when; `Pull.ErrorStatusSkipsARow` is an instance.
- `client/native/sync.js:14-16` promises that a newer edit still waiting for upload is
  kept, but `client/native/sync.js:64` wires the merge without a pending test: an edit
  survives a batch exactly when the batch has no row for its key, however old
  (`Pull.WiredEditSurvives`; `Pull.WiredEditLost` is an instance). `Pull.EditSurvives` is
  what the merge would do with the test wired.
- A virtual list can stay on the wrong rows and ask for nothing, for one of two reasons.
  It never forgets the last window it asked for, so once that window has come and the app
  has moved on, scrolling back to it asks for nothing (`Virtualize.RememberedRequestStalls`).
  And every pass of props rewrites the start of the window, to 0 when it names none
  (`client/dom.js:1010-1011`), so a list whose app slides the window itself
  (`Virtualize.StaleStartStalls`), or whose last update was of another prop
  (`Virtualize.OtherUpdateStalls`), takes its first window for shown.
  `Virtualize.StallsExactly` says exactly when, over every life of a list, and
  `Virtualize.StaleExactly` which updates leave the start wrong.
- A hold is measured from the pointer's last move (`client/gestures.js:242`, `:347-350`) and
  not from its press, as `client/gestures.js:83` says: a finger held for half a second and
  more is a tap if it moved at all, even by nothing, in the last half second.
  `Gestures.HoldExactly` says exactly when; `Gestures.WiggledHoldIsATap` is an instance.
- The attempt ceiling of `client/offline/sync.js:86-100` bounds the attempts recorded, not the
  requests made: a page that dies with a row on the wire records nothing.
  `Delivery.SendsExactly` counts them over every run; `Delivery.CrashesResend` sends one row
  any number of times.

## Exceptions no widget builder reaches

The renderer and the abstract tree part ways on some patches that parse. No builder in
`client/transpile/widgets.gen.js` makes them: only `Text` has `content`, only childless
widgets show text, and nothing puts a child under a widget the renderer draws into.
`Typing.TypedFollowable` proves that a diff between such trees never meets one.

- Text written over children removes them, while the abstract tree keeps them
  (`Refinement.ContentWipesAContainer`), and a path into a renderer-owned part still finds
  an element (`Refinement.PathIntoAControl`). `Refinement.PatchRefines` makes both exact.
- `content` sent to a drawn widget clears its parts first (`client/dom.js:277-279`), so an
  icon asked for earlier is gone. `Parts.BlankingForgets` says exactly when;
  `Parts.BlankingLosesAnIcon` is an instance.

## Model

| member | source | states |
|---|---|---|
| Tree.WalkSteps | client/dom.js:2297-2314 | the empty path stays where it is, and one more index goes to that child of where the path led, if there is one |
| Tree.RewriteMisses | client/dom.js:2297-2314 | a patch leaves every subtree off its path as it was |
| Tree.RewritesCommute | client/dom.js:2297-2422 | two edits at incomparable paths give one tree in either order, and fail together or not at all |
| ChildList.RemovedExactly | client/dom.js:2358-2364 | a removal takes out the child at the index, one copy of it, and leaves the others in order; an index with no child takes nothing |
| ChildList.RemoveUndoesInsert | client/dom.js:2345-2350 | removing what was just inserted restores the list, wherever it landed |
| ChildList.ReorderSpec | client/dom.js:2376-2385 | for any index list, with repeats and indices that have no child, the append loop yields the unlisted children in old order and then the listed ones by last occurrence |
| ChildList.ReorderConserves | client/dom.js:2376-2385 | the loop neither loses nor copies a child, whatever the index list |
| ChildList.ReorderPermutes | client/dom.js:2367-2385 | for a permutation new child i is old child order[i], as the comment promises |
| ChildList.ReorderUndone | client/dom.js:2376-2385 | reordering by the inverse permutation restores the list |
| Patches.RootReplaceAgrees | client/tempestweb.js:72-82 | the root test picks out exactly the patches the dispatcher would treat as a replacement at the empty path |
| Patches.WireRoundTrip | tempestweb/runtime/serialize.py:127-161 | each of the five patch kinds, as Python lowers it, is read back as that patch at that path |
| Patches.UpdateSets | client/dom.js:2328-2337 | prop by prop: what an update unsets is gone, what it assigns has that value unless null, the rest of the node is as it was |
| Patches.ScrubKeeps | client/dom.js:2228-2238 | the abstract tree of a node resolves the same paths to the same types, keys and props less the null ones |
| Patches.PatchLands | client/dom.js:2408-2422 | a patch lands where its path leads, and fails exactly when it leads nowhere or the patch is of no known kind |
| Patches.FailedBatchIsPrefix | client/dom.js:2445-2455 | a batch that fails leaves exactly the effect of the patches before the first failure |
| Patches.BatchConcat | client/tempestweb.js:108-129 | two batches one after another are one batch, so patches may be coalesced across batches that apply |
| Patches.PatchesCommute | client/dom.js:2408-2422 | any two patches at incomparable paths commute, in result and in whether they fail, and neither touches the other's target |
| Parts.EmptyTextExactly | client/dom.js:1294-1299 | the test that clears an icon holds exactly when the value's text is empty, arrays joined by commas included |
| Parts.FieldShows | client/dom.js:1291-1433 | which values draw what in a field: an icon for a text not empty, a toggle for `secure` that is `true`, a chevron without a trailing icon, and the controls |
| Parts.FieldPlaces | client/dom.js:1308-1342 | and where: the leading icon first, the trailing one last but for the toggle, nothing twice |
| Parts.RedrawnShows | client/dom.js:2008-2020 | a row for each entry of an array and none for anything else; an outline exactly for an icon name the tables know |
| Parts.FixedShows | client/dom.js:2142-2188 | the parts of the widgets that always have the same ones, and the glyph that comes with an icon button's first icon |
| Parts.TextClears | client/dom.js:267-286 | into any other widget the renderer draws nothing, and a pass takes its children away exactly when it writes text |
| Parts.InputLaw | client/dom.js:2116-2119 | one partial update takes an Input from the layout of its props to the layout of the merged props: leading icon, control, trailing icon, reveal toggle |
| Parts.DropdownLaw | client/dom.js:1330-1342 | the same for a Dropdown, whose chevron stands exactly when no trailing icon does |
| Parts.AutocompleteLaw | client/dom.js:2182-2184 | the same for an Autocomplete, whose input and datalist stay together |
| Parts.PaintLaw | client/dom.js:2113-2188 | the same for every widget the renderer draws into |
| Parts.FreshLaw | client/dom.js:2228-2233 | building a drawn widget gives it the layout of its props |
| Parts.HistoryLaw | client/dom.js:1291-1315 | after any sequence of partial updates the parts are those of one build with the merged props, whatever the order of the updates |
| Parts.BlankingForgets | client/dom.js:277-286 | an update that writes text breaks that law exactly when it fails to mention again a prop whose part was showing |
| Parts.BlankingLosesAnIcon | client/dom.js:277-279 | on the wire only: an Input with a leading icon loses it to an update of `content` alone |
| Render.EraseBuild | client/dom.js:2228-2238 | building a node and erasing what the renderer drew gives the node back, null props dropped; drawn widgets stay leaves |
| Render.ReactRefines | client/dom.js:2328-2399 | each of the five patch kinds on an element erases to the same patch on its node, but for text written over children |
| Render.ReactKeepsDrawn | client/dom.js:2328-2399 | if drawn widgets are still leaves in the patched node, the renderer's parts still stand only inside them |
| Refinement.WalksAgree | client/dom.js:2297-2314 | a walk succeeds on elements exactly as it does on the abstract tree, unless it ends inside a renderer-owned part |
| Refinement.PatchRefines | client/dom.js:2408-2422 | one patch on elements succeeds and erases as it does on the abstract tree, with the two exceptions exact |
| Refinement.BatchRefines | client/dom.js:2445-2455 | a batch on elements stops at the same patch as on the abstract tree and erases to the same tree, failed or not |
| Refinement.MountRefines | client/tempestweb.js:186-193 | from the first build on, followable batches keep the elements showing the abstract tree |
| Refinement.ContentWipesAContainer | client/dom.js:277-279 | an instance of the first exception, text sent to a column |
| Refinement.PathIntoAControl | client/dom.js:2297-2314 | an instance of the second, a path into an Input's control |
| Refinement.PartsMayChange | client/camera-widgets.js:201-235 | parts that come and go outside any patch, as a camera's preview does, never change the tree the elements show |
| Typing.TypedNeverBlanks | client/transpile/widgets.gen.js:1694-1714 | no update a builder's props allow writes text over a widget the renderer draws into |
| Typing.TypedNeverWipes | client/dom.js:267-286 | no typed patch removes children by writing text |
| Typing.EditTyped | client/dom.js:2328-2399 | each of the five patch kinds, when typed, leaves a typed widget |
| Typing.TypedFollowable | client/dom.js:2445-2455 | a typed batch that applies in full on a typed tree never leaves what the renderer can follow, and leaves a typed tree |
| Typing.TypedHistory | client/dom.js:1291-1315 | for every run of updates an app can make, a drawn widget's parts are those of one build with the merged props |
| Dom.ResolvePath | client/dom.js:2297-2314 | the cursor loop finds the element object that stands at a path, and fails exactly when there is none |
| Dom.BuildElement | client/dom.js:2228-2238 | building allocates a detached subtree of fresh objects that is the build of the node, parent pointers included |
| Dom.ApplyProps | client/dom.js:267-315 | one pass of props on an element object changes its child list as the layout functions say and touches nothing outside it; the very objects the reader types into stay |
| Dom.PaintIcon | client/dom.js:1291-1315 | an icon part is added before its anchor, removed or left alone, on the live child list |
| Dom.PaintReveal | client/dom.js:1414-1433 | the reveal toggle comes and goes with `secure`, and only when that prop is mentioned |
| Dom.PaintChevron | client/dom.js:1330-1342 | the chevron steps aside for a trailing icon and otherwise stands after the select |
| Dom.PaintFieldParts | client/dom.js:2113-2184 | the painting passes of a field, run one after another, compose to the layout function of the widget |
| Dom.PaintRedrawn | client/dom.js:2008-2033 | an Icon, a TabBar and a menu clear what they drew and draw it again, when the props that decide it are mentioned (an Icon: `client/icons/index.js:104-144`) |
| Dom.EditElement | client/dom.js:2328-2385 | update, insert, remove and reorder in place on the element a path reached; the object at a removed index is the one detached, and reordering moves the objects themselves |
| Dom.ReorderKids | client/dom.js:2376-2385 | the snapshot-and-append loop, moving objects in place, computes the reorder of the specification |
| Dom.ReplaceAt | client/dom.js:2393-2399 | replacing an element through its parent pointer swaps exactly that subtree for a fresh build |
| Dom.ApplyPatch | client/dom.js:2408-2422 | one patch on the heap is that patch on the abstraction, or fails and changes nothing; a removal detaches the object that stood at its index and no other |
| Dom.ApplyTreePatches | client/tempestweb.js:108-129 | on a root that has a parent, the batch loop, following root replacements, is the batch of the specification; when followable its erasure is the abstract batch |
| Dom.ApplyUnmounted | client/tempestweb.js:110-119 | on a root without a parent the loop is the same batch, edited in place until a root replacement puts its fresh element first into the mount host |
| Mount.WireDecoder.Decode | client/wire.js:33-57 | an undecodable frame asks for a scene only if the one before it decoded; every frame sets or clears the flag |
| Mount.FailureAsks | client/tempestweb.js:277-337 | whatever a batch holds: tree and layer take their patches up to the first that fails; a failure in either leaves the flag up and asks exactly when the mount was not already waiting; without one nothing is asked |
| Mount.FirstBatch | client/tempestweb.js:308-318 | the same for the first batch, past the patch whose node is mounted; one that brings no node is an error |
| Mount.AddressedConcat | client/tempestweb.js:319-327 | routing two batches is routing them one after the other |
| Mount.AddressedOne | client/tempestweb.js:321-326 | each patch goes to exactly one of the two places |
| Mount.Mounted.OnPatchFailure | client/tempestweb.js:277-300 | a failure asks once, while no answer is pending and the transport can ask |
| Mount.Mounted.ApplyToTree | client/tempestweb.js:328-330 | the tree takes the patches before the first failure, and a failure is reported |
| Mount.Mounted.ApplyToLayer | client/tempestweb.js:331-334 | the layer is emptied only for the answer to a mount's own request, then takes its patches |
| Mount.Mounted.OnPatches | client/tempestweb.js:304-337 | one batch: flag, first mount, routing, tree, then overlays, in that order, with its request or error |
| Mount.Split | client/tempestweb.js:319-327 | routing keeps the order of the patches of each kind |
| Repair.SceneToInitialPatches | tempestweb/runtime/serialize.py:178-195 | a full scene is a root replacement followed by an insert per overlay at its index |
| Repair.FullHandled | client/tempestweb.js:304-337 | a full scene always lands: it sets the tree, lowers the flag, asks for nothing and puts its overlays before what the layer still held |
| Repair.OverlaysExactly | client/tempestweb.js:197-221 | after a full scene the layer is the server's overlays if and only if the mount had asked or the layer was empty |
| Repair.OverlaysStack | client/tempestweb.js:197-221 | a run from an empty page, one unasked scene or one reconnect, that falls silent with every overlay shown twice |
| Repair.FlagAsks | client/tempestweb.js:277-307 | the mount's flag is never raised without a request, nor a request made without raising it |
| Repair.StepConsistent | client/tempestweb.js:256-337 | every step of ticks, undecodable frames, requests, answers, resends, reconnects and deliveries keeps the debt invariant |
| Repair.SelfRepair | client/tempestweb.js:256-337 | over every run, reconnects included: playing the frames in flight ends on the server's tree or a request or its answer is owed; with both channels empty the trees agree and both flags are down |
| Repair.StartsConsistent | client/tempestweb.js:186-193 | both ways of mounting start inside the invariant, even when the first frame is undecodable |
| Repair.Settles | tempestweb/runtime/session.py:445-461 | once the server falls silent and its answers decode, a bounded number of deliveries and answers in any order ends in agreement |
| Repair.GarbledAnswerExactly | client/wire.js:33-57 | an undecodable answer keeps the debt invariant if and only if the decoder is not already waiting behind the frames in flight or another request is owed |
| Repair.GarbledReconnectExactly | tempestweb/runtime/session.py:558-590 | so does an undecodable scene over a new connection, for any number of requests made over it |
| Repair.GarbledAnswerStalls | client/wire.js:33-57 | the reachable run the condition shuts out: first scene and answer both undecodable, after which no frame or request is left and the trees disagree |
| Repair.NoFlood | client/tempestweb.js:263-300 | any two requests of the mount are separated by a batch with a root replacement |
| Repair.OneAskPerRun | client/wire.js:27-57 | in every run of the protocol the decoder's requests number exactly the maximal runs of undecodable frames among those delivered |
| Repair.OverlaysNeverStack | client/tempestweb.js:197-221 | when every full scene finds a waiting mount or a bare layer, a quiet client shows the server's tree and exactly its overlays, however many repairs there were |
| Repair.MountOnlyRepairs | client/tempestweb.js:277-334 | when only the mount asks, at most one request is ever owed and every scene sent answers it, so overlays never stack |
| Faces.NodeDiffs | client/tempestweb.js:108-129 | a diff correct between Python's trees is correct on any abstract tree showing the old scene |
| Faces.DomDiffs | client/dom.js:2228-2455 | a typed diff correct between Python's trees is correct on any live elements showing the old scene |
| Faces.TreeRepairs | client/tempestweb.js:186-337 | from an empty page, in every run with correct diffs, once nothing is in flight the abstract tree is the one Python holds |
| Faces.LiveDomRepairs | client/tempestweb.js:186-337 | from an empty page, in every run with correct diffs between typed scenes, once nothing is in flight the live elements less the renderer's parts are the tree Python holds, and the live overlays are Python's when every full scene found a waiting mount or a bare layer |
| Page.LiveMount.MountTree | client/tempestweb.js:308-317 | the first tree is built and appended to the host, beside what it held |
| Page.LiveMount.ApplyToTree | client/tempestweb.js:328-330 | on element objects, the tree under the host takes the patches before the first failure and the layer is untouched |
| Page.LiveMount.ClearOverlays | client/tempestweb.js:210-213 | the layer's objects are detached and nothing else is |
| Page.LiveMount.OverlayHost | client/tempestweb.js:214-221 | the layer is made once, after the tree, and shows nothing new |
| Page.LiveMount.OnPatches | client/tempestweb.js:304-337 | on element objects one batch does what the protocol's mount does to the elements they stand for: tree, layer, flag, request and error |
| Page.LiveClient.Receive | client/wire.js:33-57 | decoder and mount together take one frame as the protocol's client does |
| Page.LiveClient.ReceiveAll | client/tempestweb.js:304-337 | over any frames the live objects end where the protocol's client ends, having asked as often |
| Page.LiveClient.CatchUp | client/tempestweb.js:256-337 | in every run, when no repair is owed, the frames in flight leave the objects on the page, less the renderer's parts, as the tree Python holds |
| OfflineQueue.DrainedLane | client/offline/sync.js:219-267 | after a replay the pending lane is exactly the rows from the one that stopped it, that one an attempt later |
| OfflineQueue.DrainedFrame | client/offline/sync.js:219-267 | a replay moves no row outside the owner's pending lane |
| OfflineQueue.EachSettled | client/offline/sync.js:234-261 | every row the replay reached is gone, in the conflict lane, in the failed lane or an attempt older, as its own outcome decided |
| OfflineQueue.EachLands | client/offline/sync.js:86-100 | with the status codes written out, where each row the replay reached is found, and that the replay stopped at the first failure that may pass with attempts to spare |
| OfflineQueue.TransientStops | client/offline/sync.js:227-261 | a send that throws or meets 408, 425, 429 or a 5xx, with attempts to spare, leaves the whole lane pending and counts nothing |
| OfflineQueue.TallyCounts | client/offline/sync.js:236-256 | the counts reported are those of the rows accepted, clashing and given up |
| OfflineQueue.ReplayConserves | client/offline/sync.js:214-267 | sent, failed, conflicting and remaining rows add up to the rows that were pending |
| OfflineQueue.DrainedSpares | client/offline/sync.js:86-100 | no row is attempted past the ceiling and pending rows have attempts to spare |
| OfflineQueue.ReplayShrinks | client/offline/sync.js:86-100 | a replay of a non-empty lane strictly shrinks the attempts left over the lane |
| OfflineQueue.EnoughReplaysDrain | client/offline/sync.js:219-267 | however badly the network behaves, as many replays as attempts left empty the lane |
| OfflineQueue.LaneUnique | client/offline/sync.js:170-173 | a table has one pending lane: ordering by sequence number, then by primary key as the store lists them, leaves no choice |
| OfflineQueue.OfflineQueue.Enqueue | client/offline/sync.js:147-163 | the row stored is pending, unattempted, under the given or the queue's owner, and the youngest unless the clock has gone back |
| OfflineQueue.OfflineQueue.PendingRows | client/offline/sync.js:170-173 | listing, sorting and filtering yields the owner's pending lane, oldest first |
| OfflineQueue.OfflineQueue.Replay | client/offline/sync.js:219-267 | a replay drains the lane it listed and reports its counts; a second one meanwhile changes nothing |
| OfflineQueue.OfflineQueue.Drain | client/offline/sync.js:234-261 | the loop over the listed rows is the drain of the specification |
| Delivery.StepSound | client/offline/sync.js:219-267 | enqueue, send, server effect, response, crash: each keeps the order, the lanes and the account of every mutation |
| Delivery.EffectsExactlyOnceInOrder | client/native/offline.js:52-63 | in every run with lost responses and crashes: no key takes effect twice, each owner's effects come in sequence order, none records attempts past the ceiling, none is lost |
| Delivery.RowsAreAsTold | client/offline/sync.js:227-261 | in every run a conflicting row was last told 409, a row given up below the ceiling a 4xx other than 408, 409, 425 and 429, a pending row nothing final, and a row is gone only after an acceptance |
| Delivery.SendsExactly | client/offline/sync.js:214-267 | in every run a stored row has been sent once for each attempt it records, once for each crash that hit it on the wire and once more while it is there; no row, delivered ones included, oftener than the ceiling plus its crashes |
| Delivery.CrashesResend | client/offline/sync.js:226-261 | for any number of sends there is a run that makes them and records no attempt |
| Delivery.DrainedMeansDelivered | client/offline/sync.js:201-212 | with the table empty every accepted mutation's key has taken effect exactly once |
| Delivery.ReplayIsARun | client/offline/sync.js:219-267 | an undisturbed replay is a run of the machine and leaves the table the queue's replay leaves |
| Pull.BatchAbsorbsRow | client/offline/pull.js:145-164 | merging a row of a batch before the batch changes nothing in its result, whatever is pending and whatever was stored |
| Pull.BatchAbsorbs | client/offline/pull.js:145-164 | nor does merging any of its rows in any order and number |
| Pull.LastWriteWins | client/offline/pull.js:129-134 | for a key with no edit waiting, the last row decides, tombstones included |
| Pull.EditSurvives | client/offline/pull.js:157-163 | an edit waiting for upload survives a batch if and only if no row deletes it and it is strictly newer than each |
| Pull.WiredEditSurvives | client/native/sync.js:48-65 | as wired here, with no key ever pending, an edit survives a batch if and only if the batch has no row for its key, however old |
| Pull.WiredEditLost | client/native/sync.js:64 | a newer edit, one older row for its key, and the edit is gone; with the test wired it stays |
| Pull.Puller.Pull | client/offline/pull.js:98-122 | one pull merges what it read, moves the watermark only if it finished, and leaves a pull already running alone |
| Pull.Puller.DrainPages | client/offline/pull.js:105-116 | the page loop merges the rows read before it ends or dies, in order |
| Pull.CleanPull | client/offline/pull.js:98-122 | a pull nothing disturbs merges every row of every page in order and moves the watermark to the last clock given, an empty one being none |
| Pull.InterruptedKeepsWatermark | client/offline/pull.js:117-120 | a pull that dies leaves the watermark |
| Pull.InterruptedPullIsAbsorbed | client/offline/pull.js:7-10 | any number of pulls that die anywhere, then one that finishes, leave the table and watermark of one uninterrupted pull |
| Pull.CutIsInterruption | client/offline/pull.js:105-116 | a pull cut at any reply or at any row is such an interruption |
| Pull.WatermarkMovesEarly | client/native/sync.js:50-63 | the watermark passes unread pages if and only if the exchange failed with a response and a page read so far or that response's own body carried a clock |
| Pull.ErrorStatusSkipsARow | client/native/sync.js:57-63 | two pages, an error status on the second: its row is skipped for good |
| IdbKv.StepSound | client/native/idb-kv.js:376-397 | every event keeps at most one awaited open, no stray connection and at most two transactions an operation |
| IdbKv.ConnectionLifecycle | client/native/idb-kv.js:206-426 | over every interleaving: waiters share one open, every connection ever opened is the cached one or closed, late arrivals included |
| IdbKv.SettlingWakesAll | client/native/idb-kv.js:216-263 | however an open settles, by success, failure or deadline, nobody keeps waiting for it |
| IdbKv.AnsweredAsCommitted | client/native/idb-kv.js:413-426 | in every run an operation is answered with success exactly when its last transaction committed; a refusal or a second closed connection is a failure |
| IdbKv.FirstInvalidStateIsNoAnswer | client/native/idb-kv.js:413-426 | its first `InvalidStateError` leaves it holding a connection or waiting for one |
| IdbKv.GivenConnection | client/native/idb-kv.js:376-397 | an operation is given the open connection if there is one, or the open in flight, and others keep what they have |
| IdbKv.EventsSettleConnection | client/native/idb-kv.js:244-384 | what upgrade, browser close, `close()` and every way an open ends do to the cached connection and to those left open |
| IdbKv.OneOpenServesAll | client/native/idb-kv.js:353-397 | while nothing is lost, any number of operations cost one open |
| IdbKv.CloseKeepsExactly | client/native/idb-kv.js:467-473 | closing the store keeps the invariant if and only if no open is in flight |
| IdbKv.CloseDuringOpenLeaks | client/native/idb-kv.js:467-473 | a close during an open, then another call, leaves a connection open that the store will not close, though another tab's upgrade still does |
| IdbKv.InvalidStateKeepsExactly | client/native/idb-kv.js:418-423 | forgetting a connection on `InvalidStateError` strands none if and only if it was closed |
| IdbKv.KeyValueStore.Connection | client/native/idb-kv.js:376-397 | an operation gets the cached connection, the open in flight or a new open, in that order |
| IdbKv.KeyValueStore.OnSuccess | client/native/idb-kv.js:244-252 | an open that arrives in time is cached and handed to all who wait; one that arrives late is closed |
| IdbKv.KeyValueStore.OnDeadline | client/native/idb-kv.js:219-228 | an open past its deadline fails everyone waiting and is not waited for again |
| IdbKv.KeyValueStore.OnVersionChange | client/native/idb-kv.js:381-384 | another tab's upgrade closes the connection and forgets it only if it is still the cached one |
| IdbKv.KeyValueStore.OnTransaction | client/native/idb-kv.js:413-426 | a transaction refused by a closed connection is retried once on a fresh one; every other outcome is the answer |
| Outbox.FairMeans | client/transport-ws.js:187-226 | what reached connections followed by the buffer is what was accepted less what was given up, in order |
| Outbox.QueueFair | client/transport-ws.js:210-226 | buffering keeps that and the bound |
| Outbox.OutageKeepsNewest | client/transport-ws.js:196-198 | after an outage of any length the buffer holds exactly the newest events |
| SocketTransport.StepSound | client/transport-ws.js:321-408 | every event keeps one attached socket, a timer exactly when a connection is wanted and none is coming, and the buffer's discipline |
| SocketTransport.TransportRuns | client/transport-ws.js:187-408 | the same over every run, and nothing connects after the user closes |
| SocketTransport.EveryEventCounts | client/transport-ws.js:187-226 | in every run, of the events the page raised, in order, those not given up have gone out or are waiting, all have gone out when a socket is open, and a native reply goes out exactly when one is |
| SocketTransport.OutageHoldsNewest | client/transport-ws.js:210-226 | raised with no socket open, the newest events are the ones the run holds |
| SocketTransport.AttemptsCount | client/transport-ws.js:321-408 | the backoff counts the timers set since a socket last opened |
| SocketTransport.OnlyTheOldestIsLost | client/transport-ws.js:216-225 | an event is given up only as the oldest of a full buffer, for a newer event, with no socket open |
| SocketTransport.WebSocketTransport.SendEnvelope | client/transport-ws.js:210-226 | an open socket takes the envelope; otherwise events are buffered and native replies dropped |
| SocketTransport.WebSocketTransport.FlushOutbox | client/transport-ws.js:187-191 | the whole buffer goes out in order while the socket stays open |
| SocketTransport.WebSocketTransport.OnClose | client/transport-ws.js:338-341 | a close schedules one reconnect unless the user closed, reconnecting is off or one is scheduled |
| SocketTransport.WebSocketTransport.OnTimer | client/transport-ws.js:404-407 | the timer detaches the old socket and attaches one new one, unless the user closed |
| SocketTransport.WebSocketTransport.CloseTransport | client/transport-ws.js:463-472 | closing cancels the timer and closes a socket that is open or opening |
| StreamTransport.StreamRuns | client/transport-sse.js:185-247 | the stream transport keeps the same discipline, and posts no event before the stream opens |
| StreamTransport.EveryEventCounts | client/transport-sse.js:185-247 | in every run, of the events the page raised, those not given up have been posted or are waiting, and all have been posted while the stream is open |
| StreamTransport.OnlyTheOldestIsLost | client/transport-sse.js:231-247 | an event is given up only as the oldest of a full buffer, with the stream closed |
| StreamTransport.OutageHoldsNewest | client/transport-sse.js:231-247 | raised with the stream closed, the newest events are the ones held |
| StreamTransport.OpenExactly | client/transport-sse.js:185-247 | the stream counts as open exactly when an opening was the last thing that happened to it |
| StreamTransport.SseTransport.Send | client/transport-sse.js:231-247 | an event is posted on an open stream and buffered otherwise |
| StreamTransport.SseTransport.OnOpen | client/transport-sse.js:185-188 | opening posts the whole buffer in order |
| Mask.ApplyMask | client/events.js:467-496 | the two-cursor loop computes the mask function |
| Mask.MaskStreams | client/events.js:467-496 | for every mask and all strings, masking what is shown plus what comes next is masking all of it |
| Mask.MaskIdempotent | client/events.js:467-496 | masked text is left alone |
| Mask.TypingIsPasting | client/events.js:454-462 | typing in any pieces shows what pasting the whole would |
| Mask.FillConforms | client/events.js:457-460 | the output follows the mask position by position as far as it goes |
| Mask.Keystroke | client/events.js:467-496 | one keystroke on anything shown fills in the literals that come next and takes the character exactly when the mask's next place is its own or a slot it fits |
| Mask.DigitsComeBack | client/events.js:478-494 | for digit masks with non-digit literals, stripping the literals returns the typed digits up to the number of slots |
| Mask.PlaceCaret | client/events.js:522-533 | the caret stands right after as many fillable characters as preceded it, or at the end when none did or too few are left |
| Imaging.Compress | client/native/imaging.js:200-237 | the result is the highest-quality attempt that fits or else the smallest; the budget flag holds iff one fitted; for a monotone encoder no fitting quality lies above it by more than the stated gap |
| Imaging.FitTouches | client/native/imaging.js:168-173 | a fitted size respects both caps, never grows, and is unchanged or touches a cap |
| Storage.KeysAreSlots | client/native/storage.js:56-58 | an owner and a name can be read back from their key |
| Storage.CollisionsExactly | client/native/storage.js:36-46 | two pairs share a key if and only if one is a default-owner name spelling out the other's key |
| Storage.OwnersAreSeparate | client/native/storage.js:165-264 | over any run of calls and changes of owner, from any store of raw keys, every answer is the one a separate map per owner gives |
| Storage.SeparatorInNameCrosses | client/native/storage.js:41-44 | a default-owner name with a NUL can be read, is never listed, and is another owner's name too |
| Storage.NamesListed | client/native/storage.js:76-82 | a listing shows exactly the names the owner has keys for, raw keys without NUL for the default owner |
| Storage.NamesOnce | client/native/storage.js:76-82 | a listing shows no name twice |
| Storage.ScopedStorage.Remove | client/native/storage.js:200-212 | removal answers not-found for an absent key and otherwise removes just that owner's name |
| Storage.ScopedStorage.List | client/native/storage.js:226-229 | whatever order the backend lists its keys in, the names are the owner's, each once |
| Gestures.StepSound | client/gestures.js:212-365 | every pointer event and frame keeps the pinch baselines, the order of reports and the disjointness of double taps |
| Gestures.GestureRuns | client/gestures.js:130-388 | over every run: a baseline exists exactly while two pointers are on an element; the reports sent are among those made, in order, never twice, the newest included unless it waits with a frame coming; no release is in two double taps, and two consecutive taps are one exactly when quick and close with the first ending no other |
| Gestures.ReleaseSendsTheLast | client/gestures.js:180-198 | when a pointer leaves, the last report its element made has gone out |
| Gestures.FrameSendsNewest | client/gestures.js:160-198 | the frame sends the newest report its element made |
| Gestures.MoveReports | client/gestures.js:234-294 | a move is one report for its element exactly when the widget follows it: pinch surfaces and viewers under two pointers, pan surfaces and viewers under one |
| Gestures.MoveStrays | client/gestures.js:240-245 | a pointer has strayed exactly once it was more than 2 px from its press |
| Gestures.ReleaseCounts | client/gestures.js:302-352 | a release counts towards a double tap exactly when its pointer never strayed and the widget reports double taps |
| Gestures.PressTracked | client/gestures.js:217-226 | a press is tracked where and when it happened |
| Gestures.PointerLeaves | client/gestures.js:326-365 | a lift or a cancel takes that pointer away and no other, and a cancel records nothing |
| Gestures.GestureExactly | client/gestures.js:86-99 | a release is a swipe from 30 px of travel on, otherwise a long press from 500 ms on, otherwise a tap, each with its own coordinates |
| Gestures.PointerHistory | client/gestures.js:234-245 | while a pointer is down, whatever else happens, it keeps its element, widget and origin, has strayed exactly when one of its moves did, and its clock is that of its last move |
| Gestures.HoldExactly | client/gestures.js:347-350 | a press held for half a second, still in place, is a long press exactly unless the pointer moved in the last half second |
| Gestures.WiggledHoldIsATap | client/gestures.js:242 | held for a second with one move of no distance on the way, and reported as a tap |
| Gestures.FollowsExactly | client/gestures.js:308-310 | a second tap is near within 300 ms and 24 px |
| Gestures.RoundNearest | client/gestures.js:87-88 | coordinates and travel are rounded to the nearest whole pixel, halves up |
| Gestures.SwipeWentThatWay | client/gestures.js:86-99 | a swipe went in the direction it names further than in any other and at least 22 px |
| Gestures.Recognizer.OnPointerDown | client/gestures.js:212-231 | the second pointer on an element takes the baseline |
| Gestures.Recognizer.OnPointerMove | client/gestures.js:234-294 | a move reports a pinch, a pan or nothing by widget and live pointers, coalesced |
| Gestures.Recognizer.OnPointerUp | client/gestures.js:326-352 | a release flushes, may end the pinch, and reports a classified gesture exactly when the widget reports taps and it did not complete a double tap |
| Gestures.Recognizer.ReportDoubleTap | client/gestures.js:302-323 | the release that completes a double tap uses up the one before it |
| Virtualize.WindowHoldsTop | client/virtualize.js:189-208 | for every offset the window asked for lies in the list, is full and holds the top item; one is asked for unless the element claims to show it or it was the last asked for |
| Virtualize.WindowLeads | client/virtualize.js:189-208 | a third of the window lies above the top row unless the list begins or ends there, and the request is for this list |
| Virtualize.ScrollAsksExactly | client/virtualize.js:176-202 | exactly when a scroll asks |
| Virtualize.RecoversExactly | client/virtualize.js:105-121 | exactly when a list asks to be recovered |
| Virtualize.StallsExactly | client/virtualize.js:176-209 | over every life of scrolls, patches and rebuilds, at every offset whose window is not shown: a scroll asks for nothing if and only if the element claims to show that window or it was the last one asked for, and it stalls if and only if the claim is stale and that window not on its way, or the window has come and was moved away from; scrolling again changes nothing |
| Virtualize.StaleExactly | client/dom.js:1010-1011 | over every life: where the app shows the window it named, the element's start is wrong if and only if the last pass named none and that window is not the first; where the app names none, if and only if the window shown is not the first |
| Virtualize.RememberedRequestStalls | client/virtualize.js:200-202 | a life that stalls on what it remembers: a scroll asks, the window comes, the app goes back to the top, and the same scroll asks for nothing |
| Virtualize.StaleStartStalls | client/virtualize.js:112-115 | a life that stalls on a stale start: the app slides the window itself, and scrolling back to the top asks for nothing |
| Virtualize.OtherUpdateStalls | client/dom.js:1010-1011 | the same where the app names its windows and an update of another prop came last |
| Virtualize.RecoversLastPage | client/virtualize.js:105-126 | a list whose window is lost asks for its whole last page, once |
| Virtualize.SpacersSpan | client/virtualize.js:152-158 | spacer rows plus rendered rows lie between the list's rows and two more, exactly equal for one column |
| Virtualize.SpacerHeights | client/virtualize.js:145-163 | the rule written puts the first row at its offset to within a row and the list's height to within two, exactly for one column, and there is one exactly when something is left out and can be measured |
| Virtualize.RefreshReachesAll | client/virtualize.js:132-173 | a refresh writes every list's rule and asks for every list that needs it, each on its own account |
| Virtualize.RefreshAsksOnce | client/virtualize.js:132-173 | refreshing after every batch repeats no request while no list changes |
| Virtualize.Virtualizer.RefreshAll | client/virtualize.js:132-173 | the loop over the page's lists makes the requests and rules of the specification |
| Virtualize.Virtualizer.HandleScroll | client/virtualize.js:176-209 | a scroll asks for the window that belongs to its offset and notes it |

## Left out

- Attribute values, styles, accessibility names, listeners, focus, the `type` of an Input and a captioned widget's text: only child structure, types, keys and props are modelled.
- The contents of renderer-owned parts (a select's options, a menu item's glyph and label) and an outline's path data: a part is a leaf here, and whether the icon tables know a name comes with the name.
- Props whose value is an object: values are null, booleans, numbers, strings and lists, which is what decides the presence of a part.
- Page.LiveMount.OnPatches: takes no update or replacement of the overlay layer itself, which has no node in Python's scene to diff; `Faces.DiffsNodes` excludes it too.
- That an element holds its props at all: erasing reads them back from a bag each element carries in the model, so what `Render.ReactRefines` proves of a real element is which children stand where.
- Overlay exactness outside the guards of `Repair.OverlaysNeverStack` and `Repair.MountOnlyRepairs`: the code does not keep it, as `Repair.OverlaysExactly` shows.
- The diff algorithm and Python's session, beyond the full scene and the answer to a request: a correct diff is a hypothesis on a tick.
- A mount whose transport cannot ask for a scene: `Mount.Failed` has the branch, the protocol assumes it away, because nothing repairs such a client.
- Media reports, layout passes and the order of `installMedia` in the mount; batches that arrive before a patch handler is attached.
- A second drainer of the offline queue in a service worker, Background Sync and the sync controller's observable state: the controller would add an easy member.
- OfflineQueue.OfflineQueue.Replay: models one replay with nothing enqueued meanwhile, and a store that does not fail; the sender is asked once for each row, so its answer is a function of the row. Interleaving, crashes and lost responses are in `Delivery`.
- A pull that never ends because the server's cursors go in a circle: replies are a finite list, and running out of them is a broken connection.
- Durability inside one IndexedDB transaction, the codecs, and falling back to `localStorage`.
- The `ready` promise, backoff delays and their jitter, and the reconnect hook of the socket transport.
- Surrogate pairs in masks: a character is a code point. A fixed mask with letter slots or digit literals keeps every law here but `Mask.DigitsComeBack`.
- An encoder that throws, and the rounding of the reported quality and size: `Imaging.Compress` returns the exact attempt.
- The payloads of pinch and pan reports, and a pinch baseline after the pointers it was taken from have changed places.
- Top-item containment for grids and horizontal lists: `Virtualize.TopItem` counts one item to a row.
- `tempestweb/contract.py`, theming, layouts, routing, media and the device wrappers under `client/native/`.
