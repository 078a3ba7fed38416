# CKB explorer front end: verified model

This project models the exact, self-checking code of the explorer's front end in Dafny and proves what that code is for. Every module follows one or two source files:

- `Realtime.dfy`, `RealtimeHistory.dfy`: the shared WebSocket manager of `useRealtimeStore.ts`, as a state machine over the module variables, the store and the browser's sockets and timers, and as a class whose methods are the handlers and the effect. The class is proved to do what the state machine does, and the state machine's invariant holds in every run; what it counts and shows is a function of the events alone.
- `GraphLayout.dfy`, `FiberSeparate.dfy`, `FiberFit.dfy`, `FiberIslands.dfy`, `FiberLayout.dfy`: components, shortest-path rows, collision removal and the narrow layout of the Fiber graph, down to the pixel. Coordinates are reals, and the spring layout is an arbitrary function from a component to points.
- `ScaleLayout.dfy`, `BytePieces.dfy`, `CellParts.dfy`: the width allocator, the cut of bytes into pieces, and the naming of every byte of a code cell.
- `TxFlows.dfy`, `FlowEnds.dfy`: what a transaction moved, its folding for display, and the independent Net row it has to agree with.
- `NewestCells.dfy`, `ScriptCursor.dfy`, `CursorFields.dfy`, `Text.dfy`: the merge of ordered pages and the cursor whose text order has to be the index's, and which can be read back.
- `RecentBlocks.dfy`: the pruned day of blocks against the log that forgets nothing.
- `ExactInteger.dfy`, `Decimals.dfy`, `DobRender.dfy`, `DobTraits.dfy`: exact rounding, units and shares as text, and traits read from DNA.
- `Common.dfy`, `Sorting.dfy`: a result type for what throws, and the stable sort the source uses.

Conventions. An exception is `Err`. Code that updates variables, lists or objects step by step is a method with loops or a class; each is proved against a function or predicate that does not mention the loop, and the lemmas then say what that means, in terms that do not name the function: the bytes, the events, the pixels, the digits. Code that only computes is a function. Integers are unbounded where the source has `bigint`, and where it has numbers that stay safe integers; widths that matter (eight- and two-byte key parts, 2 to the 53) are written out.

Findings, each kept as the code has it and stated with its exact condition:

- `byte-map.ts` promises a zero-length piece for every empty field. It has one if and only if a run starts at its offset or the bytes end there (`BytePieces.EmptyFieldListed`, `BytePieces.EmptyFieldInsideIsLost`).
- Runs are compared by their joined ids, so pieces list exactly their fields if and only if joining confuses no two neighbouring bytes (`BytePieces.ListsExactlyIff`, `BytePieces.EmptyIdIsConfused`).
- `cell-parts.ts` promises that every byte is covered exactly once or it throws. The check admits a part that runs backward; what is returned is a tiling if and only if there is none (`CellParts.ReturnedIsTiling`, `CellParts.ElfParts`, `CellParts.BackwardPartSlipsThrough`).
- `byte-map.ts` promises that the last part comes out at the width. It does if and only if the minimums fit what the gaps and slivers leave, or the slivers and gaps alone fill the width (`ScaleLayout.Layout`, `ScaleLayout.LastPartOverruns`).
- A WebSocket constructor that throws can leave subscribers who have retries left with neither socket nor timer. It does if and only if it throws where a socket was needed, on a mount or on a retry that was not the last; they stay so until the next subscriber whose socket is made, or until the last one leaves (`RealtimeSpec.AbandonsExactlyWhen`, `RealtimeSpec.RunAbandonsExactlyWhen`, `RealtimeSpec.FirstMountAbandoned`).
- Collision removal lowers boxes below the top without looking again when nobody had to be pushed, so boxes can overlap afterwards. They do not if and only if somebody was pushed or the lowered boxes are apart (`FiberSeparate.SettledApart`). The strip branch with a very large party meets such a case (`FiberSeparate.LoweringCanOverlap`, `FiberLayout.StripPassesThem`); the narrow layout never starts a box above the top (`FiberSeparate.SeparatesFromBelow`, `FiberLayout.PlaceMain`).
- The parties of an island are not separated: a pair's footprints are clear of each other if and only if their reaches fit the span between them (`FiberIslands.PairClear`, `FiberLayout.HubsOverlap`).
- A flow's key stands for one asset if the standards hold no colon; with one it may not (`TxFlows.KeyIsAsset`, `TxFlows.ColonsShareKeys`).
- The two compact formats agree on a whole number if and only if it is at least a thousand (`ExactInteger.CompactAgree`).

## Model

| member | source | states |
|---|---|---|
| `RealtimeSpec.StepKeepsInv` | frontend/hooks/useRealtimeStore.ts:103-205 | Every event that can happen keeps the invariant: a live socket, or one with a close handler, is the current one and on the current network; a timer means no socket and carries the current network; no subscribers means no socket, no timer, no network, nothing held; stored facts come from the current network; retries stay within ten |
| `RealtimeSpec.RunKeepsInv` | frontend/hooks/useRealtimeStore.ts:103-205 | The invariant over every run of mounts, unmounts, network switches and socket and timer events |
| `RealtimeSpec.Safety` | frontend/hooks/useRealtimeStore.ts:70-205 | Every state reachable from the start satisfies the invariant |
| `RealtimeSpec.RetriesBounded` | frontend/hooks/useRealtimeStore.ts:124-176 | Between opens, network changes and disconnects every timer reconnect is counted once, so there are at most ten, less what was used before |
| `RealtimeSpec.OutageRetriesOnce` | frontend/hooks/useRealtimeStore.ts:166-176 | While retries are left, a lost socket and its timer lead to a new socket on the same network, one retry further |
| `RealtimeSpec.OutageRetries` | frontend/hooks/useRealtimeStore.ts:166-176 | An outage of n losses within the limit uses exactly n retries and ends with a socket connecting to the same network |
| `RealtimeSpec.NewcomerGetsEveryRetry` | frontend/hooks/useRealtimeStore.ts:124-135 | A subscriber who arrives after everybody left gets all ten retries whatever was used before, and the eleventh loss arms nothing |
| `RealtimeHistory.HistoryTells` | frontend/hooks/useRealtimeStore.ts:70-205 | After every run from the start, the subscribers, the network, the retries used, the latest block and transaction and both revision counters are what the list of events alone tells: retries counted since the last open or change of network and ten once everybody left, blocks and reorgs since the last change of network or reset, a block forgotten on a reorg |
| `RealtimeHistory.OpenGivesRetriesBack` | frontend/hooks/useRealtimeStore.ts:142-176 | A socket that opens gives all ten retries back whatever was used before: for every n up to ten, n failures in a row after it lead to the n-th retry, on its network |
| `RealtimeHistory.RetriedAfterOpen` | frontend/hooks/useRealtimeStore.ts:142-176 | The first failure after an open arms a timer at once, and its retry counts as the first |
| `RealtimeHistory.OpenSocketShows` | frontend/hooks/useRealtimeStore.ts:142-144 | In every run an open current socket shows as connected, unless the store was reset after it opened |
| `RealtimeHistory.LinkEndsExactlyWhen` | frontend/hooks/useRealtimeStore.ts:103-205 | A live socket stays current through every event but its own close, the last unmount and a mount on another network, and after one of these it is live no more |
| `RealtimeSpec.NeverAbandons` | frontend/hooks/useRealtimeStore.ts:139-183 | In every run in which no WebSocket constructor throws, a subscriber with retries left has a socket or a pending timer |
| `RealtimeSpec.RefusalAbandons` | frontend/hooks/useRealtimeStore.ts:139-183 | A constructor that throws on a mount, where a socket was needed and retries are left, leaves its subscriber with neither |
| `RealtimeSpec.RefusedRetryAbandons` | frontend/hooks/useRealtimeStore.ts:171-183 | A constructor that throws on a retry leaves its subscribers with neither if and only if retries are left after it |
| `RealtimeSpec.AbandonsExactlyWhen` | frontend/hooks/useRealtimeStore.ts:103-205 | The exact condition for every event: subscribers with retries left have neither socket nor timer afterwards if and only if the event stranded them (a constructor threw where a socket was needed), or they had neither before and it was not an unrefused mount or the last unmount |
| `RealtimeSpec.RunAbandonsExactlyWhen` | frontend/hooks/useRealtimeStore.ts:103-205 | The same over every run: at its end if and only if some event stranded them and none since relieved them |
| `RealtimeSpec.FirstMountAbandoned` | frontend/hooks/useRealtimeStore.ts:139-183 | It happens to the very first subscriber when its constructor throws |
| `RealtimeSpec.NewcomerRelieves` | frontend/hooks/useRealtimeStore.ts:103-184 | The next subscriber whose socket is made ends it, on its own network |
| `RealtimeSpec.ConnectKeeps` | frontend/hooks/useRealtimeStore.ts:103-184 | Connecting, whether reused, replaced or refused, ends in the invariant with the requested network current |
| `RealtimeSpec.UnmountKeeps` | frontend/hooks/useRealtimeStore.ts:290-299 | The effect's cleanup keeps the invariant, for the last subscriber and for any other |
| `RealtimeSpec.OpenedKeeps` | frontend/hooks/useRealtimeStore.ts:142-148 | An open event keeps the invariant |
| `RealtimeSpec.DroppedKeeps` | frontend/hooks/useRealtimeStore.ts:166-180 | A close event, of the current socket or of one given up earlier, keeps the invariant |
| `RealtimeSpec.ReceivedKeeps` | frontend/hooks/useRealtimeStore.ts:150-164 | A message keeps the invariant, the stored facts' origin included |
| `Realtime.RealtimeManager.constructor` | frontend/hooks/useRealtimeStore.ts:70-101 | The variables start in the initial state, which satisfies the invariant |
| `Realtime.RealtimeManager.DropCurrent` | frontend/hooks/useRealtimeStore.ts:114-119 | The current socket loses its handlers and is closed, and nothing else changes |
| `Realtime.RealtimeManager.ClearTimer` | frontend/hooks/useRealtimeStore.ts:120-123 | A pending reconnect is cancelled and forgotten |
| `Realtime.RealtimeManager.ConnectWebSocket` | frontend/hooks/useRealtimeStore.ts:103-184 | Does to the variables what the state machine's connect step says, whether or not the constructor throws |
| `Realtime.RealtimeManager.DisconnectWebSocket` | frontend/hooks/useRealtimeStore.ts:186-205 | Does what the disconnect step says |
| `Realtime.RealtimeManager.Subscribe` | frontend/hooks/useRealtimeStore.ts:282-288 | The effect: one more subscriber, then the connect step |
| `Realtime.RealtimeManager.Unsubscribe` | frontend/hooks/useRealtimeStore.ts:290-299 | The cleanup: one fewer, and the disconnect step when it was the last |
| `Realtime.RealtimeManager.OnOpen` | frontend/hooks/useRealtimeStore.ts:142-148 | In every reachable state the socket that opened is the one the handler sends through, so the three subscriptions reach it and no send throws; the retry counter is zero again and the store shows the link |
| `Realtime.RealtimeManager.Send` | frontend/hooks/useRealtimeStore.ts:145-147 | A send appends to the current socket's traffic, or does nothing without one |
| `Realtime.RealtimeManager.OnMessage` | frontend/hooks/useRealtimeStore.ts:150-164 | Revisions, the dropped block of a reorg and every subscriber's handler, as the state machine's message step |
| `Realtime.RealtimeManager.HandleMessage` | frontend/hooks/useRealtimeStore.ts:213-263 | One subscriber's handler stores the block or the transaction it hears |
| `Realtime.RealtimeManager.OnDropped` | frontend/hooks/useRealtimeStore.ts:166-180 | The browser's error and close events in turn come to the state machine's drop step |
| `Realtime.RealtimeManager.OnError` | frontend/hooks/useRealtimeStore.ts:178-180 | The error handler closes whatever socket is current |
| `Realtime.RealtimeManager.OnClose` | frontend/hooks/useRealtimeStore.ts:166-176 | No socket is current afterwards, and a retry is armed exactly when somebody subscribes and retries are left |
| `Realtime.RealtimeManager.OnTimer` | frontend/hooks/useRealtimeStore.ts:171-174 | A timer that fires counts one retry and connects to the network it carries |
| `Realtime.RealtimeManager.ResetStore` | frontend/hooks/useRealtimeStore.ts:80-87 | The store's reset clears the facts and the flag and leaves who holds the socket |
| `Realtime.RealtimeManager.Deliver` | frontend/hooks/useRealtimeStore.ts:103-205 | Every event does to the variables exactly what the state machine says and keeps its invariant |
| `ScaleLayout.Layout` | frontend/lib/byte-map.ts:84-124 | Returns exactly for a positive width, whatever the floor and the ranges; there is one level with every non-empty part as wide as the larger of its minimum and level times its bytes, empty parts are slivers and a backward range has no width; each part starts a gap after the one before it while there are numbers to add; where every range runs forward all parts have their place, and the last one ends at the width if and only if the minimums fit what the gaps and slivers leave, or there is no non-empty part and they leave nothing |
| `ScaleLayout.ShareOut` | frontend/lib/byte-map.ts:106-116 | The loop ends, because the fixed set strictly grows, in the water-filling, which uses up what is available if the minimums fit in it and otherwise leaves every part at its minimum |
| `ScaleLayout.ShareRest` | frontend/lib/byte-map.ts:109-112 | One round shares what the fixed parts leave in proportion to bytes |
| `ScaleLayout.PartWidths` | frontend/lib/byte-map.ts:93-119 | Empty parts are slivers; the others add up to what is available if their minimums fit, and are their minimums otherwise |
| `ScaleLayout.PlaceSideBySide` | frontend/lib/byte-map.ts:117-123 | Each part starts a gap after the one before it, for as long as widths are numbers; when all are, the last ends at the sum of widths and gaps |
| `ScaleLayout.LostAfter` | frontend/lib/byte-map.ts:117-123 | A part has no place if and only if one before it has no width |
| `ScaleLayout.MinimumsFit` | frontend/lib/byte-map.ts:95-105 | With a floor that is not negative the minimums chosen add up to no more than what is available, and are nothing when nothing is |
| `ScaleLayout.MinimumsChosen` | frontend/lib/byte-map.ts:93-105 | Where the widths the parts like (their label's, or the floor if that is more) all fit, these are the minimums; otherwise all have the same: the floor where that fits, else an equal part of the room |
| `ScaleLayout.DefaultsShown` | frontend/lib/byte-map.ts:77-124 | With the defaults, 1000, 1 and 0 bytes on 102 px come out 91, 3 and 4 wide, 2 apart |
| `ScaleLayout.NotAllBelow` | frontend/lib/byte-map.ts:108-115 | While the minimums fit, never are all free parts below theirs, so the loop never divides by no bytes |
| `ScaleLayout.LevelOnlyFalls` | frontend/lib/byte-map.ts:108-115 | Fixing the parts below their minimum lowers the level, so what was fixed stays rightly fixed |
| `ScaleLayout.FixingStep` | frontend/lib/byte-map.ts:108-115 | One round keeps the loop's invariant |
| `ScaleLayout.EndOfLayout` | frontend/lib/byte-map.ts:94-123 | Where the last part ends against the width, both ways |
| `ScaleLayout.FillsWhenRoom` | frontend/lib/byte-map.ts:94-105 | With a floor that is not negative the minimums fit exactly when the gaps and slivers do |
| `ScaleLayout.LastPartOverruns` | frontend/lib/byte-map.ts:79-83 | Two parts on one pixel with the default gaps: the last part ends past the width, against the comment |
| `ScaleLayout.LayoutIsUnique` | frontend/lib/byte-map.ts:84-124 | Any layout with parts side by side, slivers for empty ones, the others water-filled at any level and the same end is the one returned |
| `ScaleLayout.WaterFillingIsUnique` | frontend/lib/byte-map.ts:79-83 | Two water-fillings of the same room give every part the same width |
| `ScaleLayout.WaterRises` | frontend/lib/byte-map.ts:79-83 | A higher level makes no part narrower |
| `BytePieces.Pieces` | frontend/lib/byte-map.ts:40-67 | Returns exactly for a valid length and ranges inside it; the pieces then chain from 0 to the length, their non-empty ones are the maximal runs, and every zero-length piece is an empty field's |
| `BytePieces.Runs` | frontend/lib/byte-map.ts:47-56 | The loop over the cuts gives runs that tile the bytes, with neighbours that read differently |
| `BytePieces.Interleave` | frontend/lib/byte-map.ts:57-63 | The runs with the empty fields at their starts between them, in order |
| `BytePieces.AddSlivers` | frontend/lib/byte-map.ts:60-65 | The empty fields at one offset, in input order, and nothing else |
| `BytePieces.EdgesAreCuts` | frontend/lib/byte-map.ts:44-46 | The cuts run strictly upwards from 0 to the length through both ends of every field |
| `BytePieces.SameBetweenCuts` | frontend/lib/byte-map.ts:50-52 | Between neighbouring cuts every byte is read by the fields the filter lists |
| `BytePieces.RunStarts` | frontend/lib/byte-map.ts:53-55 | A run starts at a byte exactly when the bytes on its two sides read differently |
| `BytePieces.ListsExactlyIff` | frontend/lib/byte-map.ts:35-55 | Each non-empty piece lists exactly the non-empty fields of each of its bytes if and only if joining ids confuses no two neighbouring bytes |
| `BytePieces.CleanIdsAreNeverConfused` | frontend/lib/byte-map.ts:54 | Ids that are never empty and hold no separator are never confused |
| `BytePieces.JoinInjective` | frontend/lib/byte-map.ts:54 | Joining with the separator tells such id lists apart |
| `BytePieces.EmptyFieldListed` | frontend/lib/byte-map.ts:35-66 | An empty field has its zero-length piece if and only if a run starts at its offset or the bytes end there; the comment promises it always |
| `BytePieces.EmptyFieldInsideIsLost` | frontend/lib/byte-map.ts:35-39 | An empty field inside another one has no piece, against the comment |
| `BytePieces.EmptyIdIsConfused` | frontend/lib/byte-map.ts:54 | An empty id makes a piece claim a byte no field covers |
| `BytePieces.AtIsCovering` | frontend/lib/byte-map.ts:50-52 | The fields a byte is listed under are exactly those whose range it lies in, in input order |
| `GraphLayout.Adjacency` | frontend/lib/graph-layout.ts:13-24 | Returns exactly for distinct nodes and known ends, and then lists for every node exactly its other neighbours |
| `GraphLayout.Search` | frontend/lib/graph-layout.ts:32-45 | The breadth-first search meets each node joined to its start once, and no other |
| `GraphLayout.InInputOrder` | frontend/lib/graph-layout.ts:46 | Sorting the members by position keeps them and puts them in input order |
| `GraphLayout.LargestFirst` | frontend/lib/graph-layout.ts:48-51 | The components come largest first, equal sizes by first appearance |
| `GraphLayout.ConnectedComponents` | frontend/lib/graph-layout.ts:27-52 | Returns exactly for distinct nodes and known ends: the components partition the nodes, members in input order, largest first, ties by first appearance |
| `GraphLayout.SharedExactlyWhenJoined` | frontend/lib/graph-layout.ts:26-52 | Two nodes share a component if and only if an edge path joins them |
| `GraphLayout.InOneComponent` | frontend/lib/graph-layout.ts:26-52 | No node is in two components |
| `GraphLayout.DistanceRow` | frontend/lib/graph-layout.ts:70-83 | Each entry of a row is the length of a shortest path, and an entry left infinite has no path |
| `GraphLayout.SpreadDone` | frontend/lib/graph-layout.ts:74-83 | When the queue is empty the numbers are the shortest distances and unreached nodes are unreachable |
| `GraphLayout.Distances` | frontend/lib/graph-layout.ts:65-89 | The whole matrix: throws exactly on duplicate nodes, unknown ends or a graph in pieces; otherwise true distances, and for two or more nodes a largest entry of at least one to divide by |
| `GraphLayout.ComponentIsLayoutable` | frontend/lib/fiber-network-model.ts:227-236 | A component with the links whose first end is in it has known ends and is in one piece, so laying it out never throws |
| `FiberSeparate.CheckedIsApart` | frontend/lib/fiber-network-model.ts:198-200 | Passing the overlap check is being the gap less 0.000001 apart on some axis |
| `FiberSeparate.PushApart` | frontend/lib/fiber-network-model.ts:197-216 | Two boxes are left alone exactly when they pass the check; a push moves only these two, along the axis on which they overlap less, and keeps boxes that fit across the canvas |
| `FiberSeparate.PushIsShared` | frontend/lib/fiber-network-model.ts:197-216 | Two overlapping footprints on the canvas part along the axis they overlap less on, half of the overlap and 3 px each; across, one that meets the canvas edge stops there, and exactly when that costs more than 0.000001 the lower one also moves down by the whole overlap and gap |
| `FiberSeparate.ReachIs` | frontend/lib/fiber-network-model.ts:155-158 | A party reaches its radius and 4 px across and up, at least 23 px across, and its radius and 18 px down |
| `FiberSeparate.PushFrees` | frontend/lib/fiber-network-model.ts:202-216 | One push frees two footprints on the canvas neither of which reaches past the other on both sides, wall or no wall |
| `FiberSeparate.PushFreesExactlyWhen` | frontend/lib/fiber-network-model.ts:202-216 | For any two overlapping footprints, on the canvas or past its sides, one push frees them if and only if on an axis it takes they are nested by no more than the slack less what the walls take, or the walls throw them past each other |
| `FiberSeparate.PushAll` | frontend/lib/fiber-network-model.ts:194-217 | A pass pushes every pair once, in order, each as the pairs before it left it; it is quiet exactly when every pair passes the check, and a quiet pass moves nothing |
| `FiberSeparate.ClampAll` | frontend/lib/fiber-network-model.ts:218 | Every box is lowered to the top if it is above it, and otherwise left |
| `FiberSeparate.Separate` | frontend/lib/fiber-network-model.ts:179-225 | From any starting boxes: it returns if and only if some number of passes below 2000 leaves all of them 2.999999 px apart on some axis, and what it returns is the boxes after the first such number, lowered below the top; nothing is above the top, boxes that started across the canvas are, no other party moved |
| `FiberSeparate.SettledApart` | frontend/lib/fiber-network-model.ts:193-223 | What is returned is apart if and only if somebody had to be pushed or the boxes already apart still are once lowered |
| `FiberSeparate.TwoSettle` | frontend/lib/fiber-network-model.ts:193-223 | Two parties on a canvas up to 20000 px wide are always separated within the pass limit |
| `FiberSeparate.SeparatesFromBelow` | frontend/lib/fiber-network-model.ts:218-222 | Where nobody starts above the top, that condition holds |
| `FiberSeparate.LoweringCanOverlap` | frontend/lib/fiber-network-model.ts:218-222 | Parties of 625, 1 and 1 channels, as the strip branch fits them at 720 px: nobody is pushed, and lowering puts the very large one over its neighbour |
| `FiberLayout.StripPassesThem` | frontend/lib/fiber-network-model.ts:260-270 | Those boxes are parties with their own radii at points that the strip's box makes of spring points in one column |
| `FiberSeparate.PassSpends` | frontend/lib/fiber-network-model.ts:193-223 | Every pass that pushes two parties brings them nearer to clear by a step of a finite budget: 48 px across, or half of what overlaps down |
| `FiberSeparate.EnoughPasses` | frontend/lib/fiber-network-model.ts:193-223 | On a canvas up to 20000 px wide that budget is less than the pass limit |
| `FiberFit.ScaleFits` | frontend/lib/fiber-network-model.ts:97-98 | Scaling takes an interval into another, ends to ends, in order |
| `FiberFit.FitStretches` | frontend/lib/fiber-network-model.ts:90-105 | Fitted points lie in the box, in the order they had on each axis |
| `FiberFit.FitIsFitted` | frontend/lib/fiber-network-model.ts:90-105 | Every member stands as far between the box's sides as its point stood between the outermost points, on each axis, and half way where those are one; stated without dividing |
| `FiberIslands.BusiestFirst` | frontend/lib/fiber-network-model.ts:328 | The members, most channels first, those with equal counts in the order they had |
| `Sorting.SortStable` | frontend/lib/fiber-network-model.ts:328 | The sort is stable: elements that all tie keep the order they had among themselves |
| `FiberIslands.MakeSlot` | frontend/lib/fiber-network-model.ts:327-331 | An island's slot is as wide as its biggest party's reach on both sides and its inner span |
| `FiberLayout.MakeSlots` | frontend/lib/fiber-network-model.ts:327-337 | Returns exactly when every island fits the width, and then each island's slot: its parties busiest first with ties in order, twice its biggest party's reach wide and 0, 60 or 120 px more |
| `FiberIslands.PackRows` | frontend/lib/fiber-network-model.ts:338-347 | The rows keep all islands in order and each row fits the width |
| `FiberIslands.PackedBreaks` | frontend/lib/fiber-network-model.ts:338-347 | Each row fits the width with 16 px between its slots, and the next slot would not have fitted any more |
| `FiberIslands.PlaceSlot` | frontend/lib/fiber-network-model.ts:358-370 | One island's parties land at its slot's reach, one or two of them side by side 60 px apart with the busier first, more of them fitted to a box of 120 by 70; no other party moves |
| `FiberIslands.PairClear` | frontend/lib/fiber-network-model.ts:359-362 | The two parties of a pair are clear of each other if and only if their reaches add up to no more than the span between them |
| `FiberLayout.HubsOverlap` | frontend/lib/fiber-network-model.ts:359-362 | Two hubs of 100 channels each overlap |
| `FiberIslands.PlaceRow` | frontend/lib/fiber-network-model.ts:350-373 | A row's islands stand side by side on one line, 16 px apart from the left edge on, apart from everything above; the row is as tall as its biggest party needs, and 70 px more if an island in it has more than two parties |
| `FiberIslands.PlaceRows` | frontend/lib/fiber-network-model.ts:348-374 | Every row starts 16 px under the one before it, the first at the given top |
| `FiberIslands.LayoutComponent` | frontend/lib/fiber-network-model.ts:227-236 | A component with its own links is always laid out, one point a member |
| `FiberLayout.PlaceMain` | frontend/lib/fiber-network-model.ts:302-320 | The main component is its spring layout stretched over its box, then passed over until its footprints are 2.999999 px apart; it fails only if no number of passes below 2000 does that; it succeeds for one or two parties and whenever the fitted footprints are apart |
| `FiberLayout.MainBoxIs` | frontend/lib/fiber-network-model.ts:305-317 | The box begins as far from both sides as the widest party reaches and as far from the top as the biggest does, and is a whole number of pixels tall: within half a pixel of 1.2 times its width, but 280 at least and 464 at most |
| `FiberLayout.FitMain` | frontend/lib/fiber-network-model.ts:302-317 | Every party's point is stretched over such a box, and no footprint leaves the canvas |
| `FiberLayout.UnmovedWhereApart` | frontend/lib/fiber-network-model.ts:302-320 | Where the fitted footprints are apart, every main party stands exactly where its fitted point is |
| `FiberLayout.CompactLayout` | frontend/lib/fiber-network-model.ts:243-375 | Whenever the narrow layout returns, every footprint lies inside the canvas, footprints of the main component are the gap less 0.000001 apart on some axis, and footprints of different components are the island gap apart; the main component is the fitted layout after its passes; the islands, busiest party first, stand in rows from 35 px under its lowest footprint, and the picture is the least whole number of pixels that holds the last row, or the main component where there are no islands. It fails only on a width that is not positive, a party or island that does not fit, or a main component that never settles, and always returns for a main component of two parties at most or with nothing to push apart, if everything fits |
| `FiberLayout.HomesKeepApart` | frontend/lib/fiber-network-model.ts:300-375 | Components housed in disjoint boxes have disjoint footprints |
| `FiberLayout.HomesKeepOnCanvas` | frontend/lib/fiber-network-model.ts:300-375 | Boxes within the canvas keep every footprint within it |
| `FiberLayout.GraphData` | frontend/lib/fiber-network-model.ts:119-151 | Returns exactly when the network agrees with its own summary and names its parties once and its pairs' ends; gives the parties by id, their components and neighbours, and unpaired channels that make the total with the paired ones |
| `FiberLayout.RepresentedAdds` | frontend/lib/fiber-network-model.ts:130-134 | The channels the pairs represent are those of each pair added up |
| `FiberLayout.Neighbours` | frontend/lib/fiber-network-model.ts:137-141 | Each party's neighbours are exactly those it shares a pair with, in either order |
| `FiberLayout.Index` | frontend/lib/fiber-network-model.ts:125 | Every party is found under its own lock hash |
| `FiberLayout.GraphModel` | frontend/lib/fiber-network-model.ts:432-434 | From an API response to a narrow picture: whatever is drawn is composed so, inside and apart |
| `CellParts.CoveredOnce` | frontend/lib/cell-parts.ts:207-211 | In a tiling every byte of the file is in exactly one part and nothing else is in any |
| `CellParts.FillGaps` | frontend/lib/cell-parts.ts:336-363 | The loop names exactly the gaps between the ordered parts that one program segment holds |
| `CellParts.FindSegment` | frontend/lib/cell-parts.ts:341-345 | The first segment that holds the gap, if any does |
| `CellParts.CheckTiling` | frontend/lib/cell-parts.ts:366-377 | The check passes exactly when each part starts where the one before it ends and the last ends at the length |
| `CellParts.NameEveryByte` | frontend/lib/cell-parts.ts:333-378 | Sorting, filling and checking: returns exactly when the filled list passes the check |
| `CellParts.ReturnedIsTiling` | frontend/lib/cell-parts.ts:333-378 | A returned list tiles the file if and only if no part it was built from runs backward |
| `CellParts.SucceedsExactlyWhen` | frontend/lib/cell-parts.ts:333-378 | For non-empty parts it returns if and only if they are inside the file, disjoint, and every maximal unclaimed stretch lies in one program segment |
| `CellParts.BackwardPartSlipsThrough` | frontend/lib/cell-parts.ts:366-377 | An ELF file of 74 bytes with a padding range from 84 back to 74 passes the check of elfParts without a tiling |
| `CellParts.ElfParts` | frontend/lib/cell-parts.ts:212-379 | Returns exactly for a 64-bit ELF whose filled list passes the check. The list then holds the 19 header fields, every program header at its table's offset plus its index times the entry size, every section with bytes at its own offset and size, every padding range and the section table where it has bytes; every other part is a stretch none of these covers and one program segment loads. It tiles the file if and only if no part runs backward, and for non-empty parts it returns if and only if they are inside the file, disjoint, and every maximal unclaimed stretch lies in one program segment |
| `CellParts.InitialIsNamed` | frontend/lib/cell-parts.ts:212-332 | The parts the layout starts from are exactly those the file's headers name |
| `CellParts.OthersAreLoaded` | frontend/lib/cell-parts.ts:333-363 | Any other part of a filled list covers bytes no header names, all of them in one program segment's file range |
| `CellParts.HoldsEveryByte` | frontend/lib/cell-parts.ts:341-345 | A segment holds a stretch if and only if it loads every byte of it |
| `CellParts.ElfRegions` | frontend/lib/cell-parts.ts:403-436 | Every region is a stretch of neighbouring parts, from the first one's start to the last one's end, cut exactly where two neighbours are not both header fields or both program headers, and named by them; the regions list every part id once in order and keep the tiling |
| `CellParts.DecodedDataParts` | frontend/lib/cell-parts.ts:119-163 | Returns exactly for non-empty, disjoint segments inside the data, and then tiles it with those segments and the gaps between them |
| `RecentBlocks.CacheRefinesLog` | frontend/hooks/useRecentBlocksStore.ts:31-44 | From a list in strict time order, after any arrivals in any order, the pruned list is in strict time order and agrees on the last day with the log that forgets nothing |
| `RecentBlocks.SumsAreTheLogs` | frontend/hooks/useRecentBlocksStore.ts:76-98 | So the hour and day sums are those over the whole first-arrival log |
| `RecentBlocks.LatestNeverDecreases` | frontend/hooks/useRecentBlocksStore.ts:65-74 | An arrival never moves the latest timestamp back |
| `RecentBlocks.WindowSums` | frontend/hooks/useRecentBlocksStore.ts:76-98 | The sums are those of the blocks less than 3,600,000 and 86,400,000 ms older than the latest |
| `RecentBlocks.ArrivalLeaves` | frontend/hooks/useRecentBlocksStore.ts:31-74 | After an arrival exactly the blocks less than a day older than it are there, itself included unless a block at its time was there |
| `RecentBlocks.AddKeepsRefines` | frontend/hooks/useRecentBlocksStore.ts:31-37 | Adding a block to both keeps the agreement |
| `RecentBlocks.PruneKeepsRefines` | frontend/hooks/useRecentBlocksStore.ts:39-44 | Pruning by any block of the log drops nothing of the last day |
| `RecentBlocks.RecentBlocksStore.constructor` | frontend/hooks/useRecentBlocksStore.ts:21-23 | The store starts empty and not initialized |
| `RecentBlocks.RecentBlocksStore.SetBlocks` | frontend/hooks/useRecentBlocksStore.ts:25 | The list is replaced and the latch set |
| `RecentBlocks.RecentBlocksStore.Reset` | frontend/hooks/useRecentBlocksStore.ts:29 | The list and the latch are cleared |
| `RecentBlocks.RecentBlocksStore.AddBlock` | frontend/hooks/useRecentBlocksStore.ts:31-37 | A block at a new time joins, and nothing else changes, leaving the list in time order; a block at a known time changes nothing; a list in strict time order stays so |
| `RecentBlocks.RecentBlocksStore.PruneOldBlocks` | frontend/hooks/useRecentBlocksStore.ts:39-44 | Exactly the blocks after the cutoff stay, as often as they were there; a list in time order, strict or not, stays so |
| `RecentBlocks.RecentBlocksStore.OnLatestBlock` | frontend/hooks/useRecentBlocksStore.ts:65-74 | The effect adds, then prunes, and does nothing before the first list |
| `RecentBlocks.RecentBlocksStore.Stats` | frontend/hooks/useRecentBlocksStore.ts:76-98 | One loop gives both windowed sums |
| `RecentBlocks.RecentBlocksStore.Follow` | frontend/hooks/useRecentBlocksStore.ts:59-98 | A loaded store that follows any blocks shows the sums of the unpruned log |
| `NewestCells.MergeNewestFirst` | frontend/lib/script-newest-cells.ts:37-78 | Returns exactly for rows of the right index, each page strictly newest first and no outpoint twice; the result is then the first rows, up to the limit, of the newest-first sort of all pages |
| `NewestCells.CheckPages` | frontend/lib/script-newest-cells.ts:42-59 | The checks pass exactly for such pages |
| `NewestCells.NewerExactlyWhen` | frontend/lib/script-newest-cells.ts:25-29 | A cell comes first if and only if its block is later or, in the same block, its hash is greater at the first difference or, in the same transaction, its output is later |
| `Text.LessExactlyWhen` | frontend/lib/script-newest-cells.ts:27 | One text is before another if and only if, where they first differ, it ends or has the smaller character |
| `NewestCells.PickBest` | frontend/lib/script-newest-cells.ts:64-73 | The head chosen is no older than any other head, and none is chosen only when all pages are used up |
| `NewestCells.StrictIsSorted` | frontend/lib/script-newest-cells.ts:21-29 | There is only one strictly newest-first list of given cells, and the sort gives it |
| `NewestCells.NoOlderTransitive` | frontend/lib/script-newest-cells.ts:25-29 | The comparator is a transitive order |
| `NewestCells.CompareOpposite` | frontend/lib/script-newest-cells.ts:25-29 | It is antisymmetric, and a tie is the same outpoint in the same block |
| `NewestCells.PagesSuffice` | frontend/lib/script-newest-cells.ts:31-36 | Pages that are whole indexes or their first rows, at least as many as the limit, give the newest rows of the full indexes |
| `NewestCells.PagesAcceptable` | frontend/lib/script-newest-cells.ts:42-59 | Beginnings of acceptable indexes are accepted |
| `ScriptCursor.HexToBytes` | frontend/lib/script-ref.ts:42-58 | The loop reads pairs as parseInt does, signs, spaces and half-read pairs included, and throws on an odd length or an unreadable pair |
| `ScriptCursor.EncodeCellsByScriptCursor` | frontend/lib/script-ref.ts:68-87 | Returns exactly when both hashes read as bytes, and then gives the key with its optional phase |
| `ScriptCursor.HexRoundTrip` | frontend/lib/script-ref.ts:42-58 | Lower-case hexadecimal read and printed again is unchanged |
| `ScriptCursor.BigEndianOrder` | frontend/lib/script-ref.ts:79-83 | Equally wide big-endian numbers compare as their hexadecimal texts |
| `ScriptCursor.RowTextOrder` | frontend/lib/script-ref.ts:60-67 | A row's part of the key is injective and orders texts opposite to newest first |
| `ScriptCursor.CursorOrder` | frontend/lib/script-ref.ts:60-87 | For one reference, hash type and phase, cursors are equal exactly for equal rows and their text order is exactly the reverse of newest first |
| `CursorFields.CursorSpells` | frontend/lib/script-ref.ts:35-87 | A cursor's text is lock:, type: or nothing, then the reference's 64 digits, the hash type's two (00, 01, 02, 04 for data, type, data1, data2), 16 that spell the block, the transaction hash's 64 and 4 that spell the output index |
| `CursorFields.SpellsOne` | frontend/lib/script-ref.ts:60-87 | A text spells one cursor only: phase, reference, hash type and row are all in it |
| `CursorFields.HexDigitsAt` | frontend/lib/script-ref.ts:85 | Bytes print as their two digits in base 16, the high one first, in their order |
| `CursorFields.SpacesAre` | frontend/lib/script-ref.ts:51 | What parseInt skips in front of a number |
| `CursorFields.PairExamples` | frontend/lib/script-ref.ts:50-52 | What parseInt reads in pairs with upper case, one digit only, a sign or a space, and in pairs that are no number |
| `TxFlows.TxFlows` | frontend/lib/tx-flows.ts:98-169 | Returns exactly when all numbers read, the fee is not negative, a compensation is positive and the CKB balances (or, in genesis, something is issued); every flow then conserves: both sides come to the total, all amounts are positive, and each participant's receipts less gifts are the sum of its own signed changes |
| `TxFlows.FlowsConserve` | frontend/lib/tx-flows.ts:98-169 | The same over every accepted input, for the flows as a value |
| `FlowEnds.SidesAre` | frontend/lib/tx-flows.ts:98-169 | Each flow names exactly who and what the changes say. CKB, last: participants whose CKB went down or up by just that much, the compensation, the issue in genesis, and the miner exactly when there is a fee. An item: participants that list a change of it, minted for what is left over, burnt for what is missing |
| `FlowEnds.AcceptedExactlyWhen` | frontend/lib/tx-flows.ts:48-167 | The flows are given if and only if every change and the fee is an optional minus and digits, the fee is not negative, a compensation is positive, and the changes and the fee come to the compensation, or to more in genesis |
| `FlowEnds.CkbFlowExactlyWhen` | frontend/lib/tx-flows.ts:143-167 | There is a CKB flow if and only if somebody's CKB changed or there is a fee, a compensation or an issue |
| `FlowEnds.PostingsInOrder` | frontend/lib/tx-flows.ts:111-127 | Items are booked participant by participant, in the API's order |
| `Decimals.SignedRoundTrip` | frontend/lib/tx-flows.ts:48-52 | A number's digits are read as that number, and with a minus sign before them as its opposite |
| `Decimals.SignedExactlyWhen` | frontend/lib/tx-flows.ts:48-52 | A text is read if and only if it is one or more digits, with or without a minus sign before them |
| `Decimals.LeadingZerosRead` | frontend/lib/tx-flows.ts:48-52 | Zeros in front of the digits change nothing, on either side of zero |
| `TxFlows.Collect` | frontend/lib/tx-flows.ts:111-131 | The loop over participants and items books every change once, under its key |
| `TxFlows.PostParty` | frontend/lib/tx-flows.ts:116-127 | One participant's items, throwing exactly on an unreadable change |
| `TxFlows.Post` | frontend/lib/tx-flows.ts:117-126 | One item change joins its key's givers or receivers; a new key opens an account at the end of the order |
| `TxFlows.FlowOfAccount` | frontend/lib/tx-flows.ts:133-141 | Minted or burnt is exactly what an item's changes add up to |
| `TxFlows.ItemAccounts` | frontend/lib/tx-flows.ts:133-141 | An item's two sides balance, in all and for each participant |
| `TxFlows.MakeCkbFlow` | frontend/lib/tx-flows.ts:143-167 | The CKB flow is accepted exactly when fee, compensation and issue make it balance |
| `TxFlows.CkbSidesSum` | frontend/lib/tx-flows.ts:143-167 | With its terminals the CKB receivers exceed the givers by the surplus, and by nothing once it is issued |
| `TxFlows.PartiesBalance` | frontend/lib/tx-flows.ts:79-88 | Receivers less givers are the signed changes added up, whatever order sorting gives |
| `TxFlows.PartiesInOrder` | frontend/lib/tx-flows.ts:78-83 | Larger amounts first, equal amounts in the API's order |
| `TxFlows.KeysInOrder` | frontend/lib/tx-flows.ts:90-97 | Keys come once each, in the order of their first listing |
| `TxFlows.FirstAtIsFirst` | frontend/lib/tx-flows.ts:116-123 | Nothing before a key's first listing has that key |
| `TxFlows.KeysAreListed` | frontend/lib/tx-flows.ts:116-123 | A key has a flow if and only if some participant lists an item with it |
| `TxFlows.KeyIsAsset` | frontend/lib/tx-flows.ts:54-60 | For standards without a colon, as the API's are, two items have the same key if and only if they are the same asset |
| `TxFlows.ColonsShareKeys` | frontend/lib/tx-flows.ts:54-60 | With a colon in a standard two assets can share a key |
| `TxFlows.FlowIsOneAsset` | frontend/lib/tx-flows.ts:111-141 | So every item booked in a flow is the asset of its first listing |
| `TxFlows.BalanceNet` | frontend/lib/tx-detail-model.ts:100-124 | Returns exactly when the changes read and, outside genesis, add up to compensation less fee; gives both sums and the note |
| `FlowEnds.NetExactlyWhen` | frontend/lib/tx-detail-model.ts:100-124 | The Net row is given if and only if both changes of everybody are such texts and, outside genesis, the fee is and the CKB changes and the fee come to the compensation |
| `FlowEnds.TotalsJoin` | frontend/lib/tx-detail-model.ts:100-124 | Both sums grow by one participant's own changes at a time |
| `TxFlows.ChecksCompared` | frontend/lib/tx-detail-model.ts:95-124 | On every input with readable occupied changes, the flows accept exactly what the Net row accepts, and besides readable items, a fee not negative, a positive compensation and, in genesis, something issued |
| `TxFlows.ChecksAgree` | frontend/lib/tx-detail-model.ts:95-124 | On readable input outside genesis with such terms the two accept the same transactions |
| `TxFlows.FoldThenUnfold` | frontend/lib/tx-flows.ts:178-192 | Opening a fold gives the side back if and only if nothing was folded or every end stood in its place |
| `FlowEnds.FoldsExactlyWhen` | frontend/lib/tx-flows.ts:171-192 | A side is folded if and only if it is not expanded and names more than six parties |
| `TxFlows.SidesInPlace` | frontend/lib/tx-flows.ts:133-158 | Every side the flows have is in place: giving terminals, parties, receiving terminals |
| `TxFlows.FlowsUnfold` | frontend/lib/tx-flows.ts:173-192 | So opening the fold of any such side gives it back exactly |
| `TxFlows.FoldKeepsTotals` | frontend/lib/tx-flows.ts:178-192 | Folding keeps what a side comes to and how many parties it stands for |
| `TxFlows.FoldShowsLargest` | frontend/lib/tx-flows.ts:173-192 | On every side of every flow, terminals included, the five parties a fold names hold no less than any party folded away, and its count is theirs |
| `TxFlows.FoldMovesMisplaced` | frontend/lib/tx-flows.ts:178-192 | A side with a party before a giving terminal is not given back |
| `ExactInteger.FormatScaledInteger` | frontend/lib/exact-integer.ts:12-20 | Throws exactly on a negative value, a divisor not positive or negative decimals; else the text of the half-up rounding at that precision |
| `Decimals.DecimalTextReads` | frontend/lib/exact-integer.ts:19 | A decimal text is a whole part, a point and exactly the asked digits, and reads back as its number |
| `Decimals.UnsignedRoundTrip` | frontend/lib/exact-integer.ts:2-9 | A text the parser accepts is its number's own text |
| `ExactInteger.HalfUpUnique` | frontend/lib/exact-integer.ts:11-18 | There is one half-up rounding |
| `ExactInteger.FormatCompactInteger` | frontend/lib/exact-integer.ts:22-36 | The unit loop gives the compact text of every readable number and throws on any other |
| `ExactInteger.FormatCompactRatio` | frontend/lib/exact-integer.ts:63-80 | The unit loop gives the compact text of every ratio and throws on a negative numerator or a denominator not positive |
| `ExactInteger.CompactMantissa` | frontend/lib/exact-integer.ts:22-36 | Below a thousand the plain digits; else a mantissa from 1.00, and to 999.99 for K through P, before the letter |
| `ExactInteger.RatioMantissa` | frontend/lib/exact-integer.ts:63-80 | The same bounds for ratios, and at most 999.99 with no letter |
| `ExactInteger.CompactAbbreviates` | frontend/lib/exact-integer.ts:22-36 | From a thousand on the text is two decimals and a letter: K, M, B, T, P or E for 10 to the 3, 6, 9, 12, 15 or 18, the number in that unit rounded half up, from 1.00 and below 1000 but for E |
| `ExactInteger.RatioAbbreviates` | frontend/lib/exact-integer.ts:63-80 | The same for a ratio, or its two decimals rounded half up below a thousand |
| `ExactInteger.CompactAgree` | frontend/lib/exact-integer.ts:22-80 | The two print the same text for a whole number if and only if it is at least a thousand |
| `ExactInteger.Gcd` | frontend/lib/exact-integer.ts:95-98 | The loop ends with the greatest common divisor |
| `ExactInteger.GcdDivides` | frontend/lib/exact-integer.ts:95-98 | It divides both numbers |
| `ExactInteger.GcdCombines` | frontend/lib/exact-integer.ts:95-98 | It is a whole combination of them, so every common divisor divides it |
| `ExactInteger.CommonDenominator` | frontend/lib/exact-integer.ts:104-107 | The fold of the denominators |
| `ExactInteger.CommonIsMultiple` | frontend/lib/exact-integer.ts:104-107 | It is a multiple of every denominator |
| `ExactInteger.CommonIsLeast` | frontend/lib/exact-integer.ts:104-107 | It divides every other common multiple |
| `ExactInteger.ScalingLosesNothing` | frontend/lib/exact-integer.ts:108-113 | The scaled numbers are the ratios and their total times the common denominator, exactly |
| `ExactInteger.FormatExactShare` | frontend/lib/exact-integer.ts:94-116 | Throws exactly on an invalid ratio or a missing index; else the half-up rounding of the true share in percent, or a dash for no total |
| `ExactInteger.ShareIgnoresRepresentation` | frontend/lib/exact-integer.ts:93-116 | The text depends on the ratios' values, not on how they are written |
| `DobRender.ParseLeModulo` | frontend/lib/dob-render.ts:163-172 | Throws exactly on a modulus not positive; else the little-endian number of any number of bytes, modulo it |
| `DobRender.ParseLeNumber` | frontend/lib/dob-render.ts:174-182 | The little-endian number itself |
| `DobRender.LittleEndianFront` | frontend/lib/dob-render.ts:163-182 | That number read from the front |
| `DobRender.SixBytesAreExact` | frontend/lib/dob-render.ts:319-336 | Up to six bytes stay below 2 to the 48 |
| `DobRender.OptionIndex` | frontend/lib/dob-render.ts:293-299 | The index of an option is always within the options |
| `DobRender.RangeValue` | frontend/lib/dob-render.ts:301-313 | The value of a range always lies between its bounds |
| `DobRender.DecodeTraitValue` | frontend/lib/dob-render.ts:291-341 | The value of each pattern kind, including the arguments that give nothing and the bound that throws |
| `DobRender.NeverThrows` | frontend/lib/dob-render.ts:412-430 | After the loop's two checks no pattern throws |
| `DobRender.DecodeTraits` | frontend/lib/dob-render.ts:408-441 | The trait loop's two lists; with no pattern at all the one issue says so |
| `DobRender.OnePerPattern` | frontend/lib/dob-render.ts:408-441 | Each pattern has exactly one entry, a trait or an issue, at the place its predecessors leave it, and there are no others |
| `DobTraits.ListsJoin` | frontend/lib/dob-render.ts:408-437 | A longer pattern list's traits and issues are its parts', one after the other |
| `DobTraits.SurroundingsDoNotMatter` | frontend/lib/dob-render.ts:412-437 | A pattern's entry depends on the bytes from its offset, as many as its length, and on no others |
| `DobTraits.OutsideExactlyWhen` | frontend/lib/dob-render.ts:415-420 | The entry is missing for want of bytes if and only if the DNA cannot be split into as many bytes as the offset, as many as the positive length, and a rest |
| `DobTraits.UnsafeExactlyWhen` | frontend/lib/dob-render.ts:421-430 | With its bytes there, the entry is missing if and only if the pattern is a range without two bounds that are whole numbers below 2 to the 53 either way |
| `DobTraits.OptionReads` | frontend/lib/dob-render.ts:274-299 | An option shows the argument at the bytes' little-endian number modulo how many there are: text as it is, a number as printed, true or false, null as a dash; without arguments a dash |
| `DobTraits.RangeReads` | frontend/lib/dob-render.ts:301-313 | A range shows its smaller bound plus the bytes' number modulo how many numbers it holds, in decimal digits with a minus sign if negative |
| `DobTraits.NumberReads` | frontend/lib/dob-render.ts:319-338 | Up to six bytes of a raw number show its decimal digits |
| `DobTraits.HexReads` | frontend/lib/dob-render.ts:319-341 | Every other raw kind, and more than six bytes, show 0x and two digits a byte, in order |
| `DobTraits.ThrowsExactlyWhen` | frontend/lib/dob-render.ts:301-313 | A pattern throws if and only if it is a range with two numbers of which one is not whole |
| `DobTraits.Utf8Reads` | frontend/lib/dob-render.ts:315-317 | A text pattern shows what the host decodes, less the zeros at its end and no more |

## Left out

- The Newton iteration of the Kamada–Kawai layout: floating-point numerics with a step cap; its result is an arbitrary point for each member.
- The wide strip branch of `fiberGraphLayout`: it does not set up the bounds the collision removal relies on for very large parties, so containment is a claim about the narrow branch.
- That the collision removal of three or more parties ends within its 2000 passes: the source throws when it does not, and so does the model. It does for two (`FiberSeparate.TwoSettle`); `FiberLayout.CompactLayout` states when a picture is surely drawn.
- Overlaps inside an island of three or more parties: the source fits it to a box and does not separate it.
- Edges, labels, stroke widths and the islands note of the Fiber picture; the square root in a party's radius, which enters as a number with its defining bounds.
- React rendering, hook scheduling, query caches, canvas, CSS: user interface. The realtime model keeps mounts, unmounts and events. Logging is not modelled.
- The browser is modelled by the rules of the WHATWG WebSockets Standard: no open or message event after `close()`, close events later. A server is taken to send facts of its own network.
- `ribbonWeight` scales a share to a stroke width, `capacityEquation` compares two sums, `txMovements` and `txLinks` collect the rows and hover links of the transaction page, `participantsToShow` picks the rows of the home feed.
- `formatDecimal`, `exactDecimalRatio`, `formatExactDecimal` and `toLocaleString` grouping: text only.
- `cellOutputParts` as an exact cover: the source checks contiguity only.
- The names, colours, values and meanings of cell parts; a part is its id and its range.
- Normalising one DOB pattern element, choosing the pattern list, parsing metadata and DNA text: branching on JSON shapes. Case folding of a pattern's names happens before the model, UTF-8 decoding and printing of a number are parameters.
- api.ts, chart ticks, search routing, document and record labels, the Rust build scripts, the Python scripts and the fuzzing configuration.
- ScaleLayout.Layout: widths are reals, so rounding of floating-point sums is not captured.
- FiberSeparate.Separate: coordinates are reals, so floating-point rounding is not captured.
- FiberLayout.CompactLayout: coordinates are reals, and it speaks of canvases narrower than the strip's threshold only.
- FiberLayout.GraphModel: speaks of canvases narrower than the strip's threshold only.
- FiberSeparate.PushFrees: speaks of footprints that are across the canvas; `FiberSeparate.PushFreesExactlyWhen` speaks of any.
- Realtime.RealtimeManager.HandleMessage: does not model the query caches the handler also updates.
- NewestCells.CheckPages: an outpoint is the pair of hash and index, not its text; the reference names in error messages are dropped.
- ScriptCursor.RowTextOrder: speaks of the same rows as `ScriptCursor.CursorOrder`.
- CursorFields.CursorSpells: speaks of the same rows as `ScriptCursor.CursorOrder`, and of a lower-case 32-byte reference.
- ScriptCursor.CursorOrder: speaks of rows as the chain has them (lower-case 32-byte hash, block below 2 to the 53, index below 2 to the 16) on a little-endian host.
- Text order compares characters; the source compares UTF-16 code units, which is the same for the hashes compared here.
- DobRender.ParseLeNumber: does not model the loss of precision of JavaScript numbers beyond 2 to the 53; every caller passes at most six bytes.
- TxFlows.TxFlows: a participant is its place in the list and an item's change is its decimal text; error messages and the transaction hash in them are dropped.
