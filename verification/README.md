# Verification of the chart core

This project models, in Dafny, the bounded, incremental and windowed algorithms of a trading
terminal's chart, and a few of the state machines around it, and proves that each agrees with the
simpler whole-data form it stands for. `dafny verify dfyconfig.toml` checks everything.

What is modelled, by source file:

- `tick_volume.rs`: a GPU tick ring with a pending reset and append, a binary search over times that
  are only almost sorted, and the reduction of a dense bake to the crosses and bars that can still be
  seen. The reduction's two sort paths, its in-place partition and its greedy back-to-front cull are
  methods over arrays; what they keep is specified by declarative predicates on the keyed rows
  (`CrossKept`, `Greedy`) and then on the ticks themselves (`LodImage`, `LodReduceVolume`), where the
  pictures before and after are compared.
- `combo.rs`: the object that owns such a ring, its pending uploads and the lateness evidence; what it
  publishes is followed over whole runs (`TickFeed.ComboLayer`).
- `clusters.rs`: folding a tape into prints through a map, and a merge stack that turns prints into
  discs, where one merge can cascade backwards; `TapePrints` and `TapeDiscs` read both from the trades.
- `trade_marks.rs`: a seed-anchored clustering sweep run over everything or only around a window, and
  a hit test run over every mark or only over those near the cursor; `TradeMarkers` follows closed
  trades to the markers drawn for them.
- `view.rs`: the chart view as a state machine on two axes. `ViewX` and `ViewY` give each gesture as
  a function and prove what holds over runs; `ChartViews.ChartView` is the mutable object, each of whose
  methods is proved to perform exactly its function and to keep `Valid()`: positive scale, zoom and
  ranges, Pause apart from following, and a right edge no further ahead than it was ever entitled to
  stand. A method's `modifies` clause names the fields it may change, so a time gesture leaves the price
  axis alone and the other way round. `ViewPlot` and `ViewFit` restate the two axes in plot positions
  and plain arithmetic, without the model's own helpers.
- `open_candle_path.rs`, `hvol.rs`, `volume_bars.rs`: interval subtraction with priority, rolling sums
  by two pointers, and sorted lookups against order-free references.
- `backups.rs`, `applog.rs`, `live_clock.rs`, `alert_blob.rs`: a readiness coordinator with topology
  generations, a log ring with reader cursors, a median over a circular buffer, and a binary codec.

Conventions: 32- and 64-bit floats are exact reals, with a `Float` datatype for NaN and the infinities
where the source tests for them; texel keys and times that the source holds as integers are integers.
Out-parameters that the source reuses as buffers are returned as sequences, except where the buffer's
update in place is the algorithm.

Results worth knowing before reading the table:

- A cursor-anchored zoom that does not rejoin live keeps the time under the cursor exactly when the edge
  that keeps it may stand, and the scale is not below the division guard or the cursor is at the left
  edge (`ViewX.ZoomKeepsCursorTime`). `ViewX.ZoomCutIff` says from the state before the zoom when the
  edge may stand and `ViewX.ZoomRejoinsIff` when it rejoins. On a plot between 1 and 31.5 px wide the
  guard can make it slip (`ViewX.NarrowPlotSlips`); on wider ones it cannot.
- The comment that a zoom-in step must never widen the window holds exactly for windows of at least
  three seconds (`ViewX.ZoomInNeverWidensIff`); a scale sync can set a narrower one, and any zoom step
  then takes it back to at least three seconds (`ViewX.ZoomInCanWiden`).
- The history price fit clips nothing, for any view and any positive prices, exactly when the
  right-button zoom has not eaten its 20% padding (`ViewY.NeverClipsIff`); `ViewY.HistoryShowsIff` says of
  every single frame whether it clips. At the default zoom it never does.
- A stale backup claim publishes again after exactly 2^64 topology changes, and never before
  (`Backups.ClaimedRunsIffUnchanged`, `Backups.WrappedClaimRuns`).
- A log reader misses new lines once the 64-bit counter has saturated, and not before
  (`AppLog.NextLineArrives`).
- The blob round trip is exact for, and only for, thicknesses in the drawable range, and so is its
  inverse from blob to blob (`AlertBlob.RoundTripIff`, `AlertBlob.ReencodeReproducesIff`).
- Center chart keeps the right-button multiplier, not always the window: the next frame keeps the window
  the drag drew exactly when it survives that frame's fit (`ViewY.CenterWindowIff`). Short of the floors
  this depends only on how far the window was from its fit at the press (`ViewY.CenterKeepsIff`), so a
  window the market has outgrown is refitted (`ViewY.CenterRefitsOutgrown`) and one pressed at its fit is
  kept (`ViewY.CenterKeepsDraggedWindow`).
- Placing mini-candles in batches equals placing them at once except where a seam is narrower than the
  narrowest bar; `PathMinis.BatchesAgreeIff` gives that condition for cross edges that move between the
  batches.
- Minute rows win over five-minute rows at every instant for any rows at all, sorted or overlapping or
  not; only disjointness needs rows that do not overlap (`CandlePath.PrefixAt`, `PrefixDisjoint`).

## Model

| member | source | states |
|---|---|---|
| TickTime.TickTimeOrder.Extend | crates/moon-chart/src/tick_volume.rs:206-232 | the evidence held is exactly the greatest lateness between any two rows of everything ever taken in, or infinity once a time was not finite |
| TickTime.EvidenceCoversTail | crates/moon-chart/src/tick_volume.rs:203-232 | evidence gathered over the whole stream bounds the lateness inside whatever tail a ring retains |
| TickTime.TickTimeRange | crates/moon-chart/src/tick_volume.rs:246-275 | the two binary-search loops land where the probe outcomes say, and bad bounds or evidence select every row |
| TickTime.RangeOrdered | crates/moon-chart/src/tick_volume.rs:241-275 | start never exceeds end, for any times whatever, although neither predicate is monotone |
| TickTime.RangeMissesNothing | crates/moon-chart/src/tick_volume.rs:238-275 | every row whose time lies in the window is inside the returned range |
| TickTime.RangeStaysClose | crates/moon-chart/src/tick_volume.rs:246-275 | every candidate is within twice the lateness of the window |
| TickTime.Partition | crates/moon-chart/src/tick_volume.rs:246-275 | the binary-search loop lands where the probe outcomes say, having read logarithmically many rows |
| TickRing.PendingRingIsTail | crates/moon-chart/src/tick_volume.rs:118-176 | the wrapped, reset-aware indexing reads exactly the newest capacity rows of old contents plus appends |
| TickRing.CrossRing.Reset | crates/moon-ui-gpui/src/chartdx/types.rs:551-564 | after a reset the ring holds the newest capacity rows given |
| TickRing.CrossRing.Append | crates/moon-ui-gpui/src/chartdx/types.rs:568-591 | after an append the ring holds the newest capacity rows of before and given |
| TickRing.CrossRing.Upload | crates/moon-chart/src/tick_volume.rs:118-176 | performing the pending reset and append leaves the ring holding exactly what the pending view read beforehand |
| TickRing.SnapshotCrosses | crates/moon-chart/src/tick_volume.rs:181-201 | the copy is the candidate range of the next-upload ring |
| TickRing.SnapshotKeepsWindow | crates/moon-chart/src/tick_volume.rs:181-201 | restricted to the window, the snapshot is the retained rows restricted to the window, in order, with evidence from the whole stream |
| TickRing.SlotRunsCoverRange | crates/moon-chart/src/tick_volume.rs:279-301 | the one or two slot runs are disjoint and hold exactly the range's slots |
| TickFeed.ComboLayer.Reset | crates/moon-ui-gpui/src/chartdx/combo.rs:257-266 | a replaced history starts a new stream with the rows a ring can hold, and evidence of its own |
| TickFeed.ComboLayer.SetCapacity | crates/moon-ui-gpui/src/chartdx/combo.rs:202-254 | a new tick or price-line capacity retires the resident and queued rows but keeps a pending replacement, with the evidence rebuilt to match; the capacities in force change nothing |
| TickFeed.SizesTaken | crates/moon-ui-gpui/src/chartdx/combo.rs:202-211 | a size in range is taken as asked, any other goes to the nearer end |
| TickFeed.ComboLayer.Append | crates/moon-ui-gpui/src/chartdx/combo.rs:273-284 | queued rows join the stream; dropping an overlong queue's oldest never changes what is published |
| TickFeed.ComboLayer.ApplyUploads | crates/moon-ui-gpui/src/chartdx/combo.rs:920-990 | after any run of resets, resizes, appends and uploads the resident ring holds exactly the newest capacity rows of the stream |
| TickFeed.ComboLayer.TickSnapshot | crates/moon-ui-gpui/src/chartdx/combo.rs:1059-1072 | at any moment of such a run a snapshot holds every row of the pending tail inside the window, in order, by the evidence kept beside it |
| CountingSort.CountingSortBy | crates/moon-chart/src/tick_volume.rs:507-534 | histogram, prefix sums and scatter produce the buckets one after another, each in input order |
| CountingSort.StableSortRefines | crates/moon-chart/src/tick_volume.rs:503-534 | a stable pass over rows in some order yields key order refined by that order |
| LodRows.KeyRows | crates/moon-chart/src/tick_volume.rs:427-467 | the drawn rows keyed in draw order, with a span that covers every finite key |
| LodRows.SortEnumerates | crates/moon-chart/src/tick_volume.rs:537-555 | the comparison-sort fallback enumerates the same rows in the same strict order |
| LodOrder.RadixEnumerates | crates/moon-chart/src/tick_volume.rs:653-669 | two stable passes over draw order are the texel order, so both sort paths agree |
| LodOrder.TierAOrder | crates/moon-chart/src/tick_volume.rs:653-669 | whichever path runs, rows come out by column, row and draw index, each once |
| LodOrder.LastPerTexel | crates/moon-chart/src/tick_volume.rs:670-680 | the walk over texel order keeps exactly the last-drawn row of each texel |
| LodOrder.PartitionKeptBySide | crates/moon-chart/src/tick_volume.rs:585-613 | the in-place partition regroups every column by side class and permutes nothing else |
| LodOrder.TierBOrder | crates/moon-chart/src/tick_volume.rs:682-688 | both paths to the side-class order hold the same rows in the same strict order |
| LodSampling.SampleColumns | crates/moon-chart/src/tick_volume.rs:689-722 | the flags are exactly the declarative rule: whole small columns, every stride-th and last row of each class of a crowded one |
| LodReduceCross.ReduceCrosses | crates/moon-chart/src/tick_volume.rs:618-724 | the output slots are those of the kept ticks in draw order, whichever sorts ran; a tick is kept by its own rounded position, its kind and the ticks drawn after it (`LodImage.Keeps`) |
| LodImage.KeptRowsAreTicks | crates/moon-chart/src/tick_volume.rs:442-464 | choosing among the keyed rows is choosing among the ticks at their own rounded time and price positions |
| LodImage.ImageShowsLatest | crates/moon-chart/src/tick_volume.rs:653-680 | painting ticks in draw order shows at each pixel the latest tick whose mark covers it |
| LodImage.OnTopKeepsImage | crates/moon-chart/src/tick_volume.rs:653-680 | painting only the ticks no later one repaints gives the same picture as painting every tick, for any opaque mark |
| LodImage.KeptTicksKeepImage | crates/moon-chart/src/tick_volume.rs:618-724 | so does painting the ticks the reduction keeps, while no pixel column has more than 32 ticks on top |
| LodImage.CulledIsOffBitmap | crates/moon-ui-gpui/src/chartdx/shaders/crosses.hlsl:69-90 | a culled tick would have covered no pixel of the bitmap, for marks no larger than the culling margin |
| LodImage.CrowdedKindBudget | crates/moon-chart/src/tick_volume.rs:682-722 | a crowded pixel column keeps at most 33 ticks each of its buys, sells and liquidations |
| LodImage.EndsOfKindKept | crates/moon-chart/src/tick_volume.rs:682-722 | every kind keeps its lowest and its highest pixel row |
| LodVolume.CoverReached | crates/moon-chart/src/tick_volume.rs:570-580 | the early-exit sum answers whether enough kept bars are at least as tall |
| LodVolume.VolumeOrder | crates/moon-chart/src/tick_volume.rs:768-778 | bars by column in draw order whichever path ran |
| LodVolume.CullColumn | crates/moon-chart/src/tick_volume.rs:790-810 | the backward walk with its height histogram keeps exactly the greedy set of its column and touches no other |
| LodReduceVolume.ReduceVolume | crates/moon-chart/src/tick_volume.rs:732-814 | the output slots are those of the kept bars in draw order, the greedy choice among the ticks whose bars touch the band |
| LodReduceVolume.KeptBarsGreedy | crates/moon-chart/src/tick_volume.rs:757-810 | in ticks: of the trades with a positive quantity on the band, exactly those are kept that are the tallest of their pixel column and side or have fewer than v kept later bars at least as tall over them |
| LodReduceVolume.GreedyBarsAgree | crates/moon-chart/src/tick_volume.rs:757-810 | and there is only one such choice |
| LodReduceVolume.BarBudget | crates/moon-chart/src/tick_volume.rs:726-810 | a pixel column keeps at most 73 bars for each that may cover one, and two more |
| LodVolume.KeptIsGreedy | crates/moon-chart/src/tick_volume.rs:757-810 | the kept set satisfies its own rule: tallest of a side, or covered by fewer than v later kept bars |
| LodVolume.DroppedIsCovered | crates/moon-chart/src/tick_volume.rs:726-810 | every dropped bar has at least v later kept bars of its column at least as tall |
| LodVolume.TallestSurvives | crates/moon-chart/src/tick_volume.rs:757-810 | the tallest bar of each column and side is kept |
| LodVolume.ColumnBudget | crates/moon-chart/src/tick_volume.rs:726-810 | a column keeps at most v * (LOD_BAR_MAX_PX + 1) + 2 bars |
| LodVolume.PicksAscend | crates/moon-chart/src/tick_volume.rs:779-814 | output is ascending, without duplicates, and exactly the kept set |
| Prints.AggregatePrints | crates/moon-chart/src/clusters.rs:111-149 | the hash-map fold equals the map-free rule: join the latest print of the same key and side if within the window, else open one |
| Prints.NotionalConserved | crates/moon-chart/src/clusters.rs:111-149 | bought and sold notional are each conserved |
| Prints.PrintsSingleSided | crates/moon-chart/src/clusters.rs:111-149 | no print mixes sides |
| Prints.PrintsSpaced | crates/moon-chart/src/clusters.rs:111-149 | on an ordered tape prints of one key and side are more than the window apart |
| Prints.FillsUsable | crates/moon-chart/src/clusters.rs:119-126 | every accepted fill is finite with positive notional |
| TapePrints.FillsAreTrades | crates/moon-chart/src/clusters.rs:91-130 | the fills are the tape's finite trades of positive price and quantity, in order, each with its nearest whole number of ticks or its price bits, its price times quantity, and its side |
| TapePrints.PrintsAreGroups | crates/moon-chart/src/clusters.rs:111-149 | prints are groups of fills of one price and side: the first gives time and price, every other came within the window of it, and their notionals add up |
| Discs.PriceTimeOrderSorts | crates/moon-chart/src/clusters.rs:153-163 | the order holds every print once, by price and then time |
| PackedKeys.PackedKeyOrders | crates/moon-chart/src/clusters.rs:153-163 | comparing the packed 128-bit keys is comparing price, then total time order |
| PackedKeys.TotalRankIsOrder | crates/moon-chart/src/clusters.rs:153-163 | the total order of two finite doubles is the order of the numbers they stand for, a negative zero before the positive one |
| PackedKeys.PackedKeyIsBefore | crates/moon-chart/src/clusters.rs:151-163 | a stable comparison of packed keys is the order by price, time and tape position, but for times that are zeros of different signs |
| Discs.MergeOverlapping | crates/moon-chart/src/clusters.rs:299-355 | the push-and-pop stack computes the recursive settle-then-push merge |
| Discs.DiscsAreGroups | crates/moon-chart/src/clusters.rs:299-355 | discs are contiguous groups of the ordered prints, none lost, each with its group's sums and its volume-weighted mean time |
| Discs.DiscsConserveVolume | crates/moon-chart/src/clusters.rs:299-355 | buy and sell volume are each conserved, for any prints in any order |
| Discs.MergedDiscsOrdered | crates/moon-chart/src/clusters.rs:299-355 | discs stay ordered by price and time |
| Discs.NoTwoDiscsCover | crates/moon-chart/src/clusters.rs:292-355 | no two discs of one price, adjacent or not, cover each other, for any non-negative size and positive scale |
| Discs.MergeIsSettled | crates/moon-chart/src/clusters.rs:299-355 | for any prints, merging the resulting discs again changes nothing but that each disc's first time restarts at its own |
| TapeDiscs.UntouchedStayApart | crates/moon-chart/src/clusters.rs:299-355 | prints of one price at least the sum of their radii apart, in an order, are each drawn by themselves |
| TapeDiscs.DiscsDoNotOverlap | crates/moon-chart/src/clusters.rs:292-355 | any two discs of one price are at least the sum of their radii apart |
| TapeDiscs.TapeDiscsApart | crates/moon-chart/src/clusters.rs:111-355 | from any tape, through prints and their order, the discs come out by price and time and no two of one price cover each other |
| TapeDiscs.TapeDiscsConserve | crates/moon-chart/src/clusters.rs:111-355 | every notional accepted from any tape is in its discs, on its own side |
| TapeDiscs.TradesConserved | crates/moon-chart/src/clusters.rs:111-355 | in raw trades: price times quantity of the usable buys is the buy volume of the discs, and so for sells |
| PrintSizes.SelectionSplitsSort | crates/moon-chart/src/clusters.rs:186-221 | a rank selection splits the full sort at its rank |
| PrintSizes.MeasureScale | crates/moon-chart/src/clusters.rs:186-221 | the two nested selections give the same scale as sorting all totals |
| PrintSizes.ScaleIs | crates/moon-chart/src/clusters.rs:186-221 | that scale holds the volumes at the ranks nearest the asked percentile and the 99th, the larger never under the smaller |
| PrintSizes.TotalsAre | crates/moon-chart/src/clusters.rs:186-195 | among the volumes of the prints that have any |
| TradeClusters.ExplodeActions | crates/moon-chart/src/trade_marks.rs:345-370 | each trade's shown entry and exit in order, on the sides its direction implies |
| TradeClusters.PartSorted | crates/moon-chart/src/trade_marks.rs:419-433 | a partition holds exactly its kind's actions in ascending time, price and mark |
| TradeClusters.PartKeepsKind | crates/moon-chart/src/trade_marks.rs:419-433 | with the multiplicity they came with |
| TradeClusters.FoldCluster | crates/moon-chart/src/trade_marks.rs:550-579 | the accumulator loop folds a group into its weighted centre, falling back to plain means without weight |
| TradeClusters.CentreInHull | crates/moon-chart/src/trade_marks.rs:529-579 | an aggregate position never leaves its members' hull |
| TradeClusters.ClusterSorted | crates/moon-chart/src/trade_marks.rs:453-514 | the sweep over the four partitions' spans |
| TradeClusters.SweepTiles | crates/moon-chart/src/trade_marks.rs:490-511 | groups lie end to end, so each swept action is in exactly one |
| TradeClusters.GroupsAnchored | crates/moon-chart/src/trade_marks.rs:490-511 | members are within reach of their seed and the next action is not |
| TradeClusters.GroupsInPixels | crates/moon-chart/src/trade_marks.rs:453-511 | at a usable scale members are within eight device pixels of their seed in time and in price, any two within sixteen, and the next action is further off on one axis; without a scale every action is alone |
| TradeClusters.WindowCuts | crates/moon-chart/src/trade_marks.rs:435-514 | the windowed sweep starts at a group boundary of the full sweep and follows it until a cut after the window |
| TradeClusters.WindowKeepsGroup | crates/moon-chart/src/trade_marks.rs:435-514 | every full-sweep group with a member in the window is swept identically |
| TradeClusters.WindowAddsNothing | crates/moon-chart/src/trade_marks.rs:435-514 | any other group swept is the last one, cut short, and seeded after the window |
| TradeClusters.WindowedClustersExact | crates/moon-chart/src/trade_marks.rs:435-514 | the same for the drawn markers themselves |
| TradeMarkers.ExplodedOnce | crates/moon-chart/src/trade_marks.rs:345-370 | the actions are the shown entries and exits of the trades, each once, longs entering by buying and shorts by selling |
| TradeMarkers.MarkerStandsFor | crates/moon-chart/src/trade_marks.rs:345-579 | every marker stands for trade ends of its own side and direction, that close together and in order, at their centre of quantity; one with an end in a window is drawn around that window unchanged |
| TradeMarkers.EveryEndDrawn | crates/moon-chart/src/trade_marks.rs:345-514 | every shown end of every trade is drawn in a marker of its side and direction |
| TradeMarkers.NoEndDrawnTwice | crates/moon-chart/src/trade_marks.rs:345-514 | and the markers have as many members as there are shown ends |
| TradeHits.HitIndexed | crates/moon-chart/src/trade_marks.rs:987-1035 | the scan's answer does not depend on visit order, only on visiting every touched mark |
| TradeHits.HitUnique | crates/moon-chart/src/trade_marks.rs:853-897 | the nearest mark and the stack are determined by the marks |
| TradeHits.TouchesIff | crates/moon-chart/src/trade_marks.rs:987-1022 | an arrow is hit over its nine by twelve pixel body from the apex away from the price, and four pixels around it, and nowhere else |
| TradeHits.DistIs | crates/moon-chart/src/trade_marks.rs:1022-1033 | arrows rank by the cursor's distance from the middle of the body |
| TradeHits.ClusterTouchedIff | crates/moon-chart/src/trade_marks.rs:953-981 | a cluster is hit where its arrow is drawn, its apex at its time and price |
| TradeHits.HitTradeMarks | crates/moon-chart/src/trade_marks.rs:881-888 | the full scan gives that answer |
| TradeHits.ReachBoundsGlyph | crates/moon-chart/src/trade_marks.rs:892-897 | no mark can touch the cursor from beyond the computed reach |
| TradeHits.OrderByTimeSorts | crates/moon-chart/src/trade_marks.rs:926-935 | the index holds every cluster once, ascending in time |
| TradeHits.HitWindowed | crates/moon-chart/src/trade_marks.rs:953-981 | the windowed test gives the full scan's answer for any non-decreasing time mapping |
| ViewX.PausedStep | crates/moon-chart/src/view.rs:795-839 | a paused view leaves Pause exactly on Resume, Center chart or restarting a stopped clock |
| ViewX.PauseConsistentOverRuns | crates/moon-chart/src/view.rs:795-808 | over every run explicit Pause and following exclude each other |
| ViewX.PauseHolds | crates/moon-chart/src/view.rs:795-839 | after a Pause no sequence of other gestures restores follow |
| ViewX.PauseNeverIdlesOut | crates/moon-chart/src/view.rs:164-184 | nor does the idle timer ever come due |
| ViewX.ZoomWindowBounded | crates/moon-chart/src/view.rs:1164-1179 | whatever the factor, a zoom settles between three seconds and a year, and not under its gesture's floor unless the window already was |
| ViewX.ZoomInNeverWidensIff | crates/moon-chart/src/view.rs:1170-1179 | at every scale, a zoom-in step on a real plot never widens the window exactly while that is at least three seconds wide; a plot under one pixel has one scale |
| ViewX.ZoomInCanWiden | crates/moon-chart/src/view.rs:1170-1179 | a synced one-second window that zooming in widens |
| ViewX.FrozenStandsStill | crates/moon-chart/src/view.rs:660-689 | over every run without a drag, cursor zoom or restart, a chart stopped at the live edge keeps its anchor, its follow and its stopped clock |
| ViewX.FrameShows | crates/moon-chart/src/view.rs:850-891 | a framed interval starts one padding inside the plot at every real width, whatever the margin |
| ViewX.FrameContainsIff | crates/moon-chart/src/view.rs:850-891 | the interval is whole on the plot exactly when it and one padding fit the window chosen |
| ViewX.FrameContains | crates/moon-chart/src/view.rs:850-891 | which they do for every interval that fits the widest window with its padding |
| ViewX.ResizeKeepsFrame | crates/moon-chart/src/view.rs:928-955 | applying a retained frame at another width shows the same first and last instant |
| ViewX.PanIntoHistory | crates/moon-chart/src/view.rs:1093-1113 | a drag into history moves the picture with the pointer pixel for pixel and lets go of live |
| ViewX.PanTowardLive | crates/moon-chart/src/view.rs:1093-1113 | a drag toward live rejoins exactly when the dragged view is near live; otherwise it moves the picture with the pointer exactly unless cut at the live edge |
| ViewX.SyncSettles | crates/moon-chart/src/view.rs:604-629 | repeating a scale sync changes nothing but the interaction stamp |
| ViewX.RightEdgeBounded | crates/moon-chart/src/view.rs:860-1208 | over every run the right edge never exceeds the largest of its start, the latest live edge seen and the edges of the frames shown |
| ViewX.QuantizeIsClose | crates/moon-chart/src/view.rs:788-792 | the snapped edge is within half a pixel |
| ViewX.ClampKeepsLiveEdgeVisible | crates/moon-chart/src/view.rs:743-774 | after the clamp the live edge of a view that does not follow is not left of the plot |
| ViewX.ZoomCutIff | crates/moon-chart/src/view.rs:1192-1208 | the edge a cursor-anchored zoom settles on is never past the anchor, and is the anchor exactly when that is no further ahead than the view was or live is and within the future ceiling |
| ViewX.ZoomRejoinsIff | crates/moon-chart/src/view.rs:1181-1208 | a zoom follows afterwards exactly when it was pinned to live or its settled view is near live, and says where the edge then stands |
| ViewX.ZoomKeepsCursorTime | crates/moon-chart/src/view.rs:1147-1208 | one that does not rejoin keeps the time under the cursor exactly when the anchor may stand and the scale is at least the division guard or the cursor is at the left edge |
| ViewX.RejoinMovesCursorTime | crates/moon-chart/src/view.rs:1147-1208 | one that rejoins moves it by exactly as far as the live edge stands from the anchor, less the guard's slip |
| ViewX.WidePlotKeepsCursorTime | crates/moon-chart/src/view.rs:1147-1208 | on any plot of at least 31.536 px it is kept exactly when the anchor may stand |
| ViewX.NarrowPlotSlips | crates/moon-chart/src/view.rs:1147-1208 | a one-pixel plot on which the anchor may stand and the time still moves |
| ViewX.EnsureDefaultRescalesOnly | crates/moon-chart/src/view.rs:558-604 | preparing a frame rescales only a real plot that is initializing or whose width changed in default mode, to the saved scale or the clean one |
| ViewX.EnsureDefaultSettles | crates/moon-chart/src/view.rs:558-604 | further frames of one width keep the scale, whatever the refresh rate or the saved scale |
| ViewX.StepKeepsTimeValid | crates/moon-chart/src/view.rs:464-1208 | every time gesture keeps the scale positive, a frame request well formed, and Pause apart from following |
| ViewPlot.ResumeStands | crates/moon-chart/src/view.rs:795-802 | returning to live stands at the clock plus its offset, follows, and ends Pause and frame |
| ViewPlot.RejoinsWithin | crates/moon-chart/src/view.rs:814-839 | a view is pulled back exactly when it neither follows nor is paused and stands within a twentieth of the plot, or 40 px, of live |
| ViewPlot.IdleReturnIff | crates/moon-chart/src/view.rs:164-184 | a view returns to live by itself exactly three minutes after its last gesture, unless following or paused |
| ViewPlot.ReturnToLiveIff | crates/moon-chart/src/view.rs:164-184 | with no charts open live returns at once, otherwise only after three idle minutes without a Pause |
| ViewPlot.WholePixels | crates/moon-chart/src/view.rs:788-792 | a snapped edge is a whole number of pixels from the epoch and at most half a pixel off |
| ViewPlot.StopsStand | crates/moon-chart/src/view.rs:675-781 | parking, stopping the clock and following stand within half a pixel of their edge, and leave a view that was not following where it is |
| ViewPlot.SyncTakes | crates/moon-chart/src/view.rs:609-629 | a synced scale differing by more than a millionth is taken over; a live view stays at the live edge, any other where it stands |
| ViewPlot.ClampIff | crates/moon-chart/src/view.rs:743-774 | on a window of at most a year the clamp leaves a view alone exactly when the live edge is on the plot or right of it, else puts the live edge at the plot's left edge |
| ViewPlot.ClampCapped | crates/moon-chart/src/view.rs:743-774 | on a wider one it holds the right edge a year's window, less the margin, ahead of live |
| ViewPlot.ZoomScales | crates/moon-chart/src/view.rs:1164-1179 | a zoom divides the window by its factor, held back only by a year above and the gesture's floor below |
| ViewPlot.MayStandIff | crates/moon-chart/src/view.rs:1192-1208 | the edges a zoom may stand at, from the view before it |
| ViewPlot.PointerOnPlot | crates/moon-chart/src/view.rs:1161-1163 | a zoom holds on to the pointer's own place on the plot, or the nearer end |
| ViewPlot.FrameFits | crates/moon-chart/src/view.rs:850-891 | a framed interval of three seconds or more has its ends exactly the padding from the plot's ends |
| ViewY.HistoryShowsIff | crates/moon-chart/src/view.rs:1268-1415 | a history update shows both visible extremes exactly when the band hysteresis retains already covers them or the zoomed fit is at least as wide as they are apart |
| ViewY.HistoryFitContains | crates/moon-chart/src/view.rs:1268-1415 | after a history update both visible extremes are on screen, whatever hysteresis retained, for every zoom of at least 1/1.2 |
| ViewY.NeverClipsIff | crates/moon-chart/src/view.rs:1268-1415 | a zoom promises that for every sound view and every window of positive prices exactly when it is at least 1/1.2 |
| ViewY.HistoryFitStable | crates/moon-chart/src/view.rs:1268-1429 | a second update with the same window moves neither rendered centre nor range |
| ViewY.HeldViewStays | crates/moon-chart/src/view.rs:1268-1429 | over any number of frames a view the user holds keeps its band, zoom and scale reference |
| ViewY.GesturesHold | crates/moon-chart/src/view.rs:1019-1257 | price drags, right-button zooms and window locks leave such a held view |
| ViewY.DragFactorises | crates/moon-chart/src/view.rs:1224-1257 | the drawn window is the press-time own window times the stored multiplier, floored or not |
| ViewY.CenterWindowIff | crates/moon-chart/src/view.rs:985-1001 | the first frame after Center chart puts the target in the middle and keeps the window last drawn, whatever it was, exactly when it survives the next fit; otherwise it draws that fit |
| ViewY.CenterKeepsIff | crates/moon-chart/src/view.rs:985-1001 | seen from the press, with no floor in play, that depends on the share of the fit in the window pressed and not on the drag: 1 for a percentage, its eased value within the hysteresis for live Auto, within it and clipping nothing for historical Auto |
| ViewY.CenterKeepsDraggedWindow | crates/moon-chart/src/view.rs:985-1001 | a window pressed at the picked scale's very fit is always kept, up to the new centre's floor |
| ViewY.CenterRefitsOutgrown | crates/moon-chart/src/view.rs:985-1001 | a live Auto view that held 12 while the market came to need 24 is drawn at 24 after a drag that went nowhere |
| ViewY.PercentIsReported | crates/moon-chart/src/view.rs:1054-1090 | after a percentage is picked the badge reports that percentage, unless the window had to be floored |
| ViewY.LiveRangeCovers | crates/moon-chart/src/view.rs:1268-1429 | a live automatic frame leaves the smooth window no narrower than the fit and the drawn one short of it by at most the hysteresis |
| ViewY.AutoShowsWindow | crates/moon-chart/src/view.rs:971-975 | picking Auto shows both extremes on the next history frame, whatever zoom or drag came before |
| ViewY.UpdateKeepsValid | crates/moon-chart/src/view.rs:1268-1429 | every frame keeps the multiplier, both ranges and the pixel scale positive |
| ViewFit.LiveFitCovers | crates/moon-chart/src/view.rs:1301-1346 | a live automatic frame makes room for both extremes about the last price, a fifth wider; from a zoom of 1.15 / 1.2 on both are on screen |
| ViewFit.LiveFirstFit | crates/moon-chart/src/view.rs:1301-1390 | and a first live frame draws exactly that room |
| ViewFit.LiveCentreEases | crates/moon-chart/src/view.rs:1348-1372 | a live centre stays until the price drifts a tenth of the window from it, then closes in by a tenth a sixtieth of a second |
| ViewFit.LiveRangeEases | crates/moon-chart/src/view.rs:1333-1346 | a live window opens at once and eases shut by 0.15 a sixtieth of a second |
| ViewFit.HistoryDraws | crates/moon-chart/src/view.rs:1268-1415 | a historical automatic frame keeps window and centre within 15% and eight pixels of the fit, and draws the fit, a fifth over the span, when what is kept would clip |
| ViewFit.PercentDraws | crates/moon-chart/src/view.rs:1319-1332 | a fixed percent draws that part of its reference price times the zoom |
| ViewFit.WindowSpansPlot | crates/moon-chart/src/view.rs:1416-1429 | pixels per price times window is the plot height, and the scale reference follows the drawn centre unless the user holds it |
| ViewFit.PanFollowsPointer | crates/moon-chart/src/view.rs:1120-1126 | a vertical drag moves the window with the pointer and holds it |
| ViewFit.DragDraws | crates/moon-chart/src/view.rs:1224-1257 | a right-button drag draws the window pressed times its factor, at most fourfold either way, above the floor |
| ViewFit.LockShows | crates/moon-chart/src/view.rs:1019-1042 | locking a window shows exactly it, no smaller than the floor, and freezes the fit |
| ViewFit.LockedAlready | crates/moon-chart/src/view.rs:1019-1042 | a window counts as locked exactly within a floor of its centre and size |
| ViewFit.DegenerateRepaired | crates/moon-chart/src/view.rs:1374-1386 | a window below the smallest becomes a tenth of the price |
| ChartViews.ChartView.constructor | crates/moon-chart/src/view.rs:464-497 | a new view follows, is not paused, and fits automatically |
| ChartViews.ChartView.ResumeLive | crates/moon-chart/src/view.rs:795-802 | performs ViewX.Resume |
| ChartViews.ChartView.SetManualPersistent | crates/moon-chart/src/view.rs:805-808 | performs ViewX.Persist |
| ChartViews.ChartView.SetPxPerMsSync | crates/moon-chart/src/view.rs:609-629 | performs ViewX.Sync, and reports a change exactly with a new clamped scale and a dropped frame |
| ChartViews.ChartView.SetClockFrozen | crates/moon-chart/src/view.rs:675-689 | performs ViewX.SetFrozen |
| ChartViews.ChartView.ParkAtLiveEdge | crates/moon-chart/src/view.rs:701-706 | performs ViewX.Park |
| ChartViews.ChartView.FollowEdgeTo | crates/moon-chart/src/view.rs:777-781 | performs ViewX.FollowEdge |
| ChartViews.ChartView.ClampFutureAnchor | crates/moon-chart/src/view.rs:757-774 | performs ViewX.ClampFuture and says whether the anchor moved |
| ChartViews.ChartView.SnapToLiveIfNear | crates/moon-chart/src/view.rs:824-839 | performs ViewX.SnapIfNear and says whether it rejoined |
| ChartViews.ChartView.PanXPx | crates/moon-chart/src/view.rs:1103-1113 | performs ViewX.PanX |
| ChartViews.ChartView.ZoomXAt | crates/moon-chart/src/view.rs:1147-1208 | performs ViewX.ZoomX |
| ChartViews.ChartView.ShowTimeRange | crates/moon-chart/src/view.rs:860-891 | performs ViewX.ShowRange |
| ChartViews.ChartView.RequestTimeRange | crates/moon-chart/src/view.rs:909-926 | performs ViewX.RequestRange and says whether the interval was valid |
| ChartViews.ChartView.ApplyFrameRequest | crates/moon-chart/src/view.rs:941-955 | performs ViewX.ApplyFrame |
| ChartViews.ChartView.EnsureDefaultWindow | crates/moon-chart/src/view.rs:558-604 | performs ViewX.EnsureDefault |
| ChartViews.ChartView.CenterOnPrice | crates/moon-chart/src/view.rs:997-1001 | performs ViewX.Resume on time and ViewY.Center on price |
| ChartViews.ChartView.SetScalePercent | crates/moon-chart/src/view.rs:1080-1090 | performs ViewY.SetPercent |
| ChartViews.ChartView.SetYWindow | crates/moon-chart/src/view.rs:1019-1042 | performs ViewY.SetWindow, idempotently |
| ChartViews.ChartView.PanYPx | crates/moon-chart/src/view.rs:1120-1126 | performs ViewY.PanY and stamps the interaction |
| ChartViews.ChartView.RmbZoomY | crates/moon-chart/src/view.rs:1224-1257 | performs ViewY.RmbZoom and stamps the interaction |
| ChartViews.ChartView.UpdateY | crates/moon-chart/src/view.rs:1268-1429 | performs ViewY.UpdateY |
| CandlePath.Carve | crates/moon-chart/src/open_candle_path.rs:145-156 | the mutable-left walk cuts the pieces that Carved names |
| CandlePath.PlacePrefix | crates/moon-chart/src/open_candle_path.rs:113-172 | appends the bars of the composed spans, or nothing for an unusable window or timeframe |
| CandlePath.CarvedAt | crates/moon-chart/src/open_candle_path.rs:137-156 | a fallback row is drawn exactly at its instants that no finer span covers |
| CandlePath.PrefixAt | crates/moon-chart/src/open_candle_path.rs:109-158 | at every instant of the window the ranges drawn are those of the valid minute rows there, else of the valid five-minute rows there, with multiplicity, for any rows |
| CandlePath.PrefixOrdered | crates/moon-chart/src/open_candle_path.rs:109-172 | bars ascend and have positive width |
| CandlePath.DisjointIff | crates/moon-chart/src/open_candle_path.rs:109-158 | ordered bars are disjoint exactly when no instant is drawn twice |
| CandlePath.PrefixDisjoint | crates/moon-chart/src/open_candle_path.rs:109-158 | rows that do not overlap within their own series give bars that never overlap |
| CandlePath.PrefixInside | crates/moon-chart/src/open_candle_path.rs:121-158 | no bar leaves the window |
| CandlePath.BarsMirror | crates/moon-chart/src/open_candle_path.rs:159-172 | each bar is its span relative to the epoch, rising unless its middle fell below the previous one's |
| CandlePath.BarsShowRows | crates/moon-chart/src/open_candle_path.rs:109-172 | the bars show at an instant of the window exactly the ranges of the well-formed minutes there, else of the well-formed five-minute rows, and nothing outside |
| PathMinis.PlacePath | crates/moon-chart/src/open_candle_path.rs:44-77 | the loop places the minis the specification places, and returns the last middle |
| PathMinis.PlacedBars | crates/moon-chart/src/open_candle_path.rs:44-97 | the minis placed are those from the start on, a millisecond wide and ended by the oldest cross, each over its own width and coloured against the one placed before |
| PathMinis.BatchIsReady | crates/moon-chart/src/open_candle_path.rs:44-107 | a batch draws exactly its ready minis: the extra one only lends its open and is never drawn |
| PathMinis.BatchesAgreeIff | crates/moon-chart/src/open_candle_path.rs:44-107 | as the oldest cross moves on and the list grows, two batches with the seam trimmed draw what one batch against the later cross draws, exactly when the seam has room for the first batch's last mini |
| PathMinis.NextBarOpens | crates/moon-chart/src/open_candle_path.rs:79-97 | the open that trims the seam is that of the next batch's first bar, when that mini is well formed and not before the start |
| PathMinis.ReadyMinisExact | crates/moon-chart/src/open_candle_path.rs:99-107 | on ascending opens the ready prefix is every mini the crosses no longer cover |
| HVol.RollingSamples | crates/moon-chart/src/hvol.rs:216-267 | every pixel's row is its direct sums over bins whose centre lies in the half-open window, with at most one move of each pointer per bin |
| HVol.StandsIsDirect | crates/moon-chart/src/hvol.rs:241-255 | over sorted bins the two pointers bracket exactly the window's bins |
| HVol.SamplesAscend | crates/moon-chart/src/hvol.rs:216-263 | rows have positive width, ascend, and never overlap |
| HVol.RowAtIsDirect | crates/moon-chart/src/hvol.rs:337-345 | the readout at any price in any pixel is exactly that pixel's direct sums, or nothing where both are zero |
| HVol.ReadoutIs | crates/moon-chart/src/hvol.rs:216-345 | the readout at a price is the positive turnover of the bins whose middle lies within half a window of the pixel row's own middle |
| HVol.RowAtOutside | crates/moon-chart/src/hvol.rs:337-345 | outside the zone nothing is read |
| VolumeBars.SampleAt | crates/moon-chart/src/volume_bars.rs:182-196 | the narrowest covering sample, the earliest among equals, for samples in any order |
| VolumeBars.SampleAtSorted | crates/moon-chart/src/volume_bars.rs:210-235 | the backward early-breaking search gives the same sample, ties included |
| VolumeBars.SampleAtUnique | crates/moon-chart/src/volume_bars.rs:182-244 | that answer is unique, so both lookups agree |
| VolumeBars.LookupIs | crates/moon-chart/src/volume_bars.rs:182-244 | a lookup answers with a candle that holds the instant, none narrower, and with nothing only if none does |
| VolumeBars.VisibleIntervalMax | crates/moon-chart/src/volume_bars.rs:336-353 | the greatest positive figure of the visible pre-boundary samples, if any |
| VolumeBars.VisibleIntervalMaxSorted | crates/moon-chart/src/volume_bars.rs:368-390 | the sliced form gives the same maximum |
| VolumeBars.IntervalMaxUnique | crates/moon-chart/src/volume_bars.rs:336-390 | that maximum is unique, so both forms agree |
| VolumeBars.FigureIs | crates/moon-chart/src/volume_bars.rs:450-470 | a finite candle counts for the scale exactly when it opened before the boundary and shows in the band |
| VolumeBars.QuoteTurnoverBetween | crates/moon-chart/src/volume_bars.rs:412-448 | the sliced loop, on any openings, widths and clock, gives every finite candle's elapsed share of the period, and whether some counted candle reaches its start |
| VolumeBars.TurnoverAdditive | crates/moon-chart/src/volume_bars.rs:412-448 | turnover is additive over adjacent periods read at one clock |
| VolumeBars.TurnoverComplete | crates/moon-chart/src/volume_bars.rs:412-448 | a period containing every elapsed candle's span states their whole turnover |
| Backups.ScheduleCoordinator.RequestDaily | crates/moon-core/src/backups.rs:80-91 | performs the request step and claims the launch exactly when no worker was started |
| Backups.ScheduleCoordinator.UpdateExpectedCores | crates/moon-core/src/backups.rs:94-103 | performs the topology step, a no-op for an unchanged set |
| Backups.ScheduleCoordinator.StrategyCommit | crates/moon-core/src/backups.rs:106-119 | performs the commit step, waking only on a readiness change |
| Backups.ScheduleCoordinator.WithCurrentTopology | crates/moon-core/src/backups.rs:128-136 | runs the operation exactly while its claimed generation may publish |
| Backups.StateIsHistory | crates/moon-core/src/backups.rs:80-156 | in every interleaving readiness is inherited data, or a non-empty last expected set contained in everything ever committed; the rest of the state is likewise its history |
| Backups.GenerationCounts | crates/moon-core/src/backups.rs:145-149 | the generation counts topology changes modulo 2^64 |
| Backups.PublishesIff | crates/moon-core/src/backups.rs:122-136 | a claimed operation runs exactly when the changes since are a multiple of 2^64 and the topology is ready |
| Backups.ClaimedRunsIffUnchanged | crates/moon-core/src/backups.rs:122-136 | short of a wrap, exactly when nothing changed since the claim |
| Backups.WrappedClaimRuns | crates/moon-core/src/backups.rs:145-149 | after any run of a multiple of 2^64 requests a stale claim publishes again |
| Backups.OneWorker | crates/moon-core/src/backups.rs:80-91 | two launches always have a release between them |
| Backups.WakesAreNews | crates/moon-core/src/backups.rs:80-167 | in every interleaving the scheduler was woken exactly as often as there was news: requests, changed topologies, finished jobs and commits that changed readiness, modulo 2^64 |
| Backups.DueSlot | crates/moon-core/src/backups.rs:177-181 | the noon at most a day before now |
| Backups.DueSlotUnique | crates/moon-core/src/backups.rs:177-181 | there is only one such noon, also for times before the epoch |
| Backups.DelayToNextNoon | crates/moon-core/src/backups.rs:184-193 | a positive delay of at most a day that ends at the slot after the due one |
| Backups.AdvancedIff | crates/moon-core/src/backups.rs:196-198 | work crossed into a new slot exactly when a noon passed while it ran |
| AppLog.Ring.Push | crates/moon-core/src/applog.rs:120-140 | evicts to the capacity of the moment, appends, and counts up to saturation |
| AppLog.Ring.Since | crates/moon-core/src/applog.rs:161-172 | returns the unseen newest lines and the count, under one lock |
| AppLog.Ring.SnapshotWithCursor | crates/moon-core/src/applog.rs:199-207 | the newest lines and the cursor that covers them |
| AppLog.ReadDelivers | crates/moon-core/src/applog.rs:147-181 | a read returns exactly the lines past its cursor that are still held |
| AppLog.ReaderInOrder | crates/moon-core/src/applog.rs:147-207 | over any run and any capacities a chaining reader receives lines in order and none twice |
| AppLog.ReaderMissesOnlyEvicted | crates/moon-core/src/applog.rs:147-207 | of the lines its cursor passed it lacks exactly those evicted before the read that passed them |
| AppLog.NextLineArrives | crates/moon-core/src/applog.rs:137-181 | an up-to-date reader receives the next line exactly while the counter has not saturated |
| AppLog.PushKeepsNewest | crates/moon-core/src/applog.rs:120-140 | a push keeps the newest lines, as many as the capacity of the moment |
| LiveClock.LiveClockOffset.Observe | crates/moon-chart/src/live_clock.rs:44-67 | accepts exactly advancing near samples and keeps the offset the median of the last nine accepted |
| LiveClock.AfterStore | crates/moon-chart/src/live_clock.rs:62-66 | overwriting the oldest slot leaves the buffer holding the new window, whose median it yields |
| LiveClock.FullIsRotated | crates/moon-chart/src/live_clock.rs:62-66 | a full buffer is the window rotated |
| LiveClock.MedianWithstands | crates/moon-chart/src/live_clock.rs:75-86 | while more than half of the values lie in a range so does the median |
| LiveClock.MajorityIsTight | crates/moon-chart/src/live_clock.rs:75-86 | and no smaller share suffices: for every size and every range some values, half or fewer inside, have their median outside |
| LiveClock.MedianIsMiddle | crates/moon-chart/src/live_clock.rs:75-86 | the median is the middle of the values in order, or half way between the middle two |
| LiveClock.EstimateIsMiddle | crates/moon-chart/src/live_clock.rs:22-67 | the offset is that of the latest nine accepted samples, of all while there are fewer |
| LiveClock.SampleIff | crates/moon-chart/src/live_clock.rs:44-67 | a trade gives a sample exactly when one came before it, it is newer than all of them, and within ten minutes of the clock |
| LiveClock.OffsetWithstands | crates/moon-chart/src/live_clock.rs:22-67 | a minority of wild samples cannot push the offset outside the others' range |
| LiveClock.OffsetBounded | crates/moon-chart/src/live_clock.rs:17-67 | over every feed the offset stays within ten minutes |
| AlertBlob.Encode | crates/moon-core/src/alert_blob.rs:128-218 | the appended bytes are the header and the payload, and local-only figures get none |
| AlertBlob.HeaderLayout | crates/moon-core/src/alert_blob.rs:5-26 | the header is 48 bytes with every field at its documented offset |
| AlertBlob.HeaderBytes | crates/moon-core/src/alert_blob.rs:5-26 | its type byte, object kind 13, colour as B, G, R, A and line kind number, in bytes |
| AlertBlob.Decode | crates/moon-core/src/alert_blob.rs:222-304 | decodes as specified, filling the level array word by word |
| AlertBlob.DecodesIff | crates/moon-core/src/alert_blob.rs:222-304 | exactly which blobs decode, by type byte and length |
| AlertBlob.DecodeEncode | crates/moon-core/src/alert_blob.rs:128-304 | decoding an encoded figure gives it back with its thickness repaired |
| AlertBlob.RoundTripIff | crates/moon-core/src/alert_blob.rs:128-304 | unchanged exactly for thicknesses in the drawable range |
| AlertBlob.ReencodeReproducesIff | crates/moon-core/src/alert_blob.rs:128-304 | decoding and re-encoding an encoded figure reproduces its blob byte for byte exactly for thicknesses in the drawable range |
| AlertBlob.EncodedInjective | crates/moon-core/src/alert_blob.rs:128-218 | figures with the same blob are the same figure |
| AlertBlob.DecodeSettles | crates/moon-core/src/alert_blob.rs:222-304 | whatever blob arrives, decoding, encoding and decoding again gives the same figure |
| AlertBlob.Repaired | crates/moon-core/src/alert_blob.rs:248-251 | every thickness read becomes a drawable one, and a drawable one is unchanged |
| AlertBlob.RepairedIsNearest | crates/moon-core/src/alert_blob.rs:248-251 | a positive finite thickness moves only to the nearest drawable one, anything else to the default |

## Left out

- Rounding: 32- and 64-bit float arithmetic is exact here, so the phase cleaning of scales, the rounding dust the rolling sums reset, and overflow to infinity are not modelled.
- Integer widths: `u32` slots and `usize` lengths are unbounded; the 64-bit generation, wake and line counters wrap or saturate as in the source.
- Non-finite turnovers: a candle's turnover is a finite number, so the guard that drops a non-finite share has nothing to drop.
- Buffer reuse and allocation: scratch vectors of the bake reduction, output vectors that are cleared first, and slice borrows are returned sequences.
- Device buffers, baked bitmaps, price-line contents and device loss of the combo layer: only its tick history and pending uploads are followed.
- Shader transforms: the affine map from a tick's time and price to its unrounded position, the square-root bar height and the `ln`-based cover count come in as parameters of the bar reduction.
- `cluster_growth`: a hit-test parameter bounded between one and the cap; its logarithm is not modelled.
- `print_radius`: the size of a disc is a parameter of the merge, so its logarithm and hold rule are not modelled.
- `powf`: the power function behind the live price easing is a parameter; live fits make no containment claim.
- `phase_clean_default_px_per_ms`: the clean default scale is a parameter of the default-window refit.
- `note_interaction`: a non-finite clock is not modelled, so every gesture stamps.
- `fit_band`, `admit_order_band`, colours, labels, formatting and clamp helpers: only easy members.
- `show_time_range` and `apply_frame_request` return whether the view changed by a float tolerance; only their effect on the view is modelled.
- VolumeBars.SampleAtSorted: the bound on widths is a finite number at least every width, as its documentation demands of callers.
- HVol.RollingSamples: bins are sorted by centre, as the source serves them; the order of unsorted bins is not specified there either.
- PrintSizes.SelectNth: stands for the standard library's selection, of which only the rank property is used.
- Sorts of the standard library are a stable insertion sort over the same comparison, and its binary search on a partitioned slice is the prefix it finds.
- AlertBlob.DecodeEncode: date conversions are exact inverses of each other on bit patterns; the double-precision ones are so only up to rounding.
- Threads, condition variables, timeouts and file I/O of the scheduler and the log: each method is one critical section, a poisoned lock is not modelled, and no claim is made that a wake is never lost.
- `launch_domain_job`: retries and job threads; only the wake a finished job posts is a step.
- Text files, redaction and filters of the log; the settings, strategy and order-trace jobs themselves.
