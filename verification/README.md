# POOPy core in Dafny

This project models the parts of POOPy that hold checkable logic. POOPy is a Python package that collects the status of combined sewer overflow (CSO) monitors run by English and Welsh water companies and propagates discharges down a river network. Three parts are modelled.

- **The D8 drainage network** (`poopy/d8_accumulator.py`, `poopy/profiler.py`).
  - An ESRI D8 direction raster becomes a receiver array (`D8`).
  - The baselevel nodes are read off it (`Drainage`).
  - A breadth-first topological order is built (`Ordering`), and the donor index inverts the receivers (`Donors`).
  - Weights are accumulated over every node's upstream set (`Accumulation`, `Upstream`).
  - These are wrapped by the `D8Accumulator` object (`Accumulator`), with its node/index arithmetic in `Grid`.
  - The downstream-impact indicator is in `Impact`.
  - The landlab-style channel profiler walks segments upstream from the outlets (`Segments`, `Nesting`, `Channels`).
- **Events, histories and alerts** (`poopy/poopy.py`).
  - The event lifecycle and the monitor guards are in `Events`.
  - The discharge totals and the point query `event_at` are in `Histories`.
  - The alert-table transition function and the alert-stream parser are in `Alerts`.
  - The quarter-hour rounding is in `Rounding`.
- **The legacy event class** of the top-level `poopy.py` (`LegacyEvents`).

Modelling conventions:

- **Python exceptions.** They are the `Err` values of the `Result` type in `Wrappers`.
- **Times.** They are whole seconds since 1970-01-01 00:00 on a naive clock. Every `datetime.now()` and the company's update timestamp are parameters (`now`, `timestamp`).
- **Durations.** They are minutes, as `real`. NaN is `None`.
- **Numeric arrays.** They are sequences in row-major order, with their dimensions kept alongside.
- **Weights and fields.** They are exact reals.
- **The Cython kernels.** `cfuncs.pyx` is not part of this model. `d8_to_receivers`, the iterative ordering, the donor-array construction, `accumulate_flow` and `get_profile` are written here from the wrapper's docstrings and its visible checks. Their specifications are stated independently of any traversal direction:
  - the accumulation at a node is the sum of the weights of all nodes that drain to it;
  - the order lists every draining node once, after its receiver.

## Model

| member | source | states |
|---|---|---|
| D8.Offset | poopy/d8_accumulator.py:65-75 | exactly the eight ESRI codes 1, 2, 4, …, 128 have a direction, each a unit step to one of the eight neighbours |
| D8.D8ToReceivers | poopy/d8_accumulator.py:55-76 | succeeds exactly when every interior code is 0 or an ESRI code; every receiver is then a node index, a sink receives itself and a coded cell its neighbour in that direction |
| D8.BoundaryNodesAreBaselevel | poopy/d8_accumulator.py:56-57 | every boundary node is a baselevel node, whatever its code |
| Drainage.BaselevelNodes | poopy/d8_accumulator.py:120-122 | the baselevel nodes are exactly the self-receivers, in ascending order |
| Drainage.DrainsToBaseIsOutlet | poopy/d8_accumulator.py:81-84 | a node drains to a baselevel node exactly when its downstream path ends there |
| Ordering.BuildOrder | poopy/d8_accumulator.py:123-125 | the order starts with the baselevel nodes, lists each node at most once and every node after its receiver, holds exactly the nodes that reach a baselevel node, and on an acyclic network is a permutation of all nodes |
| Donors.DonorsOf | poopy/d8_accumulator.py:184-186 | a node's donors are exactly the other nodes that have it as receiver, in ascending order |
| Donors.CountDonors | poopy/d8_accumulator.py:184 | the donor count of each node equals the size of its donor set |
| Donors.Delta | poopy/d8_accumulator.py:185 | the offsets start at 0 and grow by each node's donor count |
| Donors.DonorArrayLayout | poopy/d8_accumulator.py:184-186 | in the flat donor array, the slice between consecutive offsets is exactly that node's donor list |
| Donors.BuildDonorIndex | poopy/d8_accumulator.py:184-186 | the offsets and flat donor array index every node's donors |
| Donors.DonorReceiverDuality | poopy/d8_accumulator.py:184-186 | a node appears among the donors of its receiver exactly when it is not a sink, and appears only among its receiver's donors |
| Accumulation.AccumulateFlow | poopy/d8_accumulator.py:127-153 | walking the order from its end, each node's result is the sum of the weights of the listed nodes draining to it; on a complete order it is the sum over the whole upstream set |
| Upstream.UpstreamCount | poopy/d8_accumulator.py:142-145 | with unit weights the accumulation at a node is the number of nodes in its upstream set, itself included |
| Upstream.UpstreamAtLeastOwn | poopy/d8_accumulator.py:127-153 | with non-negative weights a node's accumulated value is never below its own weight |
| Upstream.UpstreamIndicator | poopy/poopy.py:1094-1099 | accumulating an indicator of a node set gives, at each node, the number of those nodes upstream of it |
| Upstream.Conservation | poopy/d8_accumulator.py:127-153 | on an acyclic network the accumulations at the baselevel nodes add up to the total weight |
| Accumulator.Build | poopy/d8_accumulator.py:107-125 | construction fails with ValueError exactly on an invalid code; otherwise receivers, baselevel nodes and order are those of the array, and the order covers every node on an acyclic network |
| Accumulator.Open | poopy/d8_accumulator.py:107-125 | a 2D raster read from a file builds an accumulator that keeps its dataset |
| Accumulator.FromArray | poopy/d8_accumulator.py:330-354 | an array that is not 2D raises ValueError; otherwise the accumulator is built from it with no dataset |
| Accumulator.SetArr | poopy/d8_accumulator.py:314-327 | a non-2D array raises ValueError and changes nothing; otherwise array, shape and dataset are replaced first, and receivers, baselevel nodes and order are recomputed unless a code is invalid |
| Accumulator.Accumulate | poopy/d8_accumulator.py:127-153 | weights of another shape raise ValueError; otherwise the result has the array's shape and holds each node's upstream weight sum (upstream count without weights), and the baselevel results add up to the total weight |
| Accumulator.AccumulateMeaning | poopy/d8_accumulator.py:83-84 | a result equal to the upstream sums at every node is the upstream count under unit weights, conserves the total weight, and with non-negative weights is at least each node's own weight |
| Accumulator.ChannelSegmentSeeds | poopy/d8_accumulator.py:177-190 | a field of the wrong size raises ValueError; the seeds are exactly the baselevel nodes whose field exceeds the threshold, ascending, and the donor index inverts the receivers |
| Accumulator.MouthDistances | poopy/d8_accumulator.py:243-244 | distances counted from the mouth are non-negative, one of them is 0, and they differ pairwise by the opposite of the along-profile differences |
| Accumulator.MouthDistancesShrink | poopy/d8_accumulator.py:210-213 | along a downstream profile the distance from the mouth never grows, and it is 0 at the last node |
| Accumulator.ProfileOutput | poopy/d8_accumulator.py:239-244 | an empty profile yields two empty arrays, and any other profile yields itself with its distances from the mouth |
| Accumulator.GetProfile | poopy/d8_accumulator.py:229-244 | a start outside the grid raises ValueError and a missing dataset raises; otherwise the profile starts at the start node, follows receivers to a baselevel node on an acyclic network, and has matching non-negative distances; for non-negative step lengths they never increase along the profile and end at 0 |
| Grid.NodeRowColRoundTrip | poopy/d8_accumulator.py:251-252 | for a node inside the grid, the row and column of a node give back that node |
| Grid.NodeToIndicesAsWritten | poopy/d8_accumulator.py:248-252 | the check admits node indices 0 to rows·cols inclusive; the indices recombine to the node, and the row is off the grid exactly for node rows·cols |
| Grid.NodeToIndicesAcceptsOnePastEnd | poopy/d8_accumulator.py:249-252 | node rows·cols passes the bounds check and gets a row outside the grid |
| Grid.NodeToIndices | poopy/d8_accumulator.py:246-252 | succeeds exactly for nodes inside the grid, and the column/row found recombine to the node |
| Grid.CoordIndicesToNodeAsWritten | poopy/d8_accumulator.py:263-273 | the check admits any index pair whose row-major number lies in 0..rows·cols inclusive, and on a pixel inside the grid gives the same node as the corrected `CoordIndicesToNode` |
| Grid.CoordIndicesWrapAround | poopy/d8_accumulator.py:270-272 | column −1 of row 1 passes the check and lands on the last cell of row 0 |
| Grid.CoordIndicesAcceptsOnePastEnd | poopy/d8_accumulator.py:270-272 | the pixel below the last row passes the check as node rows·cols |
| Grid.CoordIndicesToNode | poopy/d8_accumulator.py:263-273 | succeeds exactly for pixels inside the grid, and is the inverse of `NodeToIndices` there |
| Impact.SourceNodesAsWritten | poopy/poopy.py:1083-1092 | the monitors kept are those whose pixel passes the bounds check, each as its node number, which may be rows·cols |
| Impact.MarkAsWritten | poopy/poopy.py:1095-1096 | marking raises IndexError exactly when a kept node is past the end; otherwise the array is the indicator of the kept nodes, duplicates giving 1 |
| Impact.ImpactRaisesOnePastEnd | poopy/poopy.py:1083-1099 | a monitor on the pixel below the last row is kept and makes the marking raise IndexError |
| Impact.DownstreamImpactAsWritten | poopy/poopy.py:1064-1099 | raises IndexError exactly when some monitor lands on node rows·cols; otherwise the result has the grid's shape and, on a network where no flow circulates, each cell holds the number of distinct accepted nodes upstream of it, wrapped pixels included |
| Impact.ImpactCountsWrappedMonitor | poopy/poopy.py:1083-1099 | a monitor one column left of the grid on row 1 counts as written as a source on the last cell of row 0, giving that cell impact 1 where the corrected version gives 0 |
| Impact.SourceNodes | poopy/poopy.py:1083-1092 | the source nodes are the in-grid pixels of the monitors, out-of-grid monitors skipped |
| Impact.DownstreamImpact | poopy/poopy.py:1064-1099 | each cell holds the number of distinct source nodes upstream of it |
| Nesting.DepthStep | poopy/profiler.py:147-174 | on an acyclic network a donor sits one step further from its outlet than its receiver |
| Nesting.UpstreamStep | poopy/profiler.py:147-174 | a donor's upstream set lies inside its receiver's and excludes the receiver |
| Nesting.DonorsDisjoint | poopy/profiler.py:177-181 | two different donors of one node have disjoint upstream sets |
| Segments.Qualifying | poopy/profiler.py:153-164 | the qualifying donors are exactly the supplying nodes other than the start whose field exceeds the threshold |
| Segments.ArgMax | poopy/profiler.py:173 | the first position of the largest value |
| Segments.NextStep | poopy/profiler.py:172-174 | with exactly one qualifying donor the walk steps to it, a donor of the current node |
| Segments.Walk | poopy/profiler.py:140-181 | the walk from a node records that node first and never comes back empty; its steps and its stop are stated by `WalkSteps` and `WalkEnd` |
| Segments.WalkEnd | poopy/profiler.py:164-181 | the walk stops where no donor or several donors qualify, handing on exactly those |
| Segments.WalkSteps | poopy/profiler.py:147-174 | every step of the walk goes to the single qualifying donor |
| Segments.ChainUpstream | poopy/profiler.py:140-174 | a chain climbs one level per step and stays inside the upstream set of its first node |
| Channels.ChannelSegment | poopy/profiler.py:140-181 | a segment holds at least one node and hands on only nodes of the network; its head and its course are stated by `SegmentHead` and the lemmas after it |
| Channels.SortBy | poopy/profiler.py:72 | sorting by field gives a permutation in ascending field order |
| Channels.AtLeast | poopy/profiler.py:73-76 | the kept outlets are exactly those at or above the cutoff, in their original order |
| Channels.Outlets | poopy/profiler.py:67-76 | the outlets are exactly the sinks whose field reaches both thresholds, distinct and in ascending field order |
| Channels.OutletChecks | poopy/profiler.py:81-88 | the two value checks never fire on the selected outlets, so only an empty selection is bad |
| Channels.NewProfiler | poopy/profiler.py:58-96 | a missing field or no qualifying outlet raises ValueError; otherwise the profiler stores the receivers, the field, the threshold and the outlets |
| Channels.SegmentHead | poopy/profiler.py:141-145 | the segment starts with the receiver of its start exactly when that is another node and the start is not an outlet |
| Channels.SegmentChain | poopy/profiler.py:140-174 | each segment is a chain: every node is the receiver of the next |
| Channels.SegmentEnd | poopy/profiler.py:164-181 | the nodes handed on are exactly the qualifying donors of the segment's last node, never exactly one |
| Channels.CourseFacts | poopy/profiler.py:147-174 | the upstream walk stays inside the start's upstream set and ends at its deepest node |
| Channels.PutGet | poopy/profiler.py:203 | after storing a key, looking it up gives the stored value |
| Channels.PutOther | poopy/profiler.py:203 | storing a key leaves every other key's value alone |
| Channels.PutFresh | poopy/profiler.py:203 | storing a new key appends one entry |
| Channels.ChannelNetwork | poopy/profiler.py:196-205 | the segment starts of an outlet come in FIFO order, each at most once, all upstream of the outlet, with pairwise disjoint walks; the network has one entry per start and no key collides |
| Channels.CreateProfileStructure | poopy/profiler.py:185-207 | one network per outlet, in outlet order, each the FIFO network of that outlet, then the flat list |
| Channels.FlattenIndex | poopy/profiler.py:209-214 | the flat list holds the segments outlet by outlet, then in insertion order |
| Events.TypeNameInjective | poopy/poopy.py:668-692 | the three event classes carry three different `event_type` strings |
| Events.NewEvent | poopy/poopy.py:505-548 | construction succeeds exactly for a consistent event; ValueError exactly for an ongoing event with an end or an end before the start, TypeError for a closed event with a start and no end, where the duration computes `None - start`, and for an end with no start, where `_validate` compares `end < None` |
| Events.Duration | poopy/poopy.py:550-560 | NaN exactly without a start; otherwise the minutes from start to end, or to `now` while ongoing, never negative once closed |
| Events.SetOngoing | poopy/poopy.py:600-622 | only `False` on an ongoing event is accepted, closing it at `now` with kind and start kept; anything else raises ValueError |
| Events.CloseOnce | poopy/poopy.py:614-618 | a closed event can never be set again |
| Events.CloseKeepsDuration | poopy/poopy.py:550-560 | closing a consistent event at or after its start keeps it consistent and freezes its duration |
| Events.CurrentEvent | poopy/poopy.py:130-141 | the getter raises ValueError exactly when unset |
| Events.SetCurrentEvent | poopy/poopy.py:177-190 | the setter accepts exactly the ongoing events, touching nothing else |
| Events.CurrentEventRoundTrip | poopy/poopy.py:130-190 | the getter returns what the setter accepted, and it is ongoing |
| Events.History | poopy/poopy.py:154-165 | the getter raises ValueError exactly when unset |
| Histories.Overlap | poopy/poopy.py:218-226 | the part of a period after the cutoff is non-negative, empty when the period ends before it, and no longer than the period |
| Histories.Contribution | poopy/poopy.py:198-227 | only "Discharging" events count; an ongoing event adds the minutes from the later of start and cutoff to `now`, a closed one its part after the cutoff; TypeError exactly where a missing time is compared |
| Histories.ContributionFails | poopy/poopy.py:198-227 | for a consistent event only a missing start makes the contribution fail, whatever the cutoff |
| Histories.ContributionMonotone | poopy/poopy.py:198-227 | a later cutoff never adds minutes |
| Histories.DischargeSum | poopy/poopy.py:204-227 | the sum succeeds exactly when every event's contribution does |
| Histories.DischargeSumMonotone | poopy/poopy.py:198-227 | `total_discharge` is non-increasing in the cutoff |
| Histories.TotalDischarge | poopy/poopy.py:198-227 | an unset history raises ValueError; without a cutoff the total runs from 2000-01-01 |
| Histories.TotalDischargeBetween | poopy/poopy.py:229-235 | the total since the start minus the total since the end |
| Histories.BetweenNonNegative | poopy/poopy.py:229-235 | for ordered cutoffs the difference is never negative, and fails only when the total since the start does |
| Histories.EventAt | poopy/poopy.py:309-345 | a time after `now` gives None; otherwise the first event in force (start < time < end, `now` for ongoing), None when there is none, TypeError at the first event with a missing time it compares |
| Rounding.RoundDown15 | poopy/poopy.py:2097-2108 | the result is on a quarter hour in the same hour, not after the input and less than 15 minutes before it |
| Rounding.RoundUp15 | poopy/poopy.py:2111-2123 | the result is on a quarter hour, after the input and at most 15 minutes after it |
| Rounding.QuarterMinute | poopy/poopy.py:2108 | a quarter hour has zero seconds and minute 0, 15, 30 or 45 |
| Rounding.RoundDownIsFloor | poopy/poopy.py:2097-2108 | rounding down gives the latest quarter hour not after the input |
| Rounding.RoundUpIsDownPlus15 | poopy/poopy.py:2111-2123 | rounding up is always exactly 15 minutes after rounding down, rolling the hour from minute 45 |
| Rounding.RoundOnQuarter | poopy/poopy.py:2097-2123 | a quarter hour rounds down to itself and up to the next quarter |
| Alerts.MakeAlertRow | poopy/poopy.py:2023-2057 | only the four alert kinds are accepted, anything else raises ValueError |
| Alerts.StartAlertKind | poopy/poopy.py:2062-2071 | succeeds exactly for the three event-type strings, giving a kind other than Offline stop that is start-kind exactly when not "Not Discharging" |
| Alerts.MakeStartAlertRow | poopy/poopy.py:2060-2084 | raises when the current event is unset; otherwise a row for the monitor of kind Start exactly for a discharge, at the event's start, or at the update time with a note when there is none |
| Alerts.Latest | poopy/poopy.py:1767 | the first row of the monitor in the table |
| Alerts.Transition | poopy/poopy.py:1777-2003 | the branch on the (previous, new) kind pair, with a branch for (Offline stop, Start) that puts the Start on top; it fails only with RuntimeError or with TypeError, the latter only for a missing start time, and adds at most two rows |
| Alerts.TransitionAsWritten | poopy/poopy.py:1777-2003 | the pair (Offline stop, Start) raises RuntimeError; every other pair behaves as in `Transition` |
| Alerts.TransitionUnhandledAsWritten | poopy/poopy.py:1777-2003 | as written, of the (previous, new) kind pairs only (Offline stop, Start), or an unknown previous kind, raise RuntimeError |
| Alerts.TransitionUnhandled | poopy/poopy.py:1777-2003 | with the (Offline stop, Start) branch, RuntimeError comes exactly from an unknown previous kind |
| Alerts.OfflineThenDischargeAsWritten | poopy/poopy.py:1755-2003 | a monitor whose latest alert is an Offline start at t0 and whose not-discharging event starts after t0 + 1 gets only an imputed Offline stop on top; a later discharge starting at another time then makes the update raise RuntimeError as written, while the corrected update puts the Start on top |
| Alerts.TransitionShape | poopy/poopy.py:1777-2003 | every handled pair either puts rows of the monitor on top without ever stacking a start-kind alert on another, or, for an unchanged kind or (Offline stop, Stop), changes at most the Note of the latest alert |
| Alerts.StacksAfterOffline | poopy/poopy.py:1800-1901 | after an Offline start an imputed Offline stop goes under the new or shifted alert |
| Alerts.StacksAfterOther | poopy/poopy.py:1782-1940 | a Start going offline gets an imputed Stop under it; other changes put the new alert on top |
| Alerts.DischargeAfterOfflineStop | poopy/poopy.py:1777-2003 | with the corrected branch, a Start after an Offline stop goes on top of the table |
| Alerts.UpdateMonitorRuns | poopy/poopy.py:1767-1777 | a monitor with rows whose start alert's time differs from its latest alert's gets the transition on that pair |
| Alerts.UpdateMonitorAsWritten | poopy/poopy.py:1755-2003 | the update as written equals the corrected one except for a discharge starting after an Offline stop, where it raises RuntimeError and the corrected one succeeds |
| Alerts.UpdateMonitor | poopy/poopy.py:1755-2003 | an unset current event raises; a monitor without rows gets its start alert on top; an unchanged time changes nothing; otherwise the corrected transition stacks rows or changes only a Note |
| Alerts.UpdateKeepsRows | poopy/poopy.py:1755-2003 | an update never removes a monitor's rows |
| Alerts.UpdateAlertsTable | poopy/poopy.py:1739-2003 | a new table holds one start alert per monitor in monitor order; an update leaves every monitor with rows and loses none; any unset current event raises |
| Alerts.PairKind | poopy/poopy.py:1489-1546 | Stop over Start is a discharge, Offline stop over Offline start an offline period, a start-kind alert over a non-start-kind alert a no-discharge period |
| Alerts.PairEvents | poopy/poopy.py:1472-1546 | never more events than pairs read |
| Alerts.PairEventsClosed | poopy/poopy.py:1489-1546 | every event read is closed and consistent, of the kind its pair names, and runs from the older alert to the newer |
| Alerts.AlertsToEvents | poopy/poopy.py:1443-1547 | an unset current event raises, an empty stream gives [], rows of another monitor raise; otherwise the current event followed by one event per valid pair, ValueError exactly when a valid pair is out of time order |
| Alerts.EventsBounded | poopy/poopy.py:1456-1547 | the events read are never more than the alerts |
| LegacyEvents.NewEvent | poopy.py:10-52 | construction succeeds exactly for an event that is ongoing exactly when it has no end and does not end before it starts; a closed event without an end raises TypeError |
| LegacyEvents.Duration | poopy.py:54-60 | the minutes from start to end for a closed event, never negative, or to `now` while ongoing |
| LegacyEvents.SetOngoing | poopy.py:108-120 | only `False` on an ongoing event is accepted, stamping the end at `now` |
| LegacyEvents.CloseOnce | poopy.py:108-120 | closing keeps the event consistent, freezes its duration, and cannot be repeated |
| LegacyEvents.TypeNameInjective | poopy.py:138-160 | the three subclasses carry three different `event_type` strings |

## Left out

- The Cython kernels of `cfuncs.pyx` are not part of this model. `d8_to_receivers`, the ordering, the donor array, `accumulate_flow` and `get_profile` are modelled from the wrapper's docstrings and checks.
  - An interior cell with a code outside the ESRI table is taken to raise ValueError.
  - Boundary cells are taken as sinks whatever their code, as the class docstring says.
- Ordering.BuildOrder: the order is breadth first from the baselevel nodes; `accumulate_flow` walks it from the end. On a network with a cycle, the nodes of the cycle are left out of the order and the accumulation counts only listed nodes. That case is stated only for listed nodes.
- Channels.ChannelNetwork, Channels.CreateProfileStructure: the profiler is modelled only on an acyclic receiver array (`Forest`, part of `Channels.Ready`). In the source, the segment walk of `_get_channel_segment` (profiler.py:147-181) always ends, since it only climbs to donors and leaves out its own start node. Only the FIFO loop of `_create_profile_structure` (profiler.py:196-205) can run forever, which needs a branch node on a cycle reachable upstream from a flagged sink; the sink flag is separate from the receivers (profiler.py:67). Receiver arrays with a cycle no outlet reaches are handled by the source but excluded here.
- Channels.SortBy: `np.argsort` is an unstable quicksort. The model sorts stably, so the order among outlets with equal field values is a choice.
- Accumulator.GetProfile: the kernel's profile from a valid node always holds that node, so the empty-profile branch is reachable only through `Accumulator.ProfileOutput`. Step lengths between neighbouring cells are a parameter; the geotransform's dx and dy are not modelled.
- Coordinates are left out. `node_to_coord` and `coord_to_node` are modelled on pixel indices, and the float conversions, `extent`, `snap_to_drainage` and the affine helpers are not modelled.
- GDAL and GeoJSON I/O, landlab's grid fields, HTTP fetching, company-specific row mapping and plotting are left out.
- Accumulator.ChannelSegmentSeeds: a field whose size differs from the node count is taken as ValueError, although `np.logical_and` broadcasts a one-element field (d8_accumulator.py:178-182) and hands it to the kernel; the kernel is not part of this model, so what it does with that field is not modelled.
- `set_all_histories_parallel` is left out: it is concurrency, and it raises at its first line.
- `get_monitors_upstream` and `number_of_upstream_discharges` are left out: they call a method the accumulator does not define.
- `_history_masks` and `get_monitor_timeseries` are left out.
- Alerts.UpdateAlertsTable: the CSV read and write, the update-list file, the `print` calls and the final re-sort of the table by time are left out.
  - The per-monitor update works on the table as a newest-first sequence.
  - pandas index labels repeat after `concat`, so the source's `.at[row_index, "Note"]` may write to more than one row. The model changes only the monitor's latest row.
- Alerts.MakeAlertRow: the Note strings with formatted times are a `Note` datatype. The permit number, coordinates and watercourse columns are not carried.
- Events.Duration: the cached `_duration` attribute is not modelled, and the property is recomputed. Times have no microseconds.
- Histories.TotalDischargeBetween: the source reads `datetime.now()` once per ongoing event inside each of its two `total_discharge` calls; one `now` stands for every read.
- Alerts.Transition: the source reads `datetime.now()` once; `now` stands for it.

## Findings

| source | as written | input that shows it | evidently intended | confidence | as-written member | corrected member |
|---|---|---|---|---|---|---|
| poopy/d8_accumulator.py:249-252, 270-272 | the bounds checks use `> ncols * nrows`, admitting index rows·cols, and `coord_to_node` checks only the row-major number, so a column outside the grid wraps to another row | node rows·cols; pixel (column 0, row rows); pixel (column −1, row 1) | admit exactly the pixels inside the grid, `0 <= node < ncols * nrows` | not executed | Grid.CoordIndicesToNodeAsWritten | Grid.CoordIndicesToNode |
| poopy/poopy.py:1083-1096 | a monitor on the pixel just below the last row passes `coord_to_node`, then `source_array[source_nodes] = 1` raises IndexError, which the `except ValueError` does not catch | a monitor at column 0, row rows | skip every monitor outside the grid and mark only in-grid nodes | not executed | Impact.DownstreamImpactAsWritten | Impact.DownstreamImpact |
| poopy/poopy.py:1850-1901, 1984-2003 | the (Offline start, Stop) branch adds only an imputed Offline stop, and no branch handles (Offline stop, Start), which ends in `raise RuntimeError` | Offline start at t0, then a not-discharging start at s > t0 + 1, then a discharge start at a time other than s − 1 (`Alerts.OfflineThenDischargeAsWritten`) | a discharge after an Offline stop goes on top, as after a Stop | not executed | Alerts.UpdateMonitorAsWritten | Alerts.UpdateMonitor |
