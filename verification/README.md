# SrednaBG zone data: models and proofs

SrednaBG warns drivers about section (average-speed) control. Its zone data comes from
several sources that describe the same road sections differently; a pipeline matches,
merges, numbers, repairs and publishes them. This project models that pipeline and the
algorithmic kernels around it in Dafny, and proves what they are for.

One module per component; where the source loops over mutable state a `...Loop` module
holds the imperative form, proved equal to a specification about which the theorems are.

| modules | what they model |
|---|---|
| `Zones`, `Matching`, `Greedy`, `Grouping`, `MatchOrder`, `MatchLoop`, `Evidence` | cross-source matching by road, direction and score, and what a match stands for |
| `Merging`, `Orienting`, `Layout` | orientation of reversed sources, field-by-field merging, and that the way round a secondary source is handed over does not matter |
| `Ids`, `Numbering`, `IdLoop`, `Text` | numbering of sections per road, IDs as strings |
| `Seams`, `SeamLoop`, `SharedSeams` | snapping shared cameras, with endpoint objects written in place; ends and starts in two seams |
| `Alignment`, `Validation`, `Warnings` | centerline repair and the last pass |
| `Pipeline`, `Published`, `PipelineLoop` | all stages together: conservation, guards that stay silent, whose coordinates are published |
| `Wire`, `VectorTile`, `TileCodec`, `TileEncoder` | the protobuf and Mapbox Vector Tile decoder (MVT 2.1, sections 4.1 to 4.4), an encoder for it, and the round trip |
| `Stitch` | reassembly of a polyline from clipped pieces |
| `Samplers` | two resamplers and the walker, in arc-length coordinates |
| `Drive`, `DriveFeed` | drive plans on two clocks, and the pump that stamps fixes |
| `AverageSpeed` | the average and the maximum speed for the remainder |
| `Feeds`, `Publish`, `Series`, `PublishLoop` | feed file names, guards, snapshots, rotation |
| `LogObserver`, `Cdata` | the crash scan over log lines, CDATA escaping |
| `Prelude`, `Sorting` | an option type, sequence facts, folds over an abstract step and the stable sort shared by all |

How to read the model:

- Distance is any function that is a metric (zero exactly for equal points, symmetric,
  triangle inequality). Road normalisation, slugs, settlement names, km parsing and the
  formatting of a km value with one decimal are parameters (`Zones.Env`); theorems that
  need more say so, for instance that the roads present have distinct slugs.
- Coordinates, distances and scores are real or integer numbers; scores are in tenths.
- An exception of the source is `None`. A match names its zones by their index in the
  input, so that "the same zone" is not "an equal zone".
- A clock, an abort flag or a directory's contents are parameters of the step that reads
  them; a run is a sequence of such steps.

Where code and its own comments differ, the code is modelled, and the difference proved:

- Snapping promises that shared cameras coincide exactly. Where zones that do not meet
  are far apart and no end or start in two seams is the side that yields, every promise
  holds. A side in two seams that yields to the second one visited leaves the first one
  open, and a second run can then move it again; `SharedSeams.SharedEndClosesIff` and
  `SharedSeams.SharedStartClosesIff` say exactly when both close, and
  `SharedSeams.SharedEndDoesNotSettle` is a run of the loops where they do not.
- A route always finishes on the end of the line, says its comment. A line that returns
  to the point of its last sample loses its end (`Samplers.RouteIsSamplesThenEnd` gives
  the exact condition, `Samplers.OutAndBackLosesEnd` an input).
- Distinct sections get distinct IDs, says the comment on numbering. They do exactly
  when no settlement or km key reads like another key's numbered form
  (`Ids.IdsUniqueIff`; `Ids.HashedSettlementClashes` is an input where one does);
  validation would drop the zone (`Pipeline.NothingDropped`).
- A stop at the last point of a plan holds for the last tick, not the full duration
  (`Drive.StopLengthensIff`; `Drive.LastStopFallsShort` is one).
- A speed limit of zero or less makes the remainder calculation show its cap
  (`AverageSpeed.SafeIff`).
- Compressing a plan twice is compressing it by the product exactly when the first
  truncation steps over no multiple of the second factor (`Drive.CompressionsMultiplyIff`),
  so always for a whole second factor.
- Negative `int64` values of a tile come back as large numbers
  (`TileCodec.NegativeInt64IsMisread`).

## Model

| member | source | states |
|---|---|---|
| `Pipeline.EachOfficialZoneIsPublishedOnce` | scrapers/src/validator.py:1068-1094 | for all inputs with distinct slugs and no clashing section keys, every BG TOLL zone and every KML zone feeds exactly one published zone |
| `Pipeline.EveryOfficialZoneFeeds` | scrapers/src/validator.py:1068-1094 | no official zone is lost between matching and validation, whatever the IDs |
| `Pipeline.NoZoneFeedsTwo` | scrapers/src/validator.py:1068-1094 | no official zone is used for two candidates |
| `Pipeline.EveryCandidateIsOfficial` | scrapers/src/validator.py:1037-1065 | each candidate comes from a match holding a BG TOLL or a KML zone |
| `Pipeline.CandidateIsItsMerge` | scrapers/src/validator.py:1081-1092 | numbering, snapping and alignment leave road, direction, limits, names and markers as merged |
| `Pipeline.NothingDropped` | scrapers/src/validator.py:828-857 | validation drops nothing if and only if no road has clashing section keys |
| `Pipeline.GuardsAreSilent` | scrapers/src/validator.py:820-946 | duplicate ID, bad distance, reversed line and description mismatch can never be reported, because of what the stages before establish |
| `Pipeline.NoJunctionWarnings` | scrapers/src/validator.py:949-964 | with clear seams, shared sides that do not yield included, no junction gap is reported |
| `Pipeline.PublishedSeamsMeet` | scrapers/src/validator.py:980-1029 | the two zones of a seam are published ending and starting in one point, centerlines included |
| `Pipeline.SnappedTwice` | scrapers/src/validator.py:980-1029 | snapping the zones that snapping returned gives them back unchanged where the seams are clear |
| `Pipeline.MergeIsGrounded` | scrapers/src/validator.py:477-483 | a merged zone without a start has no end either, so what snapping skips validation skips too |
| `PipelineLoop.MergeAll` | scrapers/src/validator.py:1068-1094 | the imperative run, endpoint objects and all, returns exactly what the stage functions define |
| `PipelineLoop.SnapZones` | scrapers/src/validator.py:980-1029 | fresh endpoint objects mutated in place and read back give the snapped zones |
| `PipelineLoop.DropUnofficial` | scrapers/src/validator.py:1058-1065 | kept are exactly the official zones in order, everything dropped is unofficial, nothing vanishes |
| `Matching.MatchesConserve` | scrapers/src/validator.py:159-295 | every BG TOLL, TollTracker and KML zone is in exactly one match, in whatever order the groups are taken; no match is empty |
| `MatchOrder.GroupingIrrelevant` | scrapers/src/validator.py:187-295 | the grouped loops put the same BG TOLL, TollTracker and KML zones into one match as the plain loop over all zones; only their order, and which OSM zone a match carries, may differ |
| `MatchOrder.OsmStageShape` | scrapers/src/validator.py:244-255 | the OSM stage writes OSM fields of existing matches and adds exactly the zones that fit none, nothing else |
| `Evidence.OsmGoesToFirst` | scrapers/src/validator.py:244-255 | an OSM zone goes to the first match whose TollTracker zone, or else BG TOLL zone, is of its road and direction and ends where it does, and is a match of its own if there is none |
| `Matching.BasePairsMaximal` | scrapers/src/validator.py:187-242 | no leftover BG TOLL and TollTracker zones of one group still score anything together |
| `Matching.KmlMaximal` | scrapers/src/validator.py:264-295 | no leftover KML zone scores with a match of its group that got none |
| `Matching.SettlementRanksFirst` | scrapers/src/validator.py:198-216 | a candidate without a settlement match never beats one with it, and ties it only by matching on both other criteria |
| `Matching.KmRangeRanksSecond` | scrapers/src/validator.py:198-216 | settlements being equal, an overlapping km range decides |
| `Matching.ScoreIgnoresEndOrder` | scrapers/src/validator.py:81-156 | for zones that say as much of both ends, handing over either or both the other way round changes neither the score, the reasons nor the closeness |
| `Matching.ScoreSymmetric` | scrapers/src/validator.py:81-156 | nor does it matter which zone is asked about which |
| `Evidence.MatchesAreBacked` | scrapers/src/validator.py:159-305 | every match: its BG TOLL and TollTracker zones, its OSM zone and what it was put to, its KML zone and what it was put to are of one road and direction and have their settlements, half of a km range or both endpoints in common, and of the first two the method names exactly what, weighed by the confidence |
| `Evidence.MatchedByCoordsAlone` | scrapers/src/validator.py:130-156 | zones matched by coordinates alone are within 2 km at both ends, straight or crosswise |
| `Evidence.CoordsIff` | scrapers/src/validator.py:130-156 | coordinates count exactly when both zones are located and both ends pair up within 2 km; one shared camera is not enough |
| `Evidence.KmOverlapIff` | scrapers/src/validator.py:81-106 | markers count exactly when some stretch lies in both ranges and is at least half of one of them |
| `Evidence.TouchingRangesDoNotOverlap` | scrapers/src/validator.py:84-91 | consecutive zones, whose ranges only touch, do not match by markers |
| `Evidence.SettlementsIff` | scrapers/src/validator.py:109-127 | settlements count exactly when both starts are known and the two zones have the same pair |
| `Greedy.ChoicesAreMatching` | scrapers/src/validator.py:194-235 | greedy choices never use a candidate twice and stay within the group |
| `Greedy.ChoicesAreMaximal` | scrapers/src/validator.py:194-235 | a zone left without partner scores nothing with any candidate left |
| `Greedy.ChoicesAreGreedy` | scrapers/src/validator.py:213-216 | each choice is the best, and the first best, of what was free at its turn |
| `Greedy.OrderIrrelevant` | scrapers/src/validator.py:188-235 | processing the zones in any order that keeps each group's own order gives every zone the same partner |
| `Greedy.BestIsLocal` | scrapers/src/validator.py:188-196 | a choice depends only on which candidates of the same group are used |
| `Grouping.GroupBy` | scrapers/src/validator.py:177-185 | the dictionary of groups holds every index once, in input order, keys in order of first appearance |
| `Grouping.GroupedKeepsGroups` | scrapers/src/validator.py:188-191 | group after group is a permutation that keeps each group's order |
| `MatchLoop.MatchBgToll` | scrapers/src/validator.py:187-242 | the nested loops with their used-index set compute the specified matches |
| `MatchLoop.FitOsm` | scrapers/src/validator.py:245-255 | OSM zones are written onto the first match they fit, or added |
| `MatchLoop.FitKml` | scrapers/src/validator.py:258-295 | the KML loop over the growing match list computes the specified matches |
| `MatchLoop.MatchZones` | scrapers/src/validator.py:159-305 | all stages together |
| `Published.FedByAlikeZones` | scrapers/src/validator.py:1068-1094 | the same of the zones that feed one published zone |
| `Merging.OrientationAntisymmetric` | scrapers/src/validator.py:351-389 | for a source that the same tier answers both ways round, turning it round turns the answer round if and only if that tier can tell the two ways apart |
| `Merging.OneSidedSourceIsNotTurnedBack` | scrapers/src/validator.py:369-389 | a family outside that: a source with the start settlement only reads as aligned one way round and is left to its km markers, or undecidable, the other |
| `Orienting.OrientToRunsAlong` | scrapers/src/validator.py:351-405 | turned or not, a source runs the way that brings its coordinates nearer the primary's; without coordinates, that puts a settlement they share at the same end; without one, that its km markers rise or fall by the road's km direction; it is left alone where it runs so already and where nothing decides |
| `Orienting.SourcesRunAlong` | scrapers/src/validator.py:461-466 | so does every source of a match, and the primary is what it was |
| `Orienting.PartsLieAtTheirEnds` | scrapers/src/validator.py:461-512 | whichever way round a located source is handed over, the coordinates, marker, settlement and Latin name it gives an end are published of the end it lies nearer to |
| `Merging.MergeIgnoresLayout` | scrapers/src/validator.py:455-640 | handing over any secondary sources that can be told the other way round, direction label kept, does not change the merged zone |
| `Layout.PublishedIgnoresLayout` | scrapers/src/validator.py:1068-1094 | the same through the whole pipeline: exchanging any such secondary zones of the sources changes neither the zones published nor the warnings |
| `Layout.MatchesIgnoreLayout` | scrapers/src/validator.py:159-305 | the zones are matched by index as before, scores and reasons included |
| `Merging.FlipTwice` | scrapers/src/validator.py:338-348 | turning a zone twice restores all but possibly its description |
| `Merging.MergedPart` | scrapers/src/validator.py:471-512 | both ends' coordinates, both km markers, both settlements with the description, both Latin names and the line each come from one source: the first in that field's own order to have it at its start |
| `Merging.MergedPartMissing` | scrapers/src/validator.py:471-512 | what no source in a field's order gives is left out of both ends |
| `Merging.MergedDescription` | scrapers/src/validator.py:598-605 | the description is made of the merged settlements, of neither if one is missing, and the direction is the primary's |
| `Merging.MergedRoadNames` | scrapers/src/validator.py:579-612 | road type from KML before TollTracker, Latin road name from TollTracker before KML |
| `Merging.MergedRoadAndLength` | scrapers/src/validator.py:468-469 | road and length follow their own priority, however sources run |
| `Merging.MergedLimit` | scrapers/src/validator.py:529-553 | each vehicle's limit is the first plausible of KML, TollTracker, BG TOLL, OSM |
| `Merging.PickLimitIsBestOffer` | scrapers/src/validator.py:532-546 | a limit is published if and only if some source has one, an implausible one only if no source has a plausible one, and none is made up |
| `Merging.MergedIsOfficial` | scrapers/src/validator.py:586-596 | the source string counts as official if and only if BG TOLL or KML fed the match |
| `Ids.IdsUniqueIff` | scrapers/src/validator.py:643-710 | all IDs are distinct if and only if no road has clashing section keys, slugs being distinct |
| `Ids.NumberedKeyClashes` | scrapers/src/validator.py:680-707 | wherever two zones of a road and direction share a section key and a third one's key is that key numbered, two zones get one ID |
| `Ids.HashedSettlementClashes` | scrapers/src/validator.py:688-707 | such an input: two zones between the same settlements and one to a settlement whose name ends in #1 |
| `Ids.NumbersUniqueIff` | scrapers/src/validator.py:690-705 | zones of one direction get different numbers if and only if no base key reads like another's numbered key |
| `Ids.NoHashNoClash` | scrapers/src/validator.py:698-700 | without a hash sign in base keys there is no clash |
| `Ids.NumbersHaveNoGaps` | scrapers/src/validator.py:702-706 | the numbers used on a road are exactly 1 to k |
| `Ids.NumbersFollowFirstUse` | scrapers/src/validator.py:676-706 | a section first met later along the road has the larger number |
| `Ids.OppositeDirectionsShareNumber` | scrapers/src/validator.py:698-706 | the same base key and occurrence in two directions share one number |
| `Numbering.OpposedShareNumber` | scrapers/src/validator.py:683-706 | two zones of a road with km markers exchanged, or without them settlements, get one number, occurrence by occurrence |
| `Numbering.LonePairSharesNumber` | scrapers/src/validator.py:667-706 | so do the two directions of a section with one zone in each |
| `Numbering.BaseKeyIgnoresEndOrder` | scrapers/src/validator.py:683-696 | a zone handed over the other way round has the same section key |
| `Numbering.SameBandIff` | scrapers/src/validator.py:685-687 | two zones with markers have one section key if and only if both ends of their bands read alike to a tenth of a km |
| `Numbering.NumbersFollowKm` | scrapers/src/validator.py:660-706 | a section that starts beyond a zone's start marker has a larger number, hash signs aside |
| `Numbering.RoadIsInOrder` | scrapers/src/validator.py:660-667 | a road's zones lie in order of start marker, or of latitude where there are none |
| `Numbering.IsNumbered` | scrapers/src/validator.py:702-708 | each zone is in the result with the ID of its road, its number and its direction |
| `Numbering.IdLooks` | scrapers/src/validator.py:646-707 | what IDs look like, in each direction |
| `Ids.NumbersAreSections` | scrapers/src/validator.py:702-706 | two zones have one number if and only if they have one section key |
| `Ids.IdDetermines` | scrapers/src/validator.py:707 | an ID determines slug, number and direction, past two digits too |
| `Ids.EveryZoneAssigned` | scrapers/src/validator.py:656-710 | every zone has a place in the result |
| `Ids.AssignedOnce` | scrapers/src/validator.py:656-710 | no zone has two, and only its ID changes |
| `Ids.RoadListIs` | scrapers/src/validator.py:660-667 | the list of a road is sorted by km, holds zones of that road only and none twice |
| `Sorting.SortOrders` | scrapers/src/validator.py:656-667 | sorting by any order leaves nothing behind what it comes before |
| `IdLoop.NumberRoad` | scrapers/src/validator.py:677-706 | the counter dictionaries give each zone the specified number |
| `IdLoop.AssignAll` | scrapers/src/validator.py:643-710 | the loops over sorted roads return the specified list |
| `Text.SplitInvertsJoin` | scrapers/src/validator.py:1060-1061 | splitting a joined source string gives the names back |
| `Seams.SeamsCoincide` | scrapers/src/validator.py:1003-1029 | where no end or start in two seams is the side that yields, every seam ends up in one point, and the side that does not yield does not move |
| `Published.BetterSideStays` | scrapers/src/validator.py:1001-1028 | for zones: a camera within 30 m, or numbered alike within 500 m, ends up in one point, where the ending zone ends if TollTracker knows it or knows neither, else where the starting zone starts |
| `Published.SurveyedCameraIsPublished` | scrapers/src/validator.py:1017-1028 | for what is published: the point is the TollTracker zone's own, where TollTracker has coordinates for the side that stays |
| `Seams.SnapMovesLittle` | scrapers/src/validator.py:1003-1029 | an endpoint moves only as part of a seam and no farther than that seam's gap |
| `Seams.SnappedGaps` | scrapers/src/validator.py:1003-1029 | afterwards two zones of a group meet exactly or are out of reach |
| `SeamLoop.SecondRunIsIdle` | scrapers/src/validator.py:980-1029 | where the seams are clear, a second run, which makes its own visits from the moved endpoints, moves nothing |
| `SharedSeams.SharedEndClosesIff` | scrapers/src/validator.py:1003-1029 | an end in reach of two starts, all else clear: both seams close if and only if the start visited second lies where the first one met the end, or is recognised there without the end yielding to it; an end that yields leaves the first seam open, its start where the end was |
| `SharedSeams.SharedStartClosesIff` | scrapers/src/validator.py:1003-1029 | a start in reach of two ends, likewise |
| `SharedSeams.SharedEndInTheLoops` | scrapers/src/validator.py:1003-1029 | the same for the visits the sorted nested loops make |
| `SharedSeams.SharedStartInTheLoops` | scrapers/src/validator.py:1003-1029 | the condition for a shared start, for the visits the sorted nested loops make |
| `SharedSeams.SharedEndDoesNotSettle` | scrapers/src/validator.py:1003-1029 | a run of the loops over three zones where a seam stays open and a second run moves it again |
| `SharedSeams.ForkIsReal` | scrapers/src/zone_schema.py:87-113 | the endpoints of that input are within the bounds the schema accepts |
| `SharedSeams.TaxicabIsMetric` | scrapers/src/validator.py:1013 | the distance of that input is a metric, so the failure is not an artefact of it |
| `SeamLoop.SnapPair` | scrapers/src/validator.py:1007-1028 | one visit writes at most one endpoint object, as specified, and no other object |
| `SeamLoop.SnapJunctionSeams` | scrapers/src/validator.py:980-1029 | grouping, sorting and the nested loops over mutable endpoints amount to the specified visits, each seeing the writes before it |
| `SeamLoop.AllVisitsAreVisits` | scrapers/src/validator.py:1001-1010 | visited are exactly the ordered pairs of located zones of one group |
| `SeamLoop.AllVisitsOnce` | scrapers/src/validator.py:1001-1010 | each of them once |
| `Alignment.AlignCenterline` | scrapers/src/validator.py:740-785 | the list surgery computes the specified line and distance |
| `Alignment.AlignedShape` | scrapers/src/validator.py:740-785 | the endpoints frame the line, every interior point is kept in order up to one reversal, a terminal too unless it was the endpoint |
| `Alignment.AlignedEnds` | scrapers/src/validator.py:780-781 | the result starts at the start and ends at the end |
| `Alignment.AlignedLength` | scrapers/src/validator.py:740-785 | the arc length changes by at most the two gaps closed |
| `Alignment.PublishedLengthMeasuresLine` | scrapers/src/validator.py:783-796 | the published length is the published line's arc length to the nearest metre, and at least one |
| `Alignment.AlignedNeverReversed` | scrapers/src/validator.py:891-900 | the reversed-centerline warning cannot fire on an aligned line |
| `Alignment.AlignIdempotent` | scrapers/src/validator.py:744 | aligning again changes nothing, distance included |
| `Alignment.PolylineLength` | scrapers/src/geo.py:38-44 | the sum over consecutive points, as the recursive length says |
| `Validation.Validate` | scrapers/src/validator.py:820-977 | the pass with its accumulators returns the specified zones and warnings |
| `Validation.NothingDroppedIff` | scrapers/src/validator.py:828-857 | nothing is dropped if and only if IDs are distinct and distances positive |
| `Validation.JunctionsWarnIff` | scrapers/src/validator.py:949-967 | a junction is reported if and only if two different kept zones leave a suspicious gap there |
| `Validation.CoverageWarnsIff` | scrapers/src/validator.py:969-972 | a required road is reported if and only if no kept zone lies on it |
| `Validation.NoPreventableWarnings` | scrapers/src/validator.py:828-946 | sound zones raise none of the four preventable warnings |
| `Warnings.WarnedIff` | scrapers/src/validator.py:820-977 | every kind of warning, and exactly for which zones it is given: twelve kinds, each in terms of the zones' own fields |
| `Warnings.KeptAre` | scrapers/src/validator.py:829-857 | kept are exactly the zones with a positive distance that are the first of their ID, in order |
| `TileEncoder.TileRoundTrip` | scrapers/src/mvt.py:138-197 | decoding the encoding of any tile of multipoints, lines and rings returns exactly its layers, extents, properties and parts |
| `TileEncoder.GzipIsTransparent` | scrapers/src/mvt.py:138-147 | a gzipped tile decodes as what it unpacks to, and fails if it does not unpack |
| `TileCodec.DecodeInvertsEncode` | scrapers/src/mvt.py:138-197 | the same for every way of writing the tile: any field interleaving, packing, shared tables, and unknown fields in tile, layers, features and values |
| `TileCodec.GeometryRoundTrip` | scrapers/src/mvt.py:100-135 | any mix of multipoints in one MoveTo, lines, and rings ended by ClosePath, with the cursor running on, decodes to a part per point, the line and the closed ring |
| `TileCodec.LineRoundTrip` | scrapers/src/mvt.py:122-127 | a LineTo with a run of deltas moves the pen through its points |
| `TileCodec.MoveRoundTrip` | scrapers/src/mvt.py:113-121 | a MoveTo with a count starts a part at each of its points |
| `TileCodec.RingRoundTrip` | scrapers/src/mvt.py:107-130 | the commands of a line and a ClosePath draw its points and the first of them again, finish the part before, and leave the cursor at the last point |
| `TileCodec.ZigzagRoundTrip` | scrapers/src/mvt.py:78-79 | zigzag decoding inverts zigzag encoding for all integers |
| `TileCodec.ValueRoundTrip` | scrapers/src/mvt.py:82-97 | a value decodes to itself, unknown fields before it notwithstanding, if and only if it is not a negative int64 |
| `TileCodec.NegativeInt64IsMisread` | scrapers/src/mvt.py:91-92 | a concrete negative int64 comes back as another number |
| `TileCodec.PropMapIsExact` | scrapers/src/mvt.py:186-189 | with distinct keys the property dictionary is exactly the list of properties |
| `TileCodec.NeverLooksGzipped` | scrapers/src/mvt.py:144-145 | no encoded tile begins with the gzip magic |
| `TileCodec.FeatureOrderIrrelevant` | scrapers/src/mvt.py:173-185 | a feature depends only on the order of its fields within each number |
| `TileCodec.LayerOrderIrrelevant` | scrapers/src/mvt.py:156-166 | so does a layer |
| `TileCodec.TileOrderIrrelevant` | scrapers/src/mvt.py:148-150 | so does the tile |
| `TileCodec.SwapKeepsProjections` | scrapers/src/mvt.py:54-75 | exchanging neighbouring fields of different numbers keeps every number's order |
| `TileCodec.UnknownKeepsProjections` | scrapers/src/mvt.py:54-75 | inserting a field of another number keeps every number's values |
| `Wire.VarintRoundTrip` | scrapers/src/mvt.py:42-51 | a varint of any size followed by anything is read back, with the rest left over |
| `Wire.MessageRoundTrip` | scrapers/src/mvt.py:54-75 | a message of fields of the four supported wire types is read back field by field |
| `Wire.PackRoundTrip` | scrapers/src/mvt.py:175-178 | a packed list of varints is read back |
| `Wire.ReadVarint` | scrapers/src/mvt.py:42-51 | the loop over position and shift reads what the recursive reader takes, running off the end included |
| `Wire.ReadFields` | scrapers/src/mvt.py:54-75 | the field loop reads what the recursive reader takes, truncated payloads and bad wire types included |
| `VectorTile.DecodeValue` | scrapers/src/mvt.py:82-97 | the first known field decides, and nothing after it is read |
| `VectorTile.DecodeGeometry` | scrapers/src/mvt.py:100-135 | the command loop draws the specified parts or fails where the list runs out |
| `VectorTile.DecodeFeature` | scrapers/src/mvt.py:169-194 | one feature, tags out of range being an error |
| `VectorTile.DecodeLayer` | scrapers/src/mvt.py:151-196 | one layer, keys and values gathered before features |
| `VectorTile.Decode` | scrapers/src/mvt.py:138-197 | the whole tile, later layers of one name replacing earlier ones |
| `Stitch.StitchRecoversLine` | scrapers/src/tolltracker_fetcher.py:157-209 | for windows of a line with well separated vertices, the result is that line and complete if and only if every edge is covered, whatever order and duplicates |
| `Stitch.StitchFollowsLine` | scrapers/src/tolltracker_fetcher.py:157-209 | for pieces whose points are off the line's vertices by up to half the join distance: the result follows the line as closely, and follows all of it, and is complete, if and only if some piece follows it between any two vertices |
| `Stitch.StitchedWindow` | scrapers/src/tolltracker_fetcher.py:179-202 | in any case the result is a window of the line |
| `Stitch.StitchPieces` | scrapers/src/tolltracker_fetcher.py:157-209 | the worklist loops return the specified result and terminate because a productive pass shrinks the list |
| `Stitch.OnePass` | scrapers/src/tolltracker_fetcher.py:191-202 | one pass over a copy of the list, removing attached pieces, computes the specified pass |
| `Stitch.AttachRun` | scrapers/src/tolltracker_fetcher.py:192-202 | of two runs of vertices, one that holds the other's last vertex and goes on extends it at the end; else one that begins before its first vertex and holds it extends it at the front; else nothing is attached; which vertex a point is, is told by the join distance |
| `Samplers.ResamplePolyline` | qa/geo.py:68-91 | emitted are the start and exactly the multiples of the step before the end |
| `Samplers.SampleRoute` | qa/feed_zone.py:109-121 | sampled are the start and exactly the multiples of the step up to the end |
| `Samplers.BuildRoute` | qa/feed_zone.py:80-130 | approach points, samples, and the end unless the last sample is that very point; too short a line is an error |
| `Samplers.MarksBelowAreAll` | qa/geo.py:75-91 | membership in the samples, both directions |
| `Samplers.RouteIsSamplesThenEnd` | qa/feed_zone.py:122-125 | the route is the samples followed by the end if and only if the end is a multiple of the step or its point is not that of the last sample |
| `Samplers.ClosedLineLosesEnd` | qa/feed_zone.py:122-130 | a line shorter than a step that comes back to its start loses its end and is refused |
| `Samplers.RefusedIff` | qa/feed_zone.py:109-128 | a route is refused if and only if the line is shorter than a step and ends in the point where it starts |
| `Samplers.ApproachLeadsIn` | qa/feed_zone.py:126-140 | the approach comes up to the start in four steps |
| `Samplers.OutAndBackLosesEnd` | qa/feed_zone.py:122-125 | such a line: five metres out and back |
| `Samplers.SamplersAgree` | qa/geo.py:68-91 | the three samplers visit the same positions before the end |
| `Samplers.FixesStayAtEnd` | qa/screenshots/sequencer.py:110-128 | from the end on the walker stays there |
| `Samplers.Walker.Advance` | qa/screenshots/sequencer.py:110-128 | the cursor that overwrites its vertex moves forward by the distance asked, never past the end, and leaves the vertices ahead alone |
| `Samplers.WalkedTwice` | qa/screenshots/sequencer.py:110-128 | walking two distances is walking their sum |
| `Samplers.WalkedTwiceIff` | qa/screenshots/sequencer.py:112-113 | away from the end the sum rule holds if and only if the distances do not have opposite signs |
| `Samplers.DriveSteady` | qa/screenshots/sequencer.py:167-187 | the k-th fix lies at the smaller of k steps and the end |
| `Samplers.PolylineLengthM` | qa/geo.py:60-65 | the summed segments are the position of the last vertex |
| `Drive.PlansStaySorted` | qa/drive.py:76-124 | any composition of slices, dropouts, stops and compressions keeps both timelines sorted |
| `Drive.StopSortedIff` | qa/drive.py:104-124 | one stop does so if and only if it does not pull what follows back before the anchor |
| `Drive.StopLengthensIff` | qa/drive.py:104-124 | a stop lengthens the drive by its duration if and only if it is not at the last point or its ticks divide the duration |
| `Drive.LastStopFallsShort` | qa/drive.py:104-124 | a stop of 11 ms at the last point lengthens the drive by 10 ms: an input for the condition above |
| `Drive.StopKeepsPoints` | qa/drive.py:104-124 | every original point is kept, in order, those after the stop later by its duration |
| `Drive.StopHoldsPosition` | qa/drive.py:112-117 | the points added stand at the anchor |
| `Drive.StopHoldsEvenly` | qa/drive.py:113-117 | the points added are evenly spaced, five to nine of them for a stop of five milliseconds or more |
| `Drive.StopKeepsSimRate` | qa/drive.py:67-75 | after a stop the simulated clock is later by what it gains at the plan's own rate, compressed plans included |
| `Drive.StopKeepsUncompressed` | qa/drive.py:67-74 | a stop in an uncompressed plan takes as long on both clocks |
| `Drive.ClosestIsFirstMinimum` | qa/drive.py:110 | the anchor is the first of the points closest in time |
| `Drive.SliceIsWindow` | qa/drive.py:87-94 | a slice holds exactly the points of its window, rebased on both clocks |
| `Drive.DropoutMember` | qa/drive.py:96-102 | a dropout loses exactly the points strictly inside the gap |
| `Drive.CompressionsMultiplyIff` | qa/drive.py:76-85 | for any two factors, compressing by one and then the other is compressing by their product if and only if no time divided by the first is truncated back over a multiple of the second |
| `Drive.CompressionsMultiply` | qa/drive.py:76-85 | so it is whenever the second factor is whole, whatever the first |
| `Drive.FractionalCompressionsDiffer` | qa/drive.py:82 | and it need not be when the second is not, even after a whole first one: a concrete plan |
| `DriveFeed.Pump.Feed` | qa/drive.py:189-244 | one call feeds the specified fixes up to an abort and remembers the last stamp fed |
| `DriveFeed.Survey` | qa/drive.py:212-230 | the loop with its running course computes speed and course of every fix |
| `DriveFeed.CompressionIsInvisible` | qa/drive.py:76-85 | a compressed plan is fed with the positions, speeds, courses and stamp differences of the plan itself |
| `DriveFeed.StampsOverCalls` | qa/drive.py:231-242 | over any calls, aborted ones included, a fix of a later call is stamped at least a second after any fix of an earlier one |
| `DriveFeed.StampsOfCall` | qa/drive.py:231-242 | within a call stamps never go back |
| `DriveFeed.StampsStartNow` | qa/drive.py:229-242 | the first stamp of a call is the wall clock's time or a second after the last stamp, whichever is later, and the others follow the simulated clock from there |
| `DriveFeed.FedUntilAbort` | qa/drive.py:231-242 | all points are fed, or those before the abort, in order |
| `DriveFeed.TransformedStampsRise` | qa/drive.py:76-244 | a sorted plan compressed, cut, thinned and stopped in any way is stamped in order, a second after all that came before |
| `DriveFeed.MovingFixHeadsAlong` | qa/drive.py:215-226 | a moving fix heads along its hop, at the speed that covers it in simulated time |
| `DriveFeed.StandingFixKeepsCourse` | qa/drive.py:215-226 | a standing fix keeps the course before it |
| `DriveFeed.LeadingFixesHeadAlong` | qa/drive.py:227-230 | fixes before the first moving hop already head along it |
| `DriveFeed.HopDecides` | qa/drive.py:214-224 | from one metre on a hop tells the course; one the clock does not advance over has no speed |
| `DriveFeed.LastFixGoesOn` | qa/drive.py:221-223 | the last fix has speed and course of the one before |
| `DriveFeed.StandingPlanHeadsNorth` | qa/drive.py:224-227 | a plan that covers no metre heads north throughout |
| `AverageSpeed.ObedientDriverIsWithinLimit` | ios/Packages/SrednaBGCore/Sources/SrednaBGCore/AverageSpeedCalc.swift:35-65 | over any number of ticks and stops, a driver who never exceeds the shown maximum takes at least the legal time, so is not over the limit at the end |
| `AverageSpeed.SafeIff` | ios/Packages/SrednaBGCore/Sources/SrednaBGCore/AverageSpeedCalc.swift:46-57 | this is so if and only if the limit is positive |
| `AverageSpeed.ShownAtLeastLimitIff` | ios/Packages/SrednaBGCore/Sources/SrednaBGCore/AverageSpeedCalc.swift:40-57 | with time and distance left, the shown maximum is at least the limit if and only if the average is at most the limit and the limit within the cap |
| `AverageSpeed.ShownMaximumIsExact` | ios/Packages/SrednaBGCore/Sources/SrednaBGCore/AverageSpeedCalc.swift:50-57 | driving the rest at the uncapped maximum ends with an average of exactly the limit |
| `AverageSpeed.OverrideIsTheRest` | ios/Packages/SrednaBGCore/Sources/SrednaBGCore/AverageSpeedCalc.swift:27-40 | a distance left that is known from elsewhere replaces the difference in what is shown of the rest, and changes neither average nor time |
| `AverageSpeed.ShownCoversTheRest` | ios/Packages/SrednaBGCore/Sources/SrednaBGCore/AverageSpeedCalc.swift:38-53 | the shown maximum covers the distance left in the time left, or is the cap; it is zero when nothing is left, and the cap when no time is |
| `AverageSpeed.NoLimitNoTime` | ios/Packages/SrednaBGCore/Sources/SrednaBGCore/AverageSpeedCalc.swift:42-51 | without a positive limit there is no time left and the cap is shown |
| `PublishLoop.TargetDir.PublishRun` | scrapers/src/output.py:406-432 | refuse or guard all feeds and then write all: the outcome is the specified one |
| `Publish.ServedFeedStaysConsistent` | scrapers/src/output.py:274-317 | over any series of runs a feed once served has a version file with the hash of its zones file, after every later run |
| `Publish.ReplacedPayloadIsKept` | scrapers/src/output.py:289-290 | each accepted run of a series that changes a feed's hash leaves the replaced payload as that feed's newest snapshot |
| `Publish.ReplacedPayloadLasts` | scrapers/src/output.py:284-310 | over any series of runs, the payload a run replaced is in its snapshot, byte for byte, exactly while fewer than 26 later runs have replaced that feed's payload |
| `Series.KeptIffHashChanged` | scrapers/src/output.py:284-290 | between two runs that write a feed, the second keeps the first one's payload if and only if the hashes differ |
| `Publish.SameHashAddsNothing` | scrapers/src/output.py:284-290 | an unchanged hash adds nothing to the history |
| `Publish.FewSnapshotsRemain` | scrapers/src/output.py:308-310 | no more than 26 snapshots of a served feed remain |
| `Publish.RotationKeepsNewest` | scrapers/src/output.py:308-310 | rotation keeps all or exactly 26, and whatever it drops is older than whatever it keeps |
| `Publish.RefusedRunChangesNothing` | scrapers/src/output.py:211-231 | one feed's guard leaves every file of every feed alone |
| `Publish.AcceptedCounts` | scrapers/src/output.py:193-206 | no accepted run publishes fewer than 50 zones or less than 0.7 of the count served before, on any feed |
| `Series.AcceptedIff` | scrapers/src/output.py:182-232 | a run is accepted if and only if feeds are well declared and every served feed has zones enough, no required road missing, no collapse and nothing a client could not read |
| `Series.RefusedForIff` | scrapers/src/output.py:182-232 | what a run is refused for is exactly what holds against the payload of some served feed: too few zones, a drop, a missing road, something a client could not read |
| `Publish.RunFrame` | scrapers/src/output.py:259-317 | a run touches no file that no served feed owns |
| `Publish.RunIsWriteFeed` | scrapers/src/output.py:259-271 | to its own files, writing all feeds is writing the one feed: no feed influences another |
| `Publish.WriteFeedIsLive` | scrapers/src/output.py:292-306 | a written feed's files tell of the same payload |
| `PublishLoop.TargetDir.Rotate` | scrapers/src/output.py:308-310 | unlinking the tail of the sorted list is rotation as defined by counting newer snapshots |
| `Publish.ReadersFindWholeFiles` | scrapers/src/output.py:139-147 | whoever reads while a feed is written, partly written temporaries and copies included, finds the old or the new zones file and the old or the new version file, each whole, and never a new version beside old zones |
| `PublishLoop.TargetDir.AtomicWrite` | scrapers/src/output.py:139-147 | between writing the temporary and the rename the directory differs in the temporary only; then the target is written and no temporary left |
| `PublishLoop.TargetDir.WriteFeedFiles` | scrapers/src/output.py:274-317 | one feed's files written as specified, every state in between being one that readers are promised |
| `Feeds.FeedsAreDisjoint` | scrapers/src/feeds.py:71-99 | whatever their numbers, two feeds share no file name, temporaries and snapshot globs included |
| `Feeds.SnapshotIsNotLive` | scrapers/src/feeds.py:93-99 | a snapshot glob never matches a live file of any feed |
| `Feeds.SnapshotsSortByTime` | scrapers/src/feeds.py:89-90 | snapshot names sort as their timestamps do |
| `Feeds.ServedIs` | scrapers/src/feeds.py:132-150 | served are exactly the declared feeds not retired, each once, ascending, all with a projection |
| `Feeds.ServedIff` | scrapers/src/feeds.py:132-148 | there are feeds to serve if and only if every declared feed has its own number, some is not retired, and each of those has a projection |
| `Feeds.IsSnapshotIff` | scrapers/src/feeds.py:93-99 | snapshots are exactly what the feed's own glob matches |
| `Feeds.NamesLook` | scrapers/src/feeds.py:60-90 | what the file names of the first two feeds look like |
| `LogObserver.QueueIsMeaning` | qa/log_observer.py:117-168 | for every stream of lines and clears, the queue holds what the lines since the last clear mean: a crash exactly where a line first names the package within six lines of the latest marker without it |
| `LogObserver.LineCounts` | qa/log_observer.py:152-179 | a marker that names the package is a crash, one that does not opens the scan, any other line counts only if it names the package |
| `LogObserver.RecentIsLastSinceClear` | qa/log_observer.py:129-133 | recent lines are the last ones handled since the last clear |
| `LogObserver.CountsSurviveClear` | qa/log_observer.py:188-196 | event counts cover all lines ever handled |
| `LogObserver.SamplesAreFirst` | qa/log_observer.py:125-126 | samples are the first unparsed lines ever handled, up to the maximum |
| `LogObserver.ScanIs` | qa/log_observer.py:151-165 | what the counter and the remembered marker stand for |
| `LogObserver.Observer.HandleLine` | qa/log_observer.py:117-127 | one line through all three steps, in place |
| `LogObserver.Observer.MaybeEmitCrash` | qa/log_observer.py:142-168 | the crash scan on its fields |
| `LogObserver.Observer.Clear` | qa/log_observer.py:188-196 | clearing empties queue and recent lines and nothing else |
| `Cdata.WrapRoundTrip` | qa/report.py:61-65 | for every text, reading the output as consecutive CDATA sections (section 2.7 of XML 1.0) consumes it all and gives the text back |
| `Cdata.PlainIff` | qa/report.py:61-65 | a text is written as it stands if and only if it holds no section end |

## Left out

- Trigonometry, projections, bearings and destination points: parameters or arc length.
- Floating point: a sample that should hit the end exactly may miss it by rounding, and
  a score or distance comparison may tip.
- Gzip, UTF-8, the bytes of floats, SHA-256, JSON and schema validation: opaque functions
  and values. A negative feed number, refused when the manifest is read, is not modelled.
- Which exception is raised, and log messages other than validation warnings.
- The bitwise or in the varint reader is a sum of groups weighted by their position, which
  is the same number because the groups do not overlap.
- That the field reader is a lazy generator: only the value decoder stops reading early,
  and it is modelled so; everywhere else the source reads the whole message.
- Matches are values in a sequence that the loops update, not shared objects; nothing else
  holds a reference to them.
- The date stamped on merged zones, the merge's warnings about overridden limits and the
  alignment's warnings about large gaps.
- OSM zones: the stage is modelled, but a later OSM zone replaces an earlier one on the
  same match, so no count of them is claimed. The source is disabled upstream.
- MatchOrder.GroupingIrrelevant: does not say which OSM zone a match carries, because an OSM
  zone goes to the first match it fits in list order, which grouping changes.
- Merging.MergeIgnoresLayout: asks that a source turned round is answered by the same tier
  of the orientation test (coordinates, settlements, km markers) and that this tier can tell
  the two ways apart. A source that knows one end only can be answered by different tiers,
  with unrelated answers (Merging.OneSidedSourceIsNotTurnedBack).
- Layout.PublishedIgnoresLayout: asks the same of every exchanged zone, and that it says as
  much of both ends, because matching looks at the start alone to see what is known.
- Orienting.PartsLieAtTheirEnds: asks for coordinates on both sides and a TollTracker or KML
  primary. A source without them is placed by settlements or km markers, which
  Orienting.SourcesRunAlong states for every source.
- Numbering.SameBandIff: asks that a formatted km value holds no dash; km values are not
  negative. Numbering.NumbersFollowKm: asks that no section key holds a hash sign.
- Stitch.StitchFollowsLine: every point of a piece is near some vertex of the line; points a
  tile border adds in between are not covered.
- Recovery when a run is killed between the two files of a feed. What a reader finds in
  between is covered (Publish.ReadersFindWholeFiles).
- SharedSeams.SharedEndClosesIff: one shared side, in two seams, with clear seams everywhere
  else and nothing else within four times the reach of it; so too for a shared start. Chains
  of shared sides that yield are not followed.
- The single-file and realign modes of the publisher, scraping, fetching, notification.
- `build_route`'s choice of direction, which is the comparison alignment makes.
- Stitch.StitchPieces: asks for at least one piece and for pieces with points, as its caller
  provides; the source fails with an index error otherwise.
- Merging a match without zones, which the source refuses: matching never makes one
  (Matching.MatchesConserve).
- Plan names, GPX parsing, synthetic drives, and waiting for the wall clock in the pump
  and in steady driving.
- 64-bit wrap-around of timestamps in the average-speed calculation.
- Threads and locks of the log observer; draining its queue between lines.
- The zone detector, the Kalman filter and data recency: not part of this model.
- Alias tables, number spelling, argument parsing and report layout: finite or easy.
