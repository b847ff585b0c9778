# Homelab verification

A Dafny model of the parts of this homelab repository that hold real algorithms and protocols,
with proofs of what they promise. `dafny verify dfyconfig.toml` checks everything.

Each module follows one piece of the repository. Loops that change things step by step are
methods proved against a specification; the properties are lemmas about that specification.

| modules | what they model |
|---|---|
| `YotoPrep`, `YotoMerge`, `YotoCards`, `YotoFewest`, `YotoUneven`, `YotoLabels` | cutting an audiobook into Yoto tracks and cards: even subdivision, greedy merge, midpoint split, search for a card count, and when the cards are the fewest |
| `YotoServer`, `YotoDownload` | planning a book from several sources, and streaming a card as a ZIP |
| `WineryQuality`, `WineryProtocol`, `WineryInvariant`, `WineryLimits`, `WineryArchive` | the winery history archive as a transition system: collector and backup, interleaved, crashing anywhere |
| `TomlLines`, `TomlEdit`, `TomlMerge`, `TomlFixpoint`, `TomlSurvival` | the TOML editor: lines, their meaning as lookups, the edit in place, editing again, and what becomes of each line |
| `WhatsappPolls`, `WhatsappResults` | poll options, the vote log and the views over them |
| `WhatsappArchive`, `WhatsappLifecycle`, `WhatsappFeeds` | the message table with its triggers, the life of a row over every interleaving, and the feeds that write it |
| `AudiobookScan`, `AudiobookFill`, `AudiobookChapters`, `AudiobookBook` | choosing chapter boundaries in a recording |
| `Chunker` | overlapping transcript chunks |
| `CalibreBridge` | the import of ebooks into Calibre with receipts and a pending scan |
| `MarkdownBlock` | one managed block in a Markdown file |
| `SilenceScan` | silent stretches in decoded audio |
| `Seqs`, `Options` | sequences, sums and optional values used by the others |

## What the proofs found

Most promises hold on all inputs. These do not, or only under a condition, and each has a lemma
with a concrete input, an exact condition, or both:

* `pack_cards` does not always find the fewest cards. The midpoint split at the least count can put
  too much on one card although another cut fits: seventeen ordinary tracks get at least four cards
  instead of three (`YotoUneven.UnevenIsNotMinimal`). With at most 100 tracks, or with any number in a
  book that is long against its longest track, the cards are the fewest exactly when the even split
  into as many cards as filling them in turn takes fits (`YotoFewest.FewestIff`,
  `YotoFewest.FewestIffLong`), which is always so for books of one or two cards
  (`YotoFewest.TwoCardsAreFewest`). With 201 tracks the cards can be the fewest although that split
  does not fit (`YotoUneven.HollowIsFewest`). And more than a hundred very short tracks followed by long ones
  fall back to one card per track (`YotoCards.ShortLeadFallsBack`, `YotoCards.FallbackIsNotMinimal`).
* `merge_segments` measures the sum of durations, so a sub-second sliver dropped between chapters
  lets a track exceed 58 minutes, by strictly less than a second (`YotoMerge.MergeNearlyLegal`,
  `YotoMerge.SliverOverruns`).
* The winery archive can hold a chunk from an uncommitted first run and, after it, a hole that no gap
  file records (`WineryLimits.UnrecordedHole`; exactly when: `WineryLimits.EarliestChunkCovered`).
* A gap file rewritten within the same hour, with a backup in between, stops every later backup
  (`WineryLimits.WedgeReachable`, `WineryLimits.WedgedForever`). Archive and destination agree all
  along exactly when no run rewrites, at another time, a gap already copied (`WineryLimits.AgreeIff`).
* The TOML edit stops with an index error on a text left without lines when the first thing to do
  is to add a root key (`TomlEdit.MergeFails`).
* When a managed section is also a removed table, a second TOML edit can move a table
  (`TomlFixpoint.RemovedAndManagedMoves`) or add a blank line (`TomlFixpoint.RemovedAndManagedSpaces`);
  exactly when: `TomlFixpoint.SecondEditIff`. A third edit never changes anything
  (`TomlFixpoint.ThirdEditChangesNothing`).
* A late download failure overwrites the status ok of a message whose media the backup has
  attached (`WhatsappLifecycle.OkLostIff`, `WhatsappLifecycle.LateFailureOverwritesOk`).
* Two different selections of one voter in the same second make the poll log depend on the order
  of arrival (`WhatsappResults.OrderFreeIff`).
* A vote that arrives before its poll keeps its hash and is never counted
  (`WhatsappResults.EarlyVoteIsNotCounted`; exactly when: `WhatsappPolls.LoggedAsMeantIff`).
* A single-title audiobook is refused when "chapter two" is heard (`AudiobookBook.SingleTitle`), and
  a first boundary within half a millisecond rounds to zero (`AudiobookBook.AdvancesIff`); a last
  chapter that begins at the rounded end is empty (`AudiobookBook.EachLastsIff`).

## Model

| member | source | states |
|---|---|---|
| `YotoPrep.CountParts` | modules/nixos/services/yoto-share/yoto-prep.py:110-114 | the count of equal parts is the smallest that brings every part within both track limits; the loop ends for every segment and rate |
| `YotoPrep.CutEvenly` | modules/nixos/services/yoto-share/yoto-prep.py:118-122 | the parts tile the segment exactly, all equally long, titled part p of n |
| `YotoPrep.Subdivide` | modules/nixos/services/yoto-share/yoto-prep.py:110-122 | one segment becomes the fewest equal legal parts; itself if one is enough |
| `YotoPrep.CollectRaw` | modules/nixos/services/yoto-share/yoto-prep.py:90-106 | exactly the chapters that last a second once clipped to the file are kept, clipped, titled and in their order; when there is none, half-hour slices |
| `YotoPrep.RawPositive` | modules/nixos/services/yoto-share/yoto-prep.py:90-106 | of a file of positive duration every kept chapter or slice is non-empty and ends within the file |
| `YotoPrep.BuildSegments` | modules/nixos/services/yoto-share/yoto-prep.py:88-123 | the tracks are, in order, the even division of each kept chapter or slice |
| `YotoPrep.SlicesTile` | modules/nixos/services/yoto-share/yoto-prep.py:100-106 | without a usable chapter the slices tile the file, each non-empty and at most half an hour |
| `YotoPrep.FewestParts` | modules/nixos/services/yoto-share/yoto-prep.py:110-122 | no division of a segment into legal tracks, even or uneven, has fewer pieces |
| `YotoPrep.BuildConserves` | modules/nixos/services/yoto-share/yoto-prep.py:109-123 | subdividing conserves the total duration |
| `YotoPrep.BuildFits` | modules/nixos/services/yoto-share/yoto-prep.py:109-123 | every track meets the seconds and the bytes limit |
| `YotoPrep.BuildPositive` | modules/nixos/services/yoto-share/yoto-prep.py:88-123 | no track of a file of positive duration is empty |
| `YotoPrep.BuildTiles` | modules/nixos/services/yoto-share/yoto-prep.py:109-123 | when the kept chapters tile a span, so do the tracks |
| `YotoMerge.MergeSegments` | modules/nixos/services/yoto-share/yoto-prep.py:126-151 | the result is an order-preserving grouping; every group passes the gluing test throughout and no group could have taken the chapter after it |
| `YotoMerge.StaysAhead` | modules/nixos/services/yoto-share/yoto-prep.py:137-148 | the j-th greedy group begins no earlier than the j-th group of any grouping that passes the gluing test |
| `YotoMerge.MergeIsOptimal` | modules/nixos/services/yoto-share/yoto-prep.py:126-151 | no grouping whose groups pass the gluing test has fewer tracks |
| `YotoMerge.FewestTracks` | modules/nixos/services/yoto-share/yoto-prep.py:126-151 | on contiguous chapters no order-preserving grouping into legal tracks has fewer tracks |
| `YotoMerge.MergeNearlyLegal` | modules/nixos/services/yoto-share/yoto-prep.py:141-145 | merged tracks of legal chapters stay strictly below 58 minutes and one second, and are legal when no sliver is missing between chapters |
| `YotoMerge.MergedNearlyLegal` | modules/nixos/services/yoto-share/yoto-prep.py:141-145 | the excess of one merged track comes only from the sliver before its last chapter |
| `YotoMerge.SliverOverruns` | modules/nixos/services/yoto-share/yoto-prep.py:141-150 | the excess is real: two legal chapters with half a second missing between them are always merged, into one track of 58 minutes and half a second |
| `YotoMerge.MergedTiles` | modules/nixos/services/yoto-share/yoto-prep.py:135-151 | tracks that tile a span still tile it after merging, with the same total duration |
| `YotoCards.SplitEvenly` | modules/nixos/services/yoto-share/yoto-prep.py:154-171 | the loop computes the split by midpoints with the monotonicity clamp, empty cards dropped |
| `YotoCards.EvenSplitConserves` | modules/nixos/services/yoto-share/yoto-prep.py:154-171 | at most n cards, none empty, whose concatenation is the input |
| `YotoCards.ClampNeverFires` | modules/nixos/services/yoto-share/yoto-prep.py:164-170 | with non-negative durations the clamp changes no slot, and slots never go back |
| `YotoCards.RunBalanced` | modules/nixos/services/yoto-share/yoto-prep.py:160-170 | consecutive segments on one card last at most total / n plus the longest segment |
| `YotoCards.EvenSplitBalanced` | modules/nixos/services/yoto-share/yoto-prep.py:154-171 | each card lasts at most total / n plus the longest single segment |
| `YotoCards.MinimumCount` | modules/nixos/services/yoto-share/yoto-prep.py:184-191 | the first count tried is the least that covers the seconds, the bytes and the track limits on average |
| `YotoCards.SearchCount` | modules/nixos/services/yoto-share/yoto-prep.py:192-203 | every smaller count tried has a card that does not fit; the result is the first split that fits, or one card per track |
| `YotoCards.PackCards` | modules/nixos/services/yoto-share/yoto-prep.py:174-203 | the packed cards are the result of that search from the least count, under the three card limits |
| `YotoCards.SearchedLegal` | modules/nixos/services/yoto-share/yoto-prep.py:192-203 | whatever the search returns holds all items in order, and every card fits if single items do |
| `YotoCards.PackedLegal` | modules/nixos/services/yoto-share/yoto-prep.py:174-203 | packing ends in non-empty cards that hold the tracks in order, and they are all legal exactly when each track alone fits a card; on the fallback as well |
| `YotoCards.TrackFitsCard` | modules/nixos/services/yoto-share/yoto-prep.py:174-203 | a track within the track limits fits a card of its own, at every rate |
| `YotoFewest.MergedPackedLegal` | modules/nixos/services/yoto-share/yoto-prep.py:297-300 | cards of merged tracks are legal too, slivers included, at every rate up to 405 MiB a second, and at any rate when no sliver is missing |
| `YotoFewest.BuiltPackedLegal` | modules/nixos/services/yoto-share/yoto-prep.py:297-300 | without merging, from any chapters and at any rate, the cards are legal and non-empty, hold all tracks in order and last as long as the kept chapters |
| `YotoCards.LegalNeedsCount` | modules/nixos/services/yoto-share/yoto-prep.py:187-191 | any grouping into legal cards has at least the first count tried |
| `YotoCards.FirstFitIsMinimal` | modules/nixos/services/yoto-share/yoto-prep.py:187-201 | when the first count tried fits, no legal grouping has fewer cards |
| `YotoFewest.FillCountIsLeast` | modules/nixos/services/yoto-share/yoto-prep.py:174-180 | filling the cards in turn gives legal cards, and no legal grouping of the tracks has fewer: the count the fewest is measured by |
| `YotoFewest.FewestIff` | modules/nixos/services/yoto-share/yoto-prep.py:174-203 | with at most 100 tracks, three of which fit a card, the packed cards are the fewest possible exactly when the even split into as many cards as filling them in turn takes fits |
| `YotoFewest.FewestIffLong` | modules/nixos/services/yoto-share/yoto-prep.py:174-203 | the same equivalence for any number of tracks, when the book lasts longer than f times f + 1 of its longest track, f being the count that filling the cards in turn takes |
| `YotoFewest.FewestIf` | modules/nixos/services/yoto-share/yoto-prep.py:174-203 | with any number of tracks that split fitting is enough for the fewest cards |
| `YotoFewest.OnlyThen` | modules/nixos/services/yoto-share/yoto-prep.py:174-203 | and necessary whenever the search ends on a split of which no card is empty, or at its first count |
| `YotoFewest.TracksArePackable` | modules/nixos/services/yoto-share/yoto-prep.py:110-122 | three tracks within the track limits always fit a card, so the above holds for every built book |
| `YotoFewest.BuiltArePackable` | modules/nixos/services/yoto-share/yoto-prep.py:88-123 | the tracks built from any file of positive duration meet that premise at every rate |
| `YotoFewest.MergedArePackable` | modules/nixos/services/yoto-share/yoto-prep.py:126-151 | so do merged tracks, slivers included, at every rate up to 71 MiB a second |
| `YotoFewest.RoomyFirstIsFewest` | modules/nixos/services/yoto-share/yoto-prep.py:187-201 | with at most 100 tracks the cards are the fewest whenever the even share at the first count plus the longest track fits a card |
| `YotoFewest.TwoCardsAreFewest` | modules/nixos/services/yoto-share/yoto-prep.py:154-203 | with at most 100 tracks a book that fits one or two legal cards gets no more than it needs, because the midpoint cut is the one nearest to half the total |
| `YotoFewest.NearestCut` | modules/nixos/services/yoto-share/yoto-prep.py:160-170 | at any other cut in two one card is at least as long as both cards of the midpoint cut |
| `YotoFewest.NoCardEmpty` | modules/nixos/services/yoto-share/yoto-prep.py:160-171 | the split leaves no card empty when no track is longer than an even share |
| `YotoUneven.UnevenIsNotMinimal` | modules/nixos/services/yoto-share/yoto-prep.py:174-203 | seventeen legal tracks that fit three legal cards, the first count tried, but always get at least four |
| `YotoUneven.HollowIsFewest` | modules/nixos/services/yoto-share/yoto-prep.py:174-203 | without either bound the equivalence fails: 201 tracks, three of which fit a card, whose cards are the fewest possible although the even split at the filled count does not fit |
| `YotoCards.PackStopsWhenRoomy` | modules/nixos/services/yoto-share/yoto-prep.py:192-203 | with at most 100 tracks the search stops no later than at the first count whose even share plus the longest track fits a card |
| `YotoCards.PackNeverFallsBack` | modules/nixos/services/yoto-share/yoto-prep.py:192-203 | with at most 100 tracks, none more than half a card, the fallback is never used |
| `YotoCards.ShortLeadFallsBack` | modules/nixos/services/yoto-share/yoto-prep.py:192-203 | more than 100 leading tracks that together last at most one even share always force one card per track |
| `YotoCards.FallbackIsNotMinimal` | modules/nixos/services/yoto-share/yoto-prep.py:174-203 | a concrete book that gets 202 cards although 103 legal cards would hold it: the promised fewest cards fail there |
| `YotoServer.RateSources` | modules/nixos/services/yoto-share/server.py:181-192 | each source gets its byte rate and the rate scaled to decimal megabytes; refused exactly when some duration is not positive |
| `YotoServer.CollectTracks` | modules/nixos/services/yoto-share/server.py:179-199 | the tracks are those of every source in order, with bytes estimated at the source's own rate |
| `YotoServer.PlanBook` | modules/nixos/services/yoto-share/server.py:170-214 | a plan exists exactly when all durations are positive, and is the search from the least count over the collected tracks |
| `YotoServer.ScaledFit` | modules/nixos/services/yoto-share/server.py:190-192 | meeting the binary limit at the scaled rate means meeting 95 decimal megabytes at the real rate |
| `YotoServer.BookTracksLegal` | modules/nixos/services/yoto-share/server.py:190-199 | every planned track is within 58 minutes and 95 decimal megabytes |
| `YotoServer.PlanLegal` | modules/nixos/services/yoto-share/server.py:202-212 | every planned card is non-empty and within 100 tracks, five hours less ten seconds and 490 megabytes, and the cards hold all tracks in order |
| `YotoServer.PlanIsMinimal` | modules/nixos/services/yoto-share/server.py:202-212 | when the first count fits, no legal grouping of the tracks has fewer cards |
| `YotoServer.WholeFileConserved` | modules/nixos/services/yoto-share/server.py:193-199 | a source planned as one chapter keeps its whole duration, tiled by its tracks |
| `YotoLabels.CardLabel` | modules/nixos/services/yoto-share/yoto-prep.py:67-74 | the loop writes index + 1 in bijective base 26 |
| `YotoLabels.ValueOfLetters` | modules/nixos/services/yoto-share/yoto-prep.py:67-74 | reading a label back gives its index |
| `YotoLabels.LettersOfValue` | modules/nixos/services/yoto-share/yoto-prep.py:67-74 | every row of letters is the label of the number it reads as |
| `YotoLabels.LabelsAreUnique` | modules/nixos/services/yoto-share/yoto-prep.py:67-74 | no two cards share a label |
| `YotoDownload.ZipBuffer.Write` | modules/nixos/services/yoto-share/server.py:226-228 | appends to what is pending |
| `YotoDownload.ZipBuffer.Drain` | modules/nixos/services/yoto-share/server.py:230-233 | hands over everything pending and leaves nothing |
| `YotoDownload.SendTrack` | modules/nixos/services/yoto-share/server.py:270-277 | a track is sent as one entry with its data in order, or the client holds a beginning of the archive without directory |
| `YotoDownload.SendTracks` | modules/nixos/services/yoto-share/server.py:252-278 | all tracks are sent and within the limits, or the download ends; running totals refuse nothing the whole card allows |
| `YotoDownload.WithinCardPrefix` | modules/nixos/services/yoto-share/server.py:264-269 | a card within the limits has only prefixes within them |
| `YotoDownload.CardZip` | modules/nixos/services/yoto-share/server.py:236-289 | the client gets the central directory exactly at the end of the complete archive of a card within all limits, never after a failure; undisturbed, the download finishes exactly when the card is within the limits |
| `WineryQuality.InspectHistory` | scripts/winery-history.py:102-127 | accepts exactly the histories with one valid, ordered, zoned series per entity, and then counts records and unavailable records of every entity |
| `WineryQuality.InspectSeries` | scripts/winery-history.py:115-122 | a series passes exactly when every point is of its entity, has a text state and a zoned time, and times never go back |
| `WineryInvariant.StepKeepsInv` | scripts/winery-history.py:130-202 | every durable write, listing, copy and crash of either process keeps the archive invariant |
| `WineryInvariant.CollectKeepsInv` | scripts/winery-history.py:130-173 | the collector's own steps and crash keep it |
| `WineryInvariant.BackupKeepsInv` | scripts/winery-history.py:176-202 | the backup's own steps and crash keep it, wherever they fall |
| `WineryInvariant.RunKeepsInv` | scripts/winery-history.py:130-202 | so does every run of both, interleaved in any way; and between its ends nothing stored is lost |
| `WineryInvariant.NothingIsLost` | scripts/winery-history.py:130-202 | between any two points of a run no chunk is overwritten, no gap or copy vanishes and neither checkpoint goes back |
| `WineryInvariant.ArchiveCovers` | scripts/winery-history.py:130-173 | every instant from the first committed start to the checkpoint is in a stored valid chunk or a recorded gap, and the checkpoint's digest is its chunk's |
| `WineryInvariant.BackupCovers` | scripts/winery-history.py:176-202 | whenever the destination holds a checkpoint, its own true copies cover everything up to it, and it is no later than the archive's |
| `WineryInvariant.TenChunksARun` | scripts/winery-history.py:136-145 | one run needs at most ten chunks |
| `WineryLimits.EarliestChunkCovered` | scripts/winery-history.py:130-173 | coverage reaches back to the earliest stored chunk exactly when the chunks left over from uncommitted runs chain up |
| `WineryLimits.UnrecordedHole` | scripts/winery-history.py:136-145 | a reachable archive with a chunk before its first committed start and a hole of two days that no gap file records |
| `WineryLimits.WedgeReachable` | scripts/winery-history.py:138-141 | a gap file rewritten in the same hour, between which a backup copied it, leaves archive and destination in disagreement |
| `WineryLimits.WedgedForever` | scripts/winery-history.py:189-191 | from such a state no run ever advances the backup's checkpoint |
| `WineryLimits.AgreeIff` | scripts/winery-history.py:138-141 | from any state of the invariant whose gap copies agree, they agree throughout a run of both processes exactly when no step of it rewrites, at another time, a gap already copied |
| `WineryLimits.NeverWedged` | scripts/winery-history.py:176-202 | a run from the empty archive without such a rewrite ends with true copies of chunks and gaps, so no file stops the next backup |
| `WineryLimits.RewriteNeedsStoppedRun` | scripts/winery-history.py:136-141 | such a rewrite needs a copied gap of another detection time that runs from the present checkpoint to this run's window: the checkpoint has not moved since, and the hour is the same |
| `WineryArchive.Collect` | scripts/winery-history.py:130-173 | a run is a legal sequence of protocol steps whatever the responses and the crash point; done means the checkpoint reached the last whole hour; ten sound responses are enough |
| `WineryArchive.StoreOrReuse` | scripts/winery-history.py:146-167 | done means a durable chunk of that name whose boundaries match and whose history is valid, whether reused or fetched |
| `WineryArchive.Commit` | scripts/winery-history.py:168-173 | the checkpoint moves to the end of the chunk just stored, after it is durable |
| `WineryArchive.CollectChunks` | scripts/winery-history.py:145-173 | the loop of chunks as protocol steps, with at most ten of them |
| `WineryArchive.CopyChunks` | scripts/winery-history.py:179-198 | copies every missing chunk and fails exactly when one differs |
| `WineryArchive.CopyGaps` | scripts/winery-history.py:179-198 | copies every missing gap and fails exactly when one differs |
| `WineryArchive.Backup` | scripts/winery-history.py:176-202 | succeeds exactly when a checkpoint exists and nothing already copied differs; then the destination has everything and the checkpoint, otherwise its checkpoint is unchanged |
| `WineryArchive.BackupMirrors` | scripts/winery-history.py:176-202 | chunks always agree with their copies, so only a gap can make a backup fail, and a successful one mirrors the archive |
| `TomlLines.RenderParse` | scripts/merge-toml-settings.py:78-79 | splitting lines into tables and joining them again gives the lines back |
| `TomlLines.ParseRender` | scripts/merge-toml-settings.py:78-79 | and the other way round, so lines and tables are two views of one text |
| `TomlMerge.TableBounds` | scripts/merge-toml-settings.py:39-53 | the bounds are those of the first table of that name, or of the root part before the first header |
| `TomlMerge.RemoveTables` | scripts/merge-toml-settings.py:56-75 | deleting header ranges from the last to the first removes exactly the named tables and their descendants |
| `TomlMerge.CollectRanges` | scripts/merge-toml-settings.py:58-72 | the ranges are those of all removed headers, each up to the next header |
| `TomlMerge.DeleteRanges` | scripts/merge-toml-settings.py:74-75 | what is left is every line outside the ranges, in order |
| `TomlMerge.EnsureTable` | scripts/merge-toml-settings.py:93-97 | a missing table is appended, after a blank line if the text does not end in one |
| `TomlMerge.PutKey` | scripts/merge-toml-settings.py:99-110 | the first line that assigns the key is replaced, else one is inserted at the end of the part; an index error exactly on an empty text with a root key |
| `TomlMerge.PutKeys` | scripts/merge-toml-settings.py:99-110 | the keys of a section one after the other |
| `TomlMerge.MergeText` | scripts/merge-toml-settings.py:78-111 | the edited lines mean what the edit of the document means, and exist exactly when it does |
| `TomlEdit.SetKeyMeans` | scripts/merge-toml-settings.py:99-110 | setting a key changes that lookup and no other |
| `TomlEdit.EnsureMeans` | scripts/merge-toml-settings.py:93-97 | a new table changes no lookup |
| `TomlEdit.RemoveMeans` | scripts/merge-toml-settings.py:56-75 | removing tables makes them and their descendants vanish and changes no other lookup |
| `TomlEdit.MergeMeans` | scripts/merge-toml-settings.py:78-111 | after the edit every managed key looks up to its wanted value, a removed table is there only if managed and holds only what is managed, and every other lookup is unchanged |
| `TomlEdit.WantedIs` | scripts/merge-toml-settings.py:87-102 | with distinct sections and keys every listed pair is what is wanted |
| `TomlEdit.MergeFails` | scripts/merge-toml-settings.py:108-109 | the edit fails exactly when no line is left and the first thing to do is to add a root key |
| `TomlEdit.MergeIdempotent` | scripts/merge-toml-settings.py:78-111 | editing the result again changes nothing when no managed section is a removed table |
| `TomlFixpoint.SecondEditIff` | scripts/merge-toml-settings.py:78-111 | editing the result again changes nothing exactly when no managed section is a removed table, or every later section that is not removed was in the file and adds no key to the part that stood last when the first removed table was put back |
| `TomlFixpoint.SecondEdit` | scripts/merge-toml-settings.py:78-111 | a second edit never fails, takes the removed tables out and puts all of them back at the end |
| `TomlFixpoint.ThirdEditChangesNothing` | scripts/merge-toml-settings.py:78-111 | whatever the settings, a third edit changes nothing |
| `TomlFixpoint.RemovedAndManagedMoves` | scripts/merge-toml-settings.py:85-98 | one way it fails: a section that was not in the file is appended behind a removed one, and the second edit moves it |
| `TomlFixpoint.RemovedAndManagedSpaces` | scripts/merge-toml-settings.py:93-110 | the other way: a key is added to the part that stood last, behind the blank line, and the second edit adds another blank line |
| `TomlSurvival.LinesSurvive` | scripts/merge-toml-settings.py:78-111 | part by part and line by line: outside the removed tables every line stays in its place in its table; it changes only as the first assignment of a key listed for its section, in the first table of that section, and only to the wanted value; what is new is such an assignment that was missing, a missing section, or blank |
| `TomlSurvival.EditAgainIff` | scripts/merge-toml-settings.py:78-111 | on lines: editing the edited text returns it exactly under that condition |
| `TomlSurvival.ThirdTimeSame` | scripts/merge-toml-settings.py:78-111 | on lines: editing it a third time always returns it |
| `WhatsappPolls.PollArchive.PutPollOptions` | nix/pkgs/whatsapp-archive/db.go:303-313 | options are added under their index, an index already there is left alone |
| `WhatsappPolls.PollArchive.RecordPollVote` | nix/pkgs/whatsapp-archive/db.go:317-335 | hashes are translated to names, unknown ones kept as hex; a second row for the same poll, voter and second is not added |
| `WhatsappPolls.OptionsAfter` | nix/pkgs/whatsapp-archive/db.go:303-313 | after any run a stored poll's options are exactly its message's, however often it was stored |
| `WhatsappPolls.VotesAfter` | nix/pkgs/whatsapp-archive/db.go:317-335 | with options before votes, the log holds for each poll, voter and second the meaning of the first vote that arrived |
| `WhatsappPolls.LoggedIs` | nix/pkgs/whatsapp-archive/db.go:303-335 | in every run, votes before their poll included, the first arrival decides what is logged: its meaning if the poll was stored by then, else its bare hashes |
| `WhatsappPolls.LoggedAsMeantIff` | nix/pkgs/whatsapp-archive/db.go:303-335 | a selection is logged as what it means exactly when its poll was stored before it first arrived, or it selects none of the options |
| `WhatsappPolls.LogsConverge` | nix/pkgs/whatsapp-archive/db.go:315-335 | the same votes in any order and with any repeats leave the same selections logged |
| `WhatsappResults.RunUnique` | nix/pkgs/whatsapp-archive/db.go:85-92 | the log never holds two rows for one poll, voter and second |
| `WhatsappResults.CountIsVoters` | nix/pkgs/whatsapp-archive/db.go:97-106 | the rows the result view counts for an option are as many as the distinct voters behind them |
| `WhatsappResults.ResultsCountVoters` | nix/pkgs/whatsapp-archive/db.go:93-106 | each option's count is the number of voters whose latest selection contains it |
| `WhatsappResults.ResultsConverge` | nix/pkgs/whatsapp-archive/db.go:93-106 | any order and any replay of the same votes gives the same poll results |
| `WhatsappResults.EarlyVoteIsNotCounted` | nix/pkgs/whatsapp-archive/db.go:303-335 | a live vote delivered before its poll keeps its hash for good: the poll and the same vote from history follow, and the count stays zero |
| `WhatsappResults.OrderFreeIff` | nix/pkgs/whatsapp-archive/db.go:315-335 | every order of the votes leaves the same log exactly when no poll, voter and second carries two different selections |
| `WhatsappArchive.Archive.InsertMessage` | nix/pkgs/whatsapp-archive/db.go:162-188 | a new id is inserted, a placeholder is replaced by a handled copy, anything else is left alone; reports whether a row was written, and the triggers keep the index |
| `WhatsappArchive.Archive.SetMediaState` | nix/pkgs/whatsapp-archive/db.go:190-195 | sets the status, and the file only if one is given |
| `WhatsappArchive.Archive.AttachMedia` | nix/pkgs/whatsapp-archive/db.go:197-210 | gives a file to a media row that lacks one and to no other |
| `WhatsappArchive.Archive.RecordEdit` | nix/pkgs/whatsapp-archive/db.go:212-229 | the old text goes to the edit log before the new one replaces it |
| `WhatsappArchive.Archive.MarkDeleted` | nix/pkgs/whatsapp-archive/db.go:231-236 | records the first revoke time and never another |
| `WhatsappArchive.Archive.UpgradeUnsupported` | nix/pkgs/whatsapp-archive/db.go:294-301 | rewrites a placeholder row and drops its raw bytes |
| `WhatsappLifecycle.StepKeepsInv` | nix/pkgs/whatsapp-archive/db.go:58-70 | every write keeps: one row per message, raw bytes only on placeholders, status ok only with a file, and the index holding each row's current text |
| `WhatsappLifecycle.ArchiveConsistent` | nix/pkgs/whatsapp-archive/db.go:58-70 | after every interleaving of the feeds the index finds a text at a row exactly once, exactly when it is that row's current text |
| `WhatsappLifecycle.RunKeeps` | nix/pkgs/whatsapp-archive/db.go:162-236 | from every reachable state on, along every run |
| `WhatsappLifecycle.NothingUndone` | nix/pkgs/whatsapp-archive/db.go:162-236 | a handled kind never changes, a file never disappears, the first revoke time stays, and a replaced text is in the edit log |
| `WhatsappLifecycle.OkLostIff` | nix/pkgs/whatsapp-archive/live.go:449-473 | a row loses the status ok exactly when a media worker reports something else on it |
| `WhatsappLifecycle.LateFailureOverwritesOk` | nix/pkgs/whatsapp-archive/live.go:449-473 | a run in which the backup attaches a file and the late failure of the download then marks the row failed |
| `WhatsappFeeds.Archiver.QueueMedia` | nix/pkgs/whatsapp-archive/live.go:336-347 | old history media is marked skipped, with room the message is added to the queue and nothing is written, else it is marked queue-full: exactly that is written and queued |
| `WhatsappFeeds.Archiver.MediaWorker` | nix/pkgs/whatsapp-archive/live.go:449-473 | the oldest job leaves the queue and exactly its outcome is reported: ok with the file, expired, or failed |
| `WhatsappFeeds.Archiver.StoreMessage` | nix/pkgs/whatsapp-archive/live.go:250-334 | exactly what each kind of message writes to the message table and queues, and its effect on the poll tables: its poll's options and then its votes |
| `WhatsappFeeds.Archiver.StoreBody` | nix/pkgs/whatsapp-archive/live.go:281-334 | one insert of the described or placeholder message, and after it, only if a row was written and there is media, the queueing |
| `WhatsappFeeds.Archiver.StoreHistoryVotes` | nix/pkgs/whatsapp-archive/live.go:399-419 | the votes attached to a poll are recorded in order |
| `WhatsappFeeds.OptionsBeforeVotes` | nix/pkgs/whatsapp-archive/live.go:321-330 | a message that carries its poll's options never records one of its votes before them |
| `WhatsappFeeds.Archiver.ReprocessUnsupported` | nix/pkgs/whatsapp-archive/live.go:349-383 | exactly one upgrade for each kept placeholder that can be described, in order, its media queued; as many are counted, and every such message is handled afterwards |
| `WhatsappFeeds.Archiver.ImportMessage` | nix/pkgs/whatsapp-archive/importjson.go:106-174 | the import issues an insert and, only when nothing was written and a file was copied, an attach; each kept message is counted once |
| `WhatsappFeeds.ExportedMeans` | nix/pkgs/whatsapp-archive/importjson.go:111-156 | the row an exported message asks for is legal and handled; it has a status exactly when there is media to find, a file exactly when the status is ok and the copy worked, and its caption as text exactly then |
| `WhatsappFeeds.Archiver.ImportChat` | nix/pkgs/whatsapp-archive/importjson.go:106-182 | the whole loop, with messages added and seen adding up to those kept |
| `AudiobookScan.Scan` | scripts/audiobook-chapter-rebuild.py:560-581 | accepts the greedy chain of spoken numbers from two and reports every candidate looked at |
| `AudiobookScan.StaysAhead` | scripts/audiobook-chapter-rebuild.py:563-581 | no chain of candidates saying two, three, ... gets further than the scan or gets to any number sooner |
| `AudiobookScan.LongestChain` | scripts/audiobook-chapter-rebuild.py:563-581 | the scan accepts 2..m exactly when those numbers can be heard in that order |
| `AudiobookFill.SortKeeps` | scripts/audiobook-chapter-rebuild.py:563 | sorting by time loses nothing |
| `AudiobookFill.SortSorts` | scripts/audiobook-chapter-rebuild.py:563 | and puts candidates in time order |
| `AudiobookFill.SortedStays` | scripts/audiobook-chapter-rebuild.py:596 | and leaves alone what is in order |
| `AudiobookFill.FillGaps` | scripts/audiobook-chapter-rebuild.py:586-599 | fills each gap between known numbers when it holds rows enough for all of it |
| `AudiobookFill.NoGapsToFill` | scripts/audiobook-chapter-rebuild.py:586-599 | after the scan there is no gap, so this never adds anything |
| `AudiobookChapters.FillTail` | scripts/audiobook-chapter-rebuild.py:601-613 | the first trailing rows complete the chapters, or none is used |
| `AudiobookChapters.ChooseBoundaries` | scripts/audiobook-chapter-rebuild.py:559-627 | an error exactly when the boundaries reached are not one fewer than the titles, else one chapter per title from them |
| `AudiobookBook.TrailingIsRest` | scripts/audiobook-chapter-rebuild.py:604 | on separated candidates the trailing rows are exactly the reports of the candidates after the last spoken chapter |
| `AudiobookBook.ReachedCount` | scripts/audiobook-chapter-rebuild.py:601-616 | on separated candidates the chooser succeeds exactly when the spoken chain, with the candidates after it, is long enough |
| `AudiobookBook.SingleTitle` | scripts/audiobook-chapter-rebuild.py:580-616 | a single-title book fails exactly when somebody says chapter two; a book without titles always fails |
| `AudiobookBook.ReachedAdvances` | scripts/audiobook-chapter-rebuild.py:601-627 | the chosen boundaries still advance strictly after rounding to milliseconds |
| `AudiobookBook.FinalizeChapters` | scripts/audiobook-chapter-rebuild.py:630-643 | each chapter gets its rounded start, and as end the next start or the duration |
| `AudiobookBook.FinalizedTiles` | scripts/audiobook-chapter-rebuild.py:630-643 | one entry per title, from zero, each end the next start, the last end the rounded duration |
| `AudiobookBook.AdvancesIff` | scripts/audiobook-chapter-rebuild.py:630-643 | starts increase strictly exactly when the first boundary is more than half a millisecond in |
| `AudiobookBook.EachLastsIff` | scripts/audiobook-chapter-rebuild.py:630-643 | no chapter is empty exactly when the starts advance and the last one is before the rounded duration |
| `AudiobookBook.KeepApart` | scripts/audiobook-chapter-rebuild.py:774-778 | candidates near a kept one are skipped |
| `AudiobookBook.KeptIsApart` | scripts/audiobook-chapter-rebuild.py:774-778 | kept silences are pairwise 0.75 s apart, across thresholds, and none is invented |
| `AudiobookBook.KeptCovers` | scripts/audiobook-chapter-rebuild.py:774-778 | every candidate is within 0.75 s of a kept one |
| `AudiobookBook.AnalyzeBook` | scripts/audiobook-chapter-rebuild.py:759-823 | the first threshold on which the chooser succeeds decides, there is no book exactly when none does; a book tiles, and advances and has no empty chapter exactly under stated conditions |
| `AudiobookBook.BookAdvances` | scripts/audiobook-chapter-rebuild.py:759-800 | with every silence more than half a millisecond in, the chapters of the result advance strictly from zero |
| `AudiobookBook.BookLasts` | scripts/audiobook-chapter-rebuild.py:759-800 | with every silence also more than a millisecond before the end, no chapter of the result is empty |
| `Chunker.EndOf` | hermes/skills/media/youtube-library/scripts/ingest_video.py:65-72 | a chunk fits the limit or is a single segment, and nothing more would have fitted |
| `Chunker.Rewind` | hermes/skills/media/youtube-library/scripts/ingest_video.py:76-81 | the next chunk repeats at least the overlap if possible, no more than needed, and always begins later |
| `Chunker.MakeChunks` | hermes/skills/media/youtube-library/scripts/ingest_video.py:61-82 | the chunks are the windows so determined, from the first segment to the last |
| `Chunker.Advances` | hermes/skills/media/youtube-library/scripts/ingest_video.py:64-81 | starts increase strictly, ends never go back, no segment is skipped |
| `Chunker.AddsNothingIff` | hermes/skills/media/youtube-library/scripts/ingest_video.py:69-81 | a chunk adds nothing exactly when the repeated part leaves no room for one more segment |
| `Chunker.AlwaysAdds` | hermes/skills/media/youtube-library/scripts/ingest_video.py:69-81 | with overlap plus twice the largest cost within the limit, to within one, every chunk adds a segment |
| `Chunker.BoundIsExact` | hermes/skills/media/youtube-library/scripts/ingest_video.py:69-81 | with one more a chunk can add nothing: a concrete transcript |
| `Chunker.OneChunking` | hermes/skills/media/youtube-library/scripts/ingest_video.py:61-82 | a transcript, limit and overlap have only one chunking |
| `Chunker.ChunksRebuild` | hermes/skills/media/youtube-library/scripts/ingest_video.py:61-82 | dropping the overlaps rebuilds the transcript |
| `CalibreBridge.Bridge.Add` | scripts/shelfarr-calibre.py:134-135 | the add command is logged and may have taken effect although it failed |
| `CalibreBridge.Bridge.Commit` | scripts/shelfarr-calibre.py:136-139 | receipt, file record and pending scan are written together |
| `CalibreBridge.Bridge.ImportFile` | scripts/shelfarr-calibre.py:124-140 | whatever fails: a receipt means Calibre has the book, a receipted key is never sent, and an exception leaves no receipt |
| `CalibreBridge.Bridge.ImportBook` | scripts/shelfarr-calibre.py:122-143 | the first file that raises ends the book; done means every listed file has a receipt |
| `CalibreBridge.Bridge.Scan` | scripts/shelfarr-calibre.py:144-148 | the pending flag goes only after a scan that covers every receipt |
| `CalibreBridge.Bridge.ImportBooks` | scripts/shelfarr-calibre.py:117-149 | a completed run has scanned everything receipted and counts the books that failed; with no failure every listed file is imported and scanned; nothing receipted, earlier or in this run, is sent again |
| `CalibreBridge.Bridge.RunAll` | scripts/shelfarr-calibre.py:117-149 | over any number of runs with failures and crashes anywhere, the history of add commands and receipts stays sound, and a smooth last run leaves everything in Calibre and scanned |
| `CalibreBridge.NeverSentAgain` | scripts/shelfarr-calibre.py:131-139 | in every sound history no key is sent after its receipt, at any distance |
| `CalibreBridge.SentBefore` | scripts/shelfarr-calibre.py:131-139 | and every receipt comes after an add command for its key |
| `MarkdownBlock.TestsAccept` | scripts/merge-markdown-block.py:20-31 | the two tests together accept exactly the texts whose markers read begin, end, begin, end, ... |
| `MarkdownBlock.MatchesTakeMarkers` | scripts/merge-markdown-block.py:26-31 | the matches are no more than the begin markers, nor than the end markers after the first begin |
| `MarkdownBlock.JoinPieces` | scripts/merge-markdown-block.py:33-41 | the first match becomes the block, the others vanish, everything else stays in order |
| `MarkdownBlock.MergeText` | scripts/merge-markdown-block.py:15-48 | accepted exactly when the markers alternate; unbalanced counts are one error, everything else the other |
| `MarkdownBlock.OneBlock` | scripts/merge-markdown-block.py:33-48 | the result is the block between two texts without markers, the text before an existing first block kept exactly |
| `MarkdownBlock.MergedParts` | scripts/merge-markdown-block.py:33-48 | with a marker-free body the result is well formed and has exactly one block |
| `MarkdownBlock.OutsideKept` | scripts/merge-markdown-block.py:33-48 | the text outside the blocks is the same up to blanks at the end |
| `MarkdownBlock.SecondMergeChangesNothing` | scripts/merge-markdown-block.py:15-48 | a second merge changes nothing |
| `SilenceScan.TimeIsSamples` | scripts/audio-silence-audit.py:286-311 | the clock stands at the samples read divided by the sample rate |
| `SilenceScan.OpenStretch` | scripts/audio-silence-audit.py:296-309 | the stretch that ends at a window is the open one and no other |
| `SilenceScan.ScanWindow` | scripts/audio-silence-audit.py:281-312 | one window opens, extends or closes a run |
| `SilenceScan.ScanEnd` | scripts/audio-silence-audit.py:314-323 | a run that reaches the end is reported too |
| `SilenceScan.ScanDecodedAudio` | scripts/audio-silence-audit.py:275-330 | reports exactly the maximal silent stretches at least as long as the minimum, in order and disjoint; the time is the samples read over the rate |

## Left out

- Floating point: seconds, rates and byte estimates are reals; only the rounding to milliseconds in the chapter code is kept.
- ffmpeg, ffprobe, whisper, the Home Assistant API, Calibre's and Komga's own behaviour, WhatsApp decryption and `describe`: their results are inputs, failures included.
- Title text in `build_segments`: stripping of blanks around a chapter title.
- `Segment` in `merge_segments` is a value: the track being grown is a private copy in the source, so nothing else can see it change.
- `YotoServer.PlanBook`: the concurrent probing of sources, the sorting of music by disc and track, artist tags, file stamps and the version digest.
- `YotoServer.RateSources`: a duration that is not a finite number is modelled as one that is not positive.
- `YotoDownload.CardZip`: ZIP bytes, file names and the temporary directory; failures of the artwork search.
- `YotoCards.SplitEvenly`: a count of zero is only allowed for an empty list, as the callers guarantee.
- `YotoFewest.FewestIff`: for at most 100 tracks; `YotoFewest.FewestIffLong` takes any number in a long book. Outside both the equivalence is false (`YotoUneven.HollowIsFewest`), since a search can end on a split with empty cards: one direction stays `YotoFewest.FewestIf`, the other needs the premise of `YotoFewest.OnlyThen`.
- `YotoServer.PlanIsMinimal`: one direction, at mixed byte rates; `plan_book` promises no fewest cards, and the exact condition is stated for `pack_cards`, which does.
- Winery files: SHA-256 is an injective function of a chunk's content; `atomic` is one indivisible step; the bootstrap folder and the read-back after a copy are not modelled; gap files are named by their interval.
- `WineryArchive.Backup`: runs alone in the method; its interleaving with the collector is in the transition system.
- TOML text: headers, assignments and other lines are given as such; the regular expressions, multi-line values, a missing last newline, and section names the header pattern cannot recognise are not modelled.
- `__remove_sections__` that is not a list of strings, and sections that are not objects: both refused before anything is edited.
- SQLite: statements and transactions are single steps; `LIKE 'unsupported:%'` is matched case-sensitively; the names of voters in the results view are left out.
- `WhatsappPolls.PollArchive.RecordPollVote`: the row returned for a hash shared by two options of one poll is the first stored.
- `WhatsappFeeds.Archiver.ImportChat`: the commit every 2000 messages, and the copying of media files itself.
- `WhatsappFeeds.Archiver.StoreMessage`: chats, contacts and the normalisation of identifiers; the order between the message table and the poll tables, which are separate here.
- `AudiobookBook.AnalyzeBook`: an exception while a clip is transcribed, the debug reports written on failure, and books whose boundaries come from existing chapters; titles and the reading of a chapter number from a transcript are inputs.
- `SilenceScan.ScanDecodedAudio`: the level of a window (root mean square, decibels) is an input, and the sample rate is positive.
- `Chunker.MakeChunks`: cleaning of subtitle text before it is chunked.
- `CalibreBridge.Bridge.ImportFile`: a file's path, size and modification time determine its content, as its skip test takes for granted; staging, symbolic links and size limits are part of a failing snapshot.
- `MarkdownBlock.MergeText`: markers are tokens, so overlaps of the two marker texts are not modelled; blanks are the ASCII ones; the lock, the mode and the concurrent-update test around it are left out.
- Komga sync, the GWM and WVJ archivers, edge metrics, mail migration, hook mergers, the rolling update and all web pages: they would add easier members of the same kinds, or only plumbing.
