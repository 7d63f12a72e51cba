# Conductor, modelled and proved

Conductor is a project server: it packages and versions agent resources, prices model calls,
admits realtime clients, manages members and judges which clients reported. This project models
its input/output-free cores in Dafny and proves what they are for. One module follows one component:

- `Zip`, `Crc32`, `CrcCheck`, `Polynomials`, `Blobs`: the deterministic archive writer, its checksum as a
  polynomial remainder, and a reader written from PKWARE APPNOTE 6.3 that undoes it.
- `Pricing`: rate resolution, the token carve-out and rounding.
- `PriceHistory`, `CatalogSync`, `CatalogDocument`, `CatalogWalks`: the append-only price history, the in-memory
  rate table that must agree with it even when stale, the syncs that extend it, the catalog
  document they read, and when its unordered maps matter.
- `LivePricing`: syncs, reloads and telemetry events taken apart into statements, in any interleaving.
- `Reprice`, `RepriceRun`, `CostReport`: the cursor loop over unpriced calls, alone and among other
  writers, and the split of a stored total.
- `Hub`: the realtime connection hub as a state machine of any number of clients, and as an object.
- `MemberAccess`: three commands on members, and any interleaving of the transactions that run them.
- `Policy`: the policy evaluator and the static feasibility check of the route inventory.
- `SemVer`, `Usd`, `Decimal`, `Text`: values with a parser and a printer.
- `Installations`, `Coverage`: registration with replay protection, and fleet coverage.
- `Machine`, `Order`, `Arithmetic`, `Wrappers`: runs of state machines, orders and the stable sort,
  factors and floors, outcome types.

Specifications are stated twice where that says more: as a function the code is proved equal to, and
as what it means in rows, fields and literal constants (`...Meaning`, `...Exactly`, `FailsWithFirstFault`,
`GrantedExactly`, `ComparesByPrecedence`), proved of that function for every input.

Functions and lemmas carry the specifications; code that works by changing things is a method or a
class proved against them. An SQL table is a map or a sequence with its primary key, a time is an
integer, a digest is a name for the content it was taken from. A `u32` of the checksum is its 32
bits. Where a definition is heavy and only some of its properties matter (how names are normalized,
how a stored price is read back, how text is trimmed), the proofs take it as a function value and
hold for any such function; the object then fixes the real one. Every lemma states its own proof:
`{:induction false}` keeps the verifier from adding induction hypotheses of its own.

## Where the code and its documentation part

The code is followed; each point below is a lemma.

- A changed per-secret connection limit is said to affect new connections right away; it does not
  for a secret already seen (`Hub.RaisedLimitIsIgnored`, exact condition in `Hub.LimitIsHonouredExactly`).
- Summing tokens first and pricing once is said to equal pricing each event; it does for well-formed
  usage (`Pricing.SummingFirstIsTheSame`) and otherwise exactly when `Pricing.AddsExactly` says.
- Two catalogs that publish the same prices in another order are said to compare equal; they do
  exactly when no two different bands share a threshold and no two different lanes a name
  (`Pricing.OrderIsIrrelevantExactly`, failing input in `Pricing.RepeatedThresholdIsARateChange`).
- The static overlap check is said to be exact; it is for expressions without an empty AND
  (`Policy.OverlapIsExact`, exact condition in `Policy.OverlapExactly`, failing input in
  `Policy.EmptyAllOfDisagrees`), and the projections it lists leave out sessions without the aggregate
  grant (`Policy.InventoryIsExact`, exact condition in `Policy.InventoryIsCompleteExactly`, failing input
  in `Policy.InventoryMissesTheRest`).
- Parsed rows, bands and lanes are sorted so that the order of a document does not matter; it does when
  two spellings of one model or lane disagree (`CatalogWalks.WalkOrderIsIrrelevantExactly`, failing
  inputs in `CatalogWalks.RepeatedModelDependsOnWalk` and `CatalogWalks.RepeatedLaneDependsOnWalk`).
- A retried sync is said to be harmless; one stopped halfway is not repaired by a retry, its version is
  never applied afterwards, and its prices arrive only with another version
  (`CatalogSync.RetryIsNoRepair`, `CatalogSync.InterruptedVersionIsNeverApplied`,
  `CatalogSync.AnotherVersionRepairs`); a document that returns is refused
  (`CatalogSync.ReturningDocumentIsRefused`).
- The catalog stamped on an event is said to be the one that priced it; from memory it is the latest,
  whichever published the rate (`PriceHistory.StampIsOwnExactly`, failing input in
  `CatalogSync.UnchangedPriceIsStampedAnew`).
- The columns of the cost report are said to keep their proportions; the reasoning share shows up as
  cache writes (`CostReport.ReasoningShowsAsCacheWrites`, exact condition in
  `CostReport.ProportionsKeptExactly`), and components beyond an i64 break the sum
  (`CostReport.OverflowingRowDoesNotReconcile`, exact condition in `CostReport.RowReconcilesExactly`).
- Contact rows of deleted installations are said not to push coverage past complete; they can push it
  to complete (`Coverage.StrayContactHidesSilence`, exact condition in `Coverage.CompleteExactly`).
- The next patch of a release whose patch is the u64 maximum is the release itself (`SemVer.NextPatchIsLeast`).
- Three checks decide nothing: the last-admin guard (`MemberAccess.LastAdminGuardIsRedundant`), the
  white-space test of the version parser (`SemVer.TrimTestIsRedundant`) and the empty-list guard of
  tiered pricing (`Pricing.EmptyListGuardIsRedundant`). Credential reconciliation never revokes with
  this version's table (`MemberAccess.NothingIsRevoked`).

## Model

| member | source | states |
|---|---|---|
| `Crc32.Compute` | crates/conductor-server/src/core/artifacts.rs:1145-1158 | the complement of the result is the remainder, modulo the generator of section 8 of RFC 1952, of the message times x^32 with its first 32 coefficients inverted; the nested loops compute the checksum function |
| `Crc32.NextByte` | crates/conductor-server/src/core/artifacts.rs:1147-1156 | one byte xored in and eight conditional shift-and-xor steps are the byte step |
| `Crc32.ChecksumIsTheRemainder` | crates/conductor-server/src/core/artifacts.rs:1145-1158 | for every message, those under four bytes included, that remainder is the complement of the checksum and nothing else is |
| `Polynomials.RemainderIsUnique` | crates/conductor-server/src/core/artifacts.rs:1145-1158 | a polynomial over two elements has one remainder modulo a monic one, so the definition above determines the checksum |
| `CrcCheck.CheckValue` | crates/conductor-server/src/core/artifacts.rs:1145-1158 | the checksum of the nine characters 123456789 is 0xcbf43926 |
| `Crc32.PolynomialValue` | crates/conductor-server/src/core/artifacts.rs:1151 | the polynomial's bits are the constant 0xedb88320 of section 8 of RFC 1952 |
| `Crc32.ByteStepIsBijection` | crates/conductor-server/src/core/artifacts.rs:1148-1155 | for every input byte the byte step has a two-sided inverse on the 32-bit register |
| `Crc32.RegisterIsBitSerial` | crates/conductor-server/src/core/artifacts.rs:1147-1156 | feeding bytes equals feeding the message's bits one at a time, least significant first |
| `Crc32.WindowIsSeen` | crates/conductor-server/src/core/artifacts.rs:1147-1156 | up to 32 bits fed from one register can be told apart by the register they leave |
| `Crc32.BurstsAreDetected` | crates/conductor-server/src/core/artifacts.rs:1145-1158 | two different messages of one length that agree outside some 32 consecutive bits never share a checksum |
| `Crc32.FourByteChangesAreDetected` | crates/conductor-server/src/core/artifacts.rs:1145-1158 | a change confined to four consecutive bytes always changes the checksum |
| `Crc32.LongerBurstsEscape` | crates/conductor-server/src/core/artifacts.rs:1145-1158 | 32 bits is the limit: from every register the polynomial's own 33-bit pattern goes unseen |
| `Crc32.LongerBurstsCollide` | crates/conductor-server/src/core/artifacts.rs:1145-1158 | in bytes: around any prefix and suffix two messages of one length that differ within 33 consecutive bits share a checksum |
| `Zip.DeterministicZip` | crates/conductor-server/src/core/artifacts.rs:1073-1143 | the loop that grows both buffers, with its length checks and the end record, produces exactly the specified archive or the specified refusal |
| `Zip.PushFile` | crates/conductor-server/src/core/artifacts.rs:1085-1127 | one turn appends exactly the file's local record and its directory record carrying the current offset |
| `Zip.PushLocalHeader` | crates/conductor-server/src/core/artifacts.rs:1096-1106 | the eleven pushes append the 30 bytes of section 4.3.7 of PKWARE APPNOTE 6.3, each constant written out: version 2.0, UTF-8 names, stored, no time |
| `Zip.PushCentralHeader` | crates/conductor-server/src/core/artifacts.rs:1110-1126 | the seventeen pushes append the 46 bytes of section 4.3.12 of PKWARE APPNOTE 6.3, each constant written out |
| `Zip.PushEndRecord` | crates/conductor-server/src/core/artifacts.rs:1134-1141 | the eight pushes append the 22 bytes of section 4.3.16 of PKWARE APPNOTE 6.3, each constant written out |
| `Zip.Crc` | crates/conductor-server/src/core/artifacts.rs:1094-1102 | the number stored is the checksum's value |
| `Zip.OffsetLands` | crates/conductor-server/src/core/artifacts.rs:1091-1108 | every offset the directory records is where that entry's own local record, name and body stand |
| `Zip.RecordLands` | crates/conductor-server/src/core/artifacts.rs:1110-1127 | directory records follow one another without gaps behind the local records |
| `Zip.EndLands` | crates/conductor-server/src/core/artifacts.rs:1129-1142 | the last 22 bytes are an end record that gives the directory's true start, size and count |
| `Zip.LayoutReadsBack` | crates/conductor-server/src/core/artifacts.rs:1073-1143 | a reader that starts at the last 22 bytes and follows the directory recovers every entry |
| `Zip.ReadingUndoesWriting` | crates/conductor-server/src/core/artifacts.rs:1073-1143 | for every accepted list the reader returns exactly the path-sorted files, each body matching its stored checksum |
| `Zip.OrderOfFilesIsIrrelevant` | crates/conductor-server/src/core/artifacts.rs:1074-1075 | any reordering of files with distinct paths gives the same outcome byte for byte |
| `Zip.SameBytesExactly` | crates/conductor-server/src/core/artifacts.rs:1074-1075 | repeated paths included: two accepted lists give the same bytes exactly when they hold the same files in the same order path by path |
| `Zip.ArchivedOrder` | crates/conductor-server/src/core/artifacts.rs:1074-1075 | the archive lists the given files, all of them, in ascending path order |
| `Zip.AcceptedExactly` | crates/conductor-server/src/core/artifacts.rs:1076-1132 | accepted are exactly fewer than 65536 files whose paths and bodies fit their length fields with both halves below 4 GiB |
| `Zip.RefusedBecause` | crates/conductor-server/src/core/artifacts.rs:1076-1132 | why a list is refused: 65536 files or more first, then path, body or offset of the first file with one of these faults, last either half reaching 4 GiB |
| `Order.SortIsStable` | crates/conductor-server/src/core/artifacts.rs:1075 | the standard sort keeps equivalent elements in order |
| `Order.SameSortExactly` | crates/conductor-server/src/core/artifacts.rs:1075 | two lists sort alike exactly when each group of equivalent elements has the same order in both |
| `Order.OrderIsIrrelevantExactly` | crates/conductor-server/src/core/artifacts.rs:1075 | the order of a list never matters to its sort exactly when no two different elements are equivalent |
| `Order.StringsCompare` | crates/conductor-domain/src/resource_semver.rs:171-192 | one string is below another exactly when it is a proper prefix or has the smaller character at the first difference |
| `Pricing.OverlayIsAMonoid` | crates/conductor-domain/src/pricing.rs:52-60 | laying rates over one another is associative, keeps what is omitted and is empty only when both sides are |
| `Pricing.BandMeaning` | crates/conductor-domain/src/pricing.rs:146-153 | the band billed has the greatest threshold strictly below the prompt, the last of several with it; none is billed exactly when none is cleared |
| `Pricing.LaneMeaning` | crates/conductor-domain/src/pricing.rs:155-164 | the lane is the first with exactly the requested normalized name; none exactly when no lane has it |
| `Pricing.RatesMeaning` | crates/conductor-domain/src/pricing.rs:139-168 | for every price list, prompt and lane: the first lane of the name wins over the last band with the greatest cleared threshold, and that over the headline; no rate exactly when all three publish none |
| `Pricing.NormalizedName` | crates/conductor-domain/src/pricing.rs:460-462 | a normalized name is the name without the white space around it, its ASCII capitals lowered and nothing else changed |
| `Pricing.ResolveRatesOf` | crates/conductor-domain/src/pricing.rs:139-168 | component by component the lane's rate if it publishes one, else the band's if that does, else the headline's; the loops equal the specified overlay |
| `Pricing.SortingKeepsRates` | crates/conductor-domain/src/pricing.rs:125-130 | putting a price list in canonical order never changes what any request is billed at, repeated thresholds and names included |
| `Pricing.OrderIsIrrelevant` | crates/conductor-domain/src/pricing.rs:95-130 | two orders of the same bands and lanes compare equal once sorted and bill every request alike when bands with one threshold, and lanes with one name, are the same |
| `Pricing.OrderIsIrrelevantExactly` | crates/conductor-domain/src/pricing.rs:91-93 | exact condition for every catalog with the same prices to compare equal: no two different bands share a threshold and no two different lanes a name |
| `Pricing.CompareEqualExactly` | crates/conductor-domain/src/pricing.rs:125-130 | any two price lists compare equal once sorted exactly when headline rates agree and the bands of each threshold and lanes of each name come in the same order |
| `Pricing.RepeatedThresholdIsARateChange` | crates/conductor-domain/src/pricing.rs:91-93 | two bands with one threshold and different rates, listed the other way round, compare unequal and bill a longer prompt differently |
| `Pricing.SortedIsCanonical` | crates/conductor-domain/src/pricing.rs:125-130 | canonical order is a normal form: sorting twice is sorting once |
| `Pricing.ScaledCostComponents` | crates/conductor-domain/src/pricing.rs:352-385 | the step-by-step carve-out with a clamp after each subtraction computes the closed form |
| `Pricing.SummingFirstIsTheSame` | crates/conductor-domain/src/pricing.rs:423-426 | for one rate set and well-formed usages, summing tokens first and pricing once equals summing each call's components |
| `Pricing.AddsExactly` | crates/conductor-domain/src/pricing.rs:423-426 | exact condition, for any list of non-negative usages and component by component: summing first is the same unless a charged whole is over-carved in one call and under-carved in another |
| `Pricing.IllFormedUsageDoesNotAdd` | crates/conductor-domain/src/pricing.rs:363-377 | without well-formedness the sum is off by any amount |
| `Pricing.RoundingIsNearest` | crates/conductor-domain/src/pricing.rs:387-393 | rounding is to the nearest micro-USD, halves up, zero below one half and the i64 maximum from the saturation point on |
| `Pricing.RoundingDrift` | crates/conductor-domain/src/pricing.rs:387-393 | rounding n amounts one by one is within floor(n/2) of rounding their sum |
| `Pricing.DriftIsTight` | crates/conductor-domain/src/pricing.rs:387-393 | the bound floor(n/2) is attained for every n |
| `Pricing.PricingTheSumDrifts` | crates/conductor-domain/src/pricing.rs:308-323 | the price returned for summed well-formed usage differs from the sum of the n prices returned by at most floor(n/2) absent saturation, and is returned exactly when one of them is |
| `Pricing.SummedPromptsClearABand` | crates/conductor-domain/src/pricing.rs:428-432 | prompts that each stay below a band's threshold clear it once summed and are then priced at a rate no call reached |
| `Pricing.ComponentsNearPrice` | crates/conductor-domain/src/pricing.rs:395-451 | the five rounded components exist exactly when the call is priced and add up to within 2 micro-USD of its price |
| `Pricing.EmptyListGuardIsRedundant` | crates/conductor-domain/src/pricing.rs:180-195 | the guard for a list with nothing published decides nothing: such a list resolves to no rates for every request |
| `Pricing.PricedExactly` | crates/conductor-domain/src/pricing.rs:308-323 | a well-formed call is priced exactly when a component it uses has a rate, and lacks rates exactly when none is published |
| `Pricing.EveryTokenIsBilledOnce` | crates/conductor-domain/src/pricing.rs:308-451 | every token of a well-formed usage is billed exactly once; for every usage the price is the sum of tokens times rate rounded once, and absent exactly when nothing is published or nothing published is used |
| `Pricing.WellFormedTotalsFit` | crates/conductor-domain/src/pricing.rs:335-344 | the 128-bit total cannot overflow on well-formed usage with 64-bit counts and rates |
| `Pricing.LongerPromptsNeverCostLess` | crates/conductor-domain/src/pricing.rs:139-194 | scaled cost never falls as the prompt grows, across bands too, when successive effective bands publish the same components at rates that never fall |
| `Pricing.CheaperBandUndercuts` | crates/conductor-domain/src/pricing.rs:146-153 | without that condition one more prompt token can cost less |
| `PriceHistory.NewestMeaning` | crates/conductor-storage/src/repos/model_price.rs:160-184 | the lookup finds a row of the model effective by the time with the latest effective time, and none exactly when no row covers |
| `PriceHistory.EarliestMeaning` | crates/conductor-storage/src/repos/model_price.rs:189-211 | the earliest row of the model, and none exactly when the model has no row |
| `PriceHistory.TableHoldsCurrent` | crates/conductor-server/src/core/model_pricing.rs:159-175 | the loaded table answers for every key what the newest row of the full history holds |
| `PriceHistory.TableIsCanonical` | crates/conductor-server/src/core/model_pricing.rs:159-175 | the table holds prices in canonical order however they were stored |
| `PriceHistory.SharedRateTable.Reload` | crates/conductor-server/src/core/model_pricing.rs:159-175 | the rows walked into newest time and map give exactly the loaded table of the specification |
| `PriceHistory.SharedRateTable.Price` | crates/conductor-server/src/core/model_pricing.rs:183-238 | the branches over one snapshot give exactly the specified answer |
| `PriceHistory.SpellingIsIrrelevant` | crates/conductor-server/src/core/model_pricing.rs:88-91 | normalizing a provider and a model before asking changes no answer, and one name without the other names no model |
| `PriceHistory.StaleTableResolves` | crates/conductor-server/src/core/model_pricing.rs:211-226 | a stale table resolves every event before the first unseen append, and not before its own newest row, to the row in force |
| `PriceHistory.StaleTableAgrees` | crates/conductor-server/src/core/model_pricing.rs:183-238 | on both branches the cost of an event is that of the row in force in the full current history if it was reported before the first unseen append |
| `PriceHistory.EveryAnswer` | crates/conductor-server/src/core/model_pricing.rs:183-238 | the answer to an event in every case, in rows by index: no catalog, missing or unknown model, cost and stamp from the row in force or from memory, and no stamp without a price |
| `PriceHistory.StaleExactly` | crates/conductor-server/src/core/model_pricing.rs:211-226 | exact condition for the memory branch: no unseen row of the model is effective by the time of the event |
| `PriceHistory.StampIsOwnExactly` | crates/conductor-server/src/core/model_pricing.rs:211-225 | exact condition for the stamp of a priced event to be the catalog that published the row in force: the event predates the table, or the table's latest catalog happens to be that one |
| `CatalogSync.UnchangedPriceIsStampedAnew` | crates/conductor-server/src/core/model_pricing.rs:211-225 | after a second sync that leaves a model's price unchanged its calls are billed by the first sync's row and stamped with the second |
| `LivePricing.StepIsSound` | crates/conductor-server/src/core/model_pricing.rs:140-238 | every database statement of syncs, reloads and events keeps each table in use faithful to what was read for it, and each answer to its snapshot |
| `LivePricing.SnapshotsAreUnaffected` | crates/conductor-server/src/core/model_pricing.rs:150-156 | a snapshot stays as taken until its event is priced, whatever is synced, reloaded or replaced meanwhile |
| `LivePricing.PricedAsItCame` | crates/conductor-server/src/core/model_pricing.rs:183-225 | in every interleaving an event is answered from the table shared when it came in, against the history of the moment it is priced |
| `LivePricing.ReloadIsTorn` | crates/conductor-server/src/core/model_pricing.rs:159-175 | whatever happens between its two statements, a reload stamps with the catalogs of the first and prices by the rows of the second |
| `LivePricing.EveryAnswerIsInForce` | crates/conductor-server/src/core/model_pricing.rs:159-238 | in every interleaving an answer given from a loaded snapshot costs what the row in force costs in the final history, if the event was reported before every row appended since the snapshot was read |
| `CatalogSync.ChangedMeaning` | crates/conductor-server/src/core/model_pricing.rs:367-378 | the rows kept are exactly those whose pricing is not the model's current one |
| `CatalogSync.InsertAppends` | crates/conductor-storage/src/repos/model_price.rs:99-154 | with the clock past every row nothing conflicts and every price is appended in order |
| `CatalogSync.InsertKeepsUnique` | crates/conductor-storage/src/repos/model_price.rs:132-149 | the primary key keeps rows unique whatever is inserted, and nothing is rewritten |
| `CatalogSync.RowsAddedExactly` | crates/conductor-server/src/core/model_pricing.rs:364-392 | a row is added exactly for the document's models whose pricing differs from their current row, stamped with the document's version and the sync's time |
| `CatalogSync.ReportsExactly` | crates/conductor-server/src/core/model_pricing.rs:327-401 | every way a sync ends, and its counts: models, those with a rate anywhere, and those whose price is not what the rate table answers |
| `CatalogSync.SyncedModelIsCurrent` | crates/conductor-server/src/core/model_pricing.rs:327-401 | after an applied sync the current price of every model in the document is the document's |
| `CatalogSync.OtherModelsKeepTheirs` | crates/conductor-server/src/core/model_pricing.rs:327-401 | a model the document does not mention keeps its current row |
| `CatalogSync.HistoryIsStable` | crates/conductor-storage/src/repos/model_price.rs:92-211 | over every run of syncs the history only grows, the row in force at a past time never changes, and neither does a model's earliest row |
| `CatalogSync.RowsStayUnique` | crates/conductor-storage/src/repos/model_price.rs:132-149 | over every run no model gets two rows with one time |
| `CatalogSync.EventsThroughSyncs` | crates/conductor-server/src/core/model_pricing.rs:177-238 | a table loaded once prices every event before the next sync as the full history does after any number of later syncs |
| `CatalogSync.RunsStayUpToDate` | crates/conductor-server/src/core/model_pricing.rs:327-401 | after every run of completed syncs every model of the latest recorded document is priced by it |
| `CatalogSync.SyncMakesCurrent` | crates/conductor-server/src/core/model_pricing.rs:327-401 | a sync that does not fail leaves every model of its document current, whether applied or found unchanged |
| `CatalogSync.FailsExactly` | crates/conductor-storage/src/repos/model_price.rs:56-75 | after a run from an empty database a sync fails exactly when its document was offered before and is not the latest recorded one |
| `CatalogSync.ReturningDocumentIsRefused` | crates/conductor-storage/src/repos/model_price.rs:56-75 | upstream going back to an earlier document is never applied |
| `CatalogSync.RetryIsNoRepair` | crates/conductor-server/src/core/model_pricing.rs:336-346 | stopped between recording the catalog and inserting its prices, a retry finds the document unchanged; every model is current exactly when the document changed no price |
| `CatalogSync.InterruptedVersionIsNeverApplied` | crates/conductor-server/src/core/model_pricing.rs:336-392 | over every run of later syncs that version is answered as unchanged or refused, and never applied |
| `CatalogSync.AnotherVersionRepairs` | crates/conductor-server/src/core/model_pricing.rs:364-392 | a later document under a new version makes current what it publishes, the lost prices included |
| `CatalogSync.ModelPriceRepo.RecordCatalog` | crates/conductor-storage/src/repos/model_price.rs:56-75 | a plain insert on the version: it fails exactly when the version is recorded |
| `CatalogSync.ModelPriceRepo.InsertPrices` | crates/conductor-storage/src/repos/model_price.rs:99-154 | the insert loop equals the specification and counts exactly the rows added |
| `CatalogSync.ModelPriceRepo.ApplyCatalog` | crates/conductor-server/src/core/model_pricing.rs:327-401 | the whole sync equals the specification, all its outcomes included |
| `CatalogDocument.LegacyKeepsThresholdsDistinct` | crates/conductor-server/src/core/model_pricing.rs:493-504 | the older spelling never makes two bands share a threshold |
| `CatalogDocument.SpellingsAgree` | crates/conductor-server/src/core/model_pricing.rs:474-504 | both spellings of a surcharge give the same prices, and stating it both ways is stating it once |
| `CatalogDocument.PricingMeaning` | crates/conductor-server/src/core/model_pricing.rs:444-512 | a model has exactly the listed bands with rates and a threshold from zero up, the older band above 200000 tokens unless one is listed there, and exactly the lanes with rates |
| `CatalogDocument.ListingOrderIsIrrelevant` | crates/conductor-server/src/core/model_pricing.rs:444-512 | the order of bands and lanes in the document does not matter when thresholds and normalized names are distinct |
| `CatalogDocument.ParsedIsWellFormed` | crates/conductor-server/src/core/model_pricing.rs:410-432 | a parsed document has normalized keys and canonical prices, each model once, provided no two models share a normalized key |
| `CatalogDocument.ParsedMeaning` | crates/conductor-server/src/core/model_pricing.rs:410-432 | parsed are exactly the models whose normalized names are not empty, ascending by provider and then model |
| `CatalogWalks.WalkOrderIsIrrelevantExactly` | crates/conductor-server/src/core/model_pricing.rs:410-432 | exact condition for every walk of the maps of providers, models and lanes to parse alike: rows with one key are the same row, and in every model that makes it into the catalog lanes with one name are the same lane |
| `CatalogWalks.RepeatedModelDependsOnWalk` | crates/conductor-server/src/core/model_pricing.rs:420-431 | a provider that lists one model under two spellings at two prices parses differently in two walks |
| `CatalogWalks.RepeatedLaneDependsOnWalk` | crates/conductor-server/src/core/model_pricing.rs:444-465 | so does a model that lists one lane under two spellings at two rates |
| `CatalogDocument.Parse` | crates/conductor-server/src/core/model_pricing.rs:410-432 | the nested loops and the sort produce exactly the specified rows |
| `Reprice.BasisIsHonest` | crates/conductor-server/src/core/reprice.rs:112-145 | a cost in force is the row in force's; the earliest row is used only on request and only when no row of the model covers the call in time |
| `Reprice.VerdictMeaning` | crates/conductor-server/src/core/reprice.rs:71-145 | the verdict is exactly the cost, catalog and basis of the row in force if that prices the call, with the fallback of the earliest row when none is in force, and unpriced otherwise |
| `Reprice.CursorSplits` | crates/conductor-server/src/core/reprice.rs:56-63 | moving the cursor to a candidate leaves exactly the candidates behind it |
| `Reprice.StoringMoves` | crates/conductor-server/src/core/reprice.rs:65-96 | storing a page settles exactly the calls between the two cursors |
| `Reprice.NextPage` | crates/conductor-server/src/core/reprice.rs:54-101 | one round settles the next page of at most 500 calls and moves the cursor behind it; a shorter page leaves nothing behind it |
| `Reprice.RepriceAll` | crates/conductor-server/src/core/reprice.rs:41-103 | the run ends, visits every unpriced call once in id order though some stay unpriced, leaves priced calls alone, and its report counts the outcomes, which add up to the calls examined |
| `Reprice.Run` | crates/conductor-server/src/core/reprice.rs:41-103 | every call without a cost ends with exactly its verdict, stated in rows by index, every other call as it was, and the report counts the outcomes by basis; without a catalog nothing happens |
| `Reprice.OutcomesAddUp` | crates/conductor-server/src/core/reprice.rs:28-39 | the three outcomes partition the examined calls |
| `Reprice.SecondRunChangesNothing` | crates/conductor-server/src/core/reprice.rs:11-13 | with the same history a second run changes nothing |
| `RepriceRun.StepIsSound` | crates/conductor-server/src/core/reprice.rs:54-101 | every step of a run, of prices set elsewhere and of rows appended meanwhile keeps visits in order, counted and true to the history of their moment, and whatever is behind the cursor priced or left as visited |
| `RepriceRun.EveryInterleaving` | crates/conductor-server/src/core/reprice.rs:41-103 | in every interleaving each call is visited at most once and in id order, each visit has exactly the verdict of the history of some moment, the report counts visits by basis, and at the end every call is priced or stands as the run resolved it |
| `RepriceRun.PricesAreFinal` | crates/conductor-storage/src/repos/telemetry.rs:920-939 | from any moment on a priced call stays as it is: whoever prices it first wins |
| `CostReport.ScaleToTotal` | crates/conductor-server/src/core/model_cost_report.rs:141-157 | the scaling with its casts, its sums within 64 bits and its checked remainder equals the specification |
| `CostReport.SplitReconciles` | crates/conductor-server/src/core/model_cost_report.rs:136-157 | the four columns add up to the stored total exactly, the first three are floors of their shares, and cache writes exceed their floor by the whole reasoning share plus less than 5 |
| `CostReport.SplitWithoutReasoning` | crates/conductor-server/src/core/model_cost_report.rs:136-157 | without reasoning the cache-write column exceeds its floor by at most 3 micro-USD |
| `CostReport.ReasoningShowsAsCacheWrites` | crates/conductor-server/src/core/model_cost_report.rs:150-155 | a model billed for reasoning alone shows its whole cost as cache writes |
| `CostReport.ProportionsKeptExactly` | crates/conductor-server/src/core/model_cost_report.rs:136-157 | exact condition for the columns to keep their proportions for every total, to within truncation: nothing is billed for reasoning |
| `CostReport.RowReconcilesOrIsUnattributed` | crates/conductor-server/src/core/model_cost_report.rs:102-116 | every row whose components add up within an i64 reconciles with its total or attributes nothing, and nothing exactly when the total or the price of its tokens is zero |
| `CostReport.SplitRowReconcilesExactly` | crates/conductor-server/src/core/model_cost_report.rs:102-157 | exact condition for every split row, casts and overflow included, to show its stored total: its shares do not exceed it, or wrap around while the first three do not |
| `CostReport.RowReconcilesExactly` | crates/conductor-server/src/core/model_cost_report.rs:102-116 | exact condition, for totals from four micro-USD on and shares within 64 bits, for a row to show its total or nothing: the components fit an i64 or wrap to something not positive |
| `CostReport.ColumnsMeaning` | crates/conductor-server/src/core/model_cost_report.rs:86-157 | each column is the floor of its component's share of the stored total, the components priced from the row's own counts |
| `CostReport.TokensMeaning` | crates/conductor-server/src/core/model_cost_report.rs:86-136 | the tokens are prompt, output and reasoning, the average is the floored cost per million of them, and no rate or no cost shows no columns |
| `CostReport.OverflowingRowDoesNotReconcile` | crates/conductor-server/src/core/model_cost_report.rs:102-157 | a row of a million tokens each at the largest rate shows three times its stored total |
| `CostReport.SortingRows` | crates/conductor-server/src/core/model_cost_report.rs:71-74 | highest spend first, the same rows, ties in their old order |
| `CostReport.SplittingKeepsOrder` | crates/conductor-server/src/core/model_cost_report.rs:36-44 | rows handed over by descending cost come out in exactly that order |
| `Hub.StepIsSafe` | crates/conductor-server/src/http/realtime.rs:186-290 | every step of every client keeps permits, live counts, owner entries and readers balanced |
| `Hub.RunIsSafe` | crates/conductor-server/src/http/realtime.rs:186-290 | every run stays safe, and the cap follows the largest maximum ever asked for |
| `Hub.EveryRun` | crates/conductor-server/src/http/realtime.rs:186-290 | at the end of every run of a new hub: permits out plus available are the cap, live counts stay within each secret's capacity, the owner map is exact without empty entries, and the active count never underflows |
| `Hub.CapacityIsFixed` | crates/conductor-server/src/http/realtime.rs:197-208 | once a secret's semaphore exists its capacity never changes and bounds its live connections |
| `Hub.BornAtTheLimit` | crates/conductor-server/src/http/realtime.rs:197-208 | over every run the capacity of a new semaphore is the per-secret limit in force at the moment it was created |
| `Hub.RefusedExactly` | crates/conductor-server/src/http/realtime.rs:209-211 | a client is refused exactly when its secret is at the capacity it was created with |
| `Hub.LimitIsHonouredExactly` | crates/conductor-server/src/http/realtime.rs:256-270 | exact condition, over every later run without an update, for a known secret to be held to the current limit: its semaphore was created with just that limit, or the hub admits nobody |
| `Hub.RaisedLimitIsIgnored` | crates/conductor-server/src/http/realtime.rs:256-270 | after a raise a second connection of a known secret is still refused |
| `Hub.NothingHeldNothingCounted` | crates/conductor-server/src/http/realtime.rs:230-240 | when no client holds anything both counts are zero and every permit is back |
| `Hub.EveryoneCanLeave` | crates/conductor-server/src/http/realtime.rs:261-290 | from every safe state, an update half done included, the update can finish and all clients run to the end, with every permit of the raised cap back |
| `Hub.ReachesExactly` | crates/conductor-server/src/http/realtime.rs:123-290 | a state is reached by a run exactly when a step-by-step trace leads to it |
| `Hub.RealtimeHub.constructor` | crates/conductor-server/src/http/realtime.rs:135-146 | a new hub is the machine's start |
| `Hub.RealtimeHub.SecretSemaphore` | crates/conductor-server/src/http/realtime.rs:197-208 | the lookup creates a missing semaphore with the limit of the moment |
| `Hub.RealtimeHub.TryConnect` | crates/conductor-server/src/http/realtime.rs:186-221 | refused globally exactly when the permits held reach the cap, per secret exactly when its connections reach its capacity, the current limit if it is new; on success that client alone is connected; the call performs exactly that run |
| `Hub.RealtimeHub.Drop` | crates/conductor-server/src/http/realtime.rs:280-290 | dropping a permit performs exactly the leaving run and frees that connection alone |
| `Hub.RealtimeHub.UpdateConfig` | crates/conductor-server/src/http/realtime.rs:261-270 | the cap becomes the greater of old and new, per-secret limit and heartbeat the new ones, nothing else changes and no semaphore of a secret is touched; performs exactly the two update steps |
| `Hub.RealtimeHub.ActiveConnections` | crates/conductor-server/src/http/realtime.rs:230-236 | the subtraction never underflows and is the number of clients that hold a global permit |
| `Hub.RealtimeHub.ActiveOwners` | crates/conductor-server/src/http/realtime.rs:238-240 | the size of the owner map is the number of distinct owners with a connected client |
| `MemberAccess.ReconcileMeaning` | crates/conductor-storage/src/repos/member_access.rs:737-829 | reconciliation fails exactly on a malformed live credential of the member and otherwise revokes exactly the member's live credentials with an incompatible scope |
| `MemberAccess.NothingIsRevoked` | crates/conductor-domain/src/authorization.rs:628-638 | with this version's compatibility table no role change ever revokes a credential |
| `MemberAccess.ActorStaysAdmin` | crates/conductor-storage/src/repos/member_access.rs:682-688 | whoever issues a successful command was an active admin and still is |
| `MemberAccess.AdminRemains` | crates/conductor-storage/src/repos/member_access.rs:263-512 | a project with an active admin still has one after any command |
| `MemberAccess.OnlyTheTargetChanges` | crates/conductor-storage/src/repos/member_access.rs:543-557 | failure changes nothing, success changes the target's row alone |
| `MemberAccess.FlagsDescribeTheRows` | crates/conductor-storage/src/repos/member_access.rs:341-353 | elevation is a step up to admin, and the audience changed exactly when role, status or an assignment did, whatever the command |
| `MemberAccess.SuccessfulRow` | crates/conductor-storage/src/repos/member_access.rs:302-330 | field by field what a successful command leaves in the target's row |
| `MemberAccess.SessionVersionIsExact` | crates/conductor-storage/src/repos/member_access.rs:302-321 | the session version rises by exactly one on elevation, real status change and approval, and otherwise stays |
| `MemberAccess.GuardedRefusal` | crates/conductor-storage/src/repos/member_access.rs:281-298 | where the last-admin guard would refuse, the actor is no active admin |
| `MemberAccess.LastAdminGuardIsRedundant` | crates/conductor-storage/src/repos/member_access.rs:281-298 | without the guard the same commands succeed with the same effect |
| `MemberAccess.SucceedsExactly` | crates/conductor-storage/src/repos/member_access.rs:263-512 | exactly which commands succeed, with no mention of the number of admins |
| `MemberAccess.FailsWithFirstFault` | crates/conductor-storage/src/repos/member_access.rs:263-848 | each error has its fault in terms of rows and fields; a command fails with the first of its faults and succeeds exactly when it has none |
| `MemberAccess.WorkIsSound` | crates/conductor-storage/src/repos/member_access.rs:263-512 | each statement under the lock keeps what the transaction knows true of the committed rows |
| `MemberAccess.StepIsSerial` | crates/conductor-storage/src/repos/member_access.rs:543-587 | every step of every interleaving keeps the outcomes explained by a serial order |
| `MemberAccess.EveryInterleavingIsSerial` | crates/conductor-storage/src/repos/member_access.rs:543-587 | database and outcomes are those of running the finished commands one after the other, commits whose answer was lost included |
| `MemberAccess.AnAdminAlwaysRemains` | crates/conductor-storage/src/repos/member_access.rs:281-298 | a project that starts with an active admin has one at every moment of every interleaving |
| `MemberAccess.SessionVersionsCountChanges` | crates/conductor-storage/src/repos/member_access.rs:302-321 | over every interleaving a session version has grown by exactly the finished changes |
| `MemberAccess.FailuresChangeNothing` | crates/conductor-storage/src/repos/member_access.rs:543-557 | failed, refused and broken transactions leave no trace |
| `MemberAccess.CheckUnique` | crates/conductor-storage/src/repos/member_access.rs:538-541 | the loop over a seen set finds exactly the lists without repetition |
| `MemberAccess.ValidateAssignmentShape` | crates/conductor-storage/src/repos/member_access.rs:525-536 | the two duplicate checks in their order |
| `MemberAccess.ValidateAssignmentRows` | crates/conductor-storage/src/repos/member_access.rs:698-735 | the two existence checks in their order |
| `MemberAccess.ReconcileCredentialPolicy` | crates/conductor-storage/src/repos/member_access.rs:737-829 | the loop over credential rows equals the specification |
| `MemberAccess.Store` | crates/conductor-storage/src/repos/member_access.rs:302-333 | user row, assignment rows and credential pass in order, undone when the last fails |
| `MemberAccess.MemberAccessRepo.UpdateAccessProfile` | crates/conductor-storage/src/repos/member_access.rs:211-219 | the command as a whole, guards in the order of the source |
| `MemberAccess.MemberAccessRepo.ApproveMember` | crates/conductor-storage/src/repos/member_access.rs:221-229 | the approval as a whole |
| `MemberAccess.MemberAccessRepo.SetMemberStatus` | crates/conductor-storage/src/repos/member_access.rs:231-252 | the status change as a whole |
| `Policy.EvaluateConstraint` | crates/conductor-domain/src/authorization.rs:885-970 | the loops over matched and first failure equal the recursive evaluator |
| `Policy.EvaluatorMeaning` | crates/conductor-domain/src/authorization.rs:885-970 | the evaluator allows exactly what the Boolean reading does; what it matched is true and enough evidence, what it reports failed is false, and a valid expression always reports one |
| `Policy.MoreFactsNeverDeny` | crates/conductor-domain/src/authorization.rs:889-906 | learning more true facts never turns an allowed input into a denied one |
| `Policy.MatchIsPermissive` | crates/conductor-server/src/route_inventory.rs:392-417 | read with an empty AND as never met, the static match is the evaluator on the input where every other fact holds |
| `Policy.MatchIsLoose` | crates/conductor-server/src/route_inventory.rs:392-417 | as written it can only match more, and does not without an empty AND |
| `Policy.OverlapIsForeseen` | crates/conductor-server/src/route_inventory.rs:384-390 | whatever the evaluator can allow the static check foresees, valid or not |
| `Policy.OverlapIsExact` | crates/conductor-server/src/route_inventory.rs:381-390 | for expressions without an empty AND, so for all valid ones, it says yes precisely when some input of the role makes the evaluator allow both |
| `Policy.OverlapExactly` | crates/conductor-server/src/route_inventory.rs:381-390 | exact condition for all expressions: the check is exact unless only an empty AND makes it say yes |
| `Policy.EmptyAllOfDisagrees` | crates/conductor-domain/src/authorization.rs:404-411 | without validity it does not: an empty AND overlaps statically and is never allowed |
| `Policy.GrantsAreValid` | crates/conductor-domain/src/authorization.rs:1070-1150 | every role grant is a valid expression |
| `Policy.RolesAreNested` | crates/conductor-domain/src/authorization.rs:1021-1150 | an admin is granted whatever a contributor is, a contributor whatever a user is, on every input |
| `Policy.GrantedExactly` | crates/conductor-domain/src/authorization.rs:1021-1163 | the role table for every permission and input: granted exactly when the role is high enough and the listed facts about self, owner, audience, project and kind hold, and which grants are cut down to what |
| `Policy.UnknownFactsAreRefused` | crates/conductor-domain/src/authorization.rs:885-970 | each constraint holds exactly when the fact it asks for is known and accepted |
| `Policy.MergeKeepsBoth` | crates/conductor-domain/src/authorization.rs:742-747 | the merged list of matched constraints holds exactly when both lists do |
| `Policy.MergeIsUnion` | crates/conductor-domain/src/authorization.rs:742-747 | the merged list is the first followed by what is new, with no constraint twice |
| `Policy.EvaluateBrowser` | crates/conductor-domain/src/authorization.rs:687-777 | in facts, without the role table: allowed exactly when session and requirement are proper and for some alternative the facts its permission asks for and its own constraints hold; the first such decides permission and projection; each denial exactly for its cause, a failed constraint being the first held alternative's |
| `Policy.FeasibleExactly` | crates/conductor-server/src/route_inventory.rs:205-216 | an alternative is statically feasible exactly when some browser session of the role is allowed by it |
| `Policy.StaticDenyIsExact` | crates/conductor-server/src/route_inventory.rs:204-240 | nothing is feasible exactly when no browser session of the role is ever allowed |
| `Policy.InventoryIsExact` | crates/conductor-server/src/route_inventory.rs:263-322 | the projections listed for a role are exactly those some session of it can get on a target of known kind and lifecycle with aggregate-only granted |
| `Policy.SeenExactly` | crates/conductor-domain/src/authorization.rs:687-777 | what a session sees is the projection of the first alternative to permit it, or what the role's grant is cut down to |
| `Policy.InventoryIsCompleteExactly` | crates/conductor-server/src/route_inventory.rs:263-322 | exact condition for the list to hold for every session of the role: withholding the aggregate grant, or leaving out kind or lifecycle, adds no projection |
| `Policy.InventoryMissesTheRest` | crates/conductor-server/src/route_inventory.rs:273-303 | a requirement for which it does |
| `SemVer.ParseOfPrint` | crates/conductor-domain/src/resource_semver.rs:71-154 | every well-formed version, build included, is read back from its text |
| `SemVer.PrintOfParse` | crates/conductor-domain/src/resource_semver.rs:194-213 | printing what was parsed gives the text back, and it was well formed |
| `SemVer.AcceptsExactly` | crates/conductor-domain/src/resource_semver.rs:71-154 | accepted are exactly the texts of well-formed versions, items 2, 9 and 10 of Semantic Versioning 2.0.0 with 64-bit numbers |
| `SemVer.ReadsTheGrammar` | crates/conductor-domain/src/resource_semver.rs:71-154 | a text is read as a version exactly when the pieces of the grammar spell it: numerals of 64 bits without leading zeros, words of the allowed characters, dots, dash and plus |
| `SemVer.TrimTestIsRedundant` | crates/conductor-domain/src/resource_semver.rs:75-77 | the white-space test refuses nothing the other checks would accept |
| `SemVer.ComparisonIsATotalOrder` | crates/conductor-domain/src/resource_semver.rs:156-192 | the comparison reverses, is equal exactly on build-ignoring equality and is transitive, items 10 and 11 |
| `SemVer.ComparesByPrecedence` | crates/conductor-domain/src/resource_semver.rs:156-192 | item 11: major, minor, patch, a pre-release below its release, then the first different identifier, numeric below alphanumeric, numbers by value, text by character, a proper prefix below |
| `SemVer.NextPatchIsLeast` | crates/conductor-domain/src/resource_semver.rs:41-58 | the next patch is the least release strictly above exactly when the version is a prerelease or its patch can grow |
| `Usd.ParsesExactly` | crates/conductor-server/src/cli/mod.rs:146-168 | accepted are exactly trimmed plain decimals with a digit, at most six places and a value that fits, and that exact value is the result |
| `Usd.FailsExactly` | crates/conductor-server/src/cli/mod.rs:146-170 | every refused input is refused for the one reason that applies: no digits, not plain, finer than a micro-dollar, or too large |
| `Usd.RenderedAs` | crates/conductor-server/src/cli/mod.rs:174-182 | whole dollars without leading zeros, then two places or six when two do not say it all, worth exactly the amount |
| `Usd.ParseOfRender` | crates/conductor-server/src/cli/mod.rs:172-182 | every u64 amount is read back from its rendering |
| `Installations.CallIsSound` | crates/conductor-storage/src/repos/client_installation.rs:27-174 | every registration and heartbeat keeps installations unique and every replay row pointing at its own request's installation |
| `Installations.RunIsSound` | crates/conductor-storage/src/repos/client_installation.rs:27-174 | over every run no installation is lost and none changes owner, instance, key or id |
| `Installations.OneInstallationForGood` | crates/conductor-storage/src/repos/client_installation.rs:71-82 | an instance and installation key name one installation with one owner for good |
| `Installations.SameRequestSameInstallation` | crates/conductor-storage/src/repos/client_installation.rs:43-150 | a later registration of the same user and installation key gets the same id at any time and under any idempotency key, and is refused exactly when that key was used for another request within the window |
| `Installations.ReplayChangesNothing` | crates/conductor-storage/src/repos/client_installation.rs:43-69 | a replay inside the window changes no installation and no surviving replay row |
| `Installations.FailureChangesNothing` | crates/conductor-storage/src/repos/client_installation.rs:62-82 | a failed call leaves both tables alone, purge included; exactly when a registration conflicts |
| `Installations.RegistrationMeaning` | crates/conductor-storage/src/repos/client_installation.rs:27-150 | every way a registration ends, field by field: replay within a day, new or refreshed row, replay row recorded, rows over a day old of the instance purged, and which conflict |
| `Installations.HeartbeatMeaning` | crates/conductor-storage/src/repos/client_installation.rs:152-174 | a heartbeat moves the last-seen and updated times of the user's row and nothing else; otherwise it finds nothing and changes nothing |
| `Installations.StoredText` | crates/conductor-storage/src/repos/client_installation.rs:88-123 | names and versions are stored without the white space around them |
| `Installations.ClientInstallationRepo.RegisterClient` | crates/conductor-storage/src/repos/client_installation.rs:27-150 | the transaction on a private copy equals the specification |
| `Installations.ClientInstallationRepo.RecordHeartbeat` | crates/conductor-storage/src/repos/client_installation.rs:152-174 | the heartbeat equals the specification |
| `Coverage.ContactIsItsReports` | crates/conductor-storage/src/repos/installation_contact.rs:33-84 | a contact row is its reports: first contact kept, last moved, counters summed |
| `Coverage.CountedExactly` | crates/conductor-storage/src/repos/installation_contact.rs:126-238 | which pairs are expected, which contacts are counted, who is expected and who is silent, in terms of rows and days |
| `Coverage.SumUp` | crates/conductor-storage/src/repos/installation_contact.rs:158-176 | the loop over cohorts, with its two skips, sums days and installations |
| `Coverage.PairsAreDays` | crates/conductor-storage/src/repos/installation_contact.rs:169-174 | the sum of days is the number of (installation, day) pairs |
| `Coverage.ExpectedIsPairs` | crates/conductor-storage/src/repos/installation_contact.rs:144-176 | grouping by registration day loses nothing: the grouped sums are the expected pairs and the expected installations |
| `Coverage.Judge` | crates/conductor-storage/src/repos/installation_contact.rs:126-238 | the last day judged is the last of the window before today, none exactly when no day of it is over; covered plus missing is expected, basis points are the floor of the covered share and full exactly when nothing is missing, and the state says which |
| `Coverage.CompleteMeansEveryPair` | crates/conductor-storage/src/repos/installation_contact.rs:208-226 | if contact rows exist only for expected pairs the window is complete exactly when something is expected and every pair has its row |
| `Coverage.CompleteMeansNobodySilent` | crates/conductor-storage/src/repos/installation_contact.rs:190-226 | then no expected installation is silent |
| `Coverage.CompleteExactly` | crates/conductor-storage/src/repos/installation_contact.rs:208-226 | exact condition for the verdict to be right: nothing is missing, or fewer rows stray from the expected pairs than are missing |
| `Coverage.StrayContactHidesSilence` | crates/conductor-storage/src/repos/installation_contact.rs:208-226 | one row of a deleted installation makes a window complete, at full basis points, whose only expected installation is silent |

## Left out

- Text encodings: archive paths and bodies are byte sequences, and strings compare by code point, which is how their UTF-8 bytes compare.
- Machine integers beyond those written out: token counts, sums of usages and components, session versions, counters and semaphore permits are unbounded; the i64 clamp of rounding, the i64 sum of a report row, the u64 limits of versions and dollars, the u16/u32 fields of the archive and the casts of the cost report are explicit.
- SQL, dialects, migrations, row decoding, JSON and RFC 3339 text: tables are values with keys, and rows hold well-typed data except for the credential scopes.
- Floating-point rates and the catalog download: the document starts from integer rates.
- Writers of the modelled tables outside the modelled operations, such as new telemetry arriving while calls are repriced, or sign-in changing users.
- The conversion of one floating-point rate, with its refusal of negative and non-finite values.
- Hub: broadcast messages, sequence numbers, heartbeats and the handshake semaphore, a plain counter that would only add easy members.
- MemberAccess: ordering of the assignment ids returned, timestamps, and the repair of invalid persisted rows; `repos/user.rs` is not part of this model, its assignment writes replace the member's set.
- Reprice: of `repos/telemetry.rs` only the keyset page and the guarded write-back are modelled; no call is inserted or deleted during a run.
- Reprice.Run: with nobody else at work and one fixed history; other writers and a growing history are the subject of `RepriceRun`.
- Policy: connection requirements, target types, principal status and the mapping of route selectors to constraints; a blank requirement identifier is a flag.
- CatalogSync: a run is of completed syncs; a sync stopped halfway appears in its own lemmas and in `LivePricing`.
- Coverage: installations whose registration day is unreadable are skipped on both sides; the text comparison of such days is not modelled.
- CostReport: totals folding over rows, a plain sum; sums and casts wrap as in an optimized build.
- Web interface, router, OIDC, tokens, hashing, storage drivers, imports and plugin validators, analytics widgets and period arithmetic.
