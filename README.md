# 200meijyo: the clipped-polygon pipeline, in Dafny

This project models the core of the 200meijyo server. The server publishes one
region per castle site (the "100 famous castles" series and its sequel). Each
region is the site's Voronoi cell, clipped to the landmass of Japan. The
server builds these regions through three file caches, each a derived artifact:

- the raw landmass snapshot (`./japan.geojson`);
- the union of its features, simplified;
- the clipped collection.

Each cache is read when present and computed and written only when missing.
The model covers:

- **the pipeline** (`src/services/geojsonService.js`): download, union, the
  cache checks, the Voronoi step, the clip loop and persistence. Two layouts
  are modelled: the single-tier paths of the service and `server.js`, and the
  per-tier paths (`coarse`/`fine`) used by the router, the prewarm tool and
  the tests. The tier helpers and the dirty-flag marker are modelled too.
- **the HTTP layer** (`src/routes/api.js`):
  - the weak validator `W/"<size>-<mtime>"`;
  - the 304 short cut for a matching `If-None-Match`;
  - the 200 response with validator and `Cache-Control`, and the 500 response;
  - the wiring of a location update to the dirty marker.
- **the target controller** (`src/controllers/targetsController.js`):
  - target loading;
  - listing with lenient `meta` parsing;
  - the PATCH validation ladder and update;
  - the seed export with its timestamped backup and `INSERT` lines.
- **the prewarm tool** (`src/tools/prewarmPolygons.js`):
  - argument parsing, where the last mode flag wins;
  - tier selection;
  - `--clean`;
  - the sequential coarse-then-fine run.
- **the legacy server** (`server.js`): the same pipeline, without a
  validator and without a hook.

The model works like this:

- **State.** The file system is a class (`Files.FileSystem`) whose state is
  the value `Disk`. `Disk` holds:
  - a map from path to bytes and integer mtime;
  - a millisecond clock that every successful write stamps and advances;
  - a set of paths whose writes or removals throw.
- **Methods and specs.** Every imperative step is a method proved equal to a
  value-level function of the disk before the call (`DownloadSpec`,
  `UnionSpec`, `GenerateSpec`, `ServeSpec`, `WarmSpec`, `RunSpec`, …). The
  lemmas state the cache and serving properties about those functions.
- **The call trace.** Every pipeline step also returns the trace of
  collaborator calls: target loading, fetch, union, Voronoi, and each
  intersect. This makes statements such as "a cache hit calls nothing"
  checkable.
- **Geometry and JSON.** Geometry (turf) is an abstract type `Geom` with its
  operations passed in as function values (`Geometry.GeoLib`). JSON texts
  are `Files.Codec` values. `Files.RoundTrips` is assumed only where a
  property needs `JSON.parse(JSON.stringify(x))` to give back `x`.
- **The network** is an oracle argument: the fetched text, or `None` when
  the fetch fails.
- **The clip loop** indexes `targets[i]` inside its `try`. A Voronoi slot
  with no matching target therefore throws, and the loop skips it; the clip
  loop's specification (`SlotOutcome`) says exactly that.

Where the parts of the repository disagree, the model follows the code:

- `src/services/geojsonService.js` is single-tier. Its paths are
  `./japan-union.geojson` and `./clipped-polygons.geojson`, and its tolerance
  is fixed at 0.01. `src/routes/api.js`, `src/tools/prewarmPolygons.js` and
  the tests import per-tier names (`CLIPPED_CACHE_PATH`, `parseDetail`,
  `get*CachePath`, dirty-flag paths) that this file does not define.
- The model therefore takes the cache layout as a parameter
  (`GeojsonService.Layout`):
  - `SINGLE_TIER` is the service and `server.js` as written;
  - `TierLayout(t)` is the tiered layout. Its paths are the ones the tests
    assert. Its tolerances are a design decision of this model, since no
    file in this repository defines them: coarse 0.1, fine 0.01 (the
    single-tier value).
- The router's handler is modelled over any layout, because
  `CLIPPED_CACHE_PATH` and the tier it would select are not defined in the
  service in this repository.
- The prewarm tool warms `TierLayout(t)`, the layout it is written against.
- No file in this repository reads the tier query parameter; the tests send
  `detail=coarse`. `GeojsonService.ParseDetail` models the tests: only
  `"coarse"` selects coarse, and everything else, absent included, selects
  fine.
- The marker's body is not in this repository, so the model decides its
  timestamp: both flags carry the one `dirtyAt` value the caller passes.

`server.js`'s `/targets` and `/export-seed` routes are identical to
`listTargets` and `exportSeed` of the controller, and are modelled by the
same members. Its pipeline (`server.js:25-144`) is the service's pipeline
over `SINGLE_TIER`.

## Model

| member | source | states |
|---|---|---|
| Text.NatToString | src/routes/api.js:24 | `String(n)` of a safe integer is a non-empty string of decimal digits in canonical form: "0" for zero, otherwise no leading zero |
| Text.NatToStringRoundTrip | src/routes/api.js:24 | reading the decimal text back gives the number |
| Text.NatToStringInjective | src/routes/api.js:24 | two numbers print the same exactly when they are equal |
| Text.PadStart | src/controllers/targetsController.js:107-115 | `padStart(width, "0")`: length is max(len, width), the original is the suffix, everything before it is '0' |
| Text.PaddedDecimal | src/controllers/targetsController.js:107-115 | a number below 10^width pads to exactly width digits that read back as the number |
| Text.Lower | src/tools/prewarmPolygons.js:29 | lower-casing keeps the length and maps each ASCII capital to its small letter, leaving other characters alone |
| Files.WriteDisk | src/services/geojsonService.js:16 | a write fails exactly on a read-only path; otherwise it replaces the whole content, stamps the current clock and advances it |
| Files.StatOf | src/routes/api.js:23-24 | a stat reports the artifact's byte size and its mtime |
| Files.FileSystem.Exists | src/services/geojsonService.js:12 | `existsSync` is true exactly for present paths |
| Files.FileSystem.StatFile | src/routes/api.js:23 | `stat` gives the size and mtime of a present file and rejects for a missing one |
| Files.FileSystem.ReadFile | src/services/geojsonService.js:20 | `readFileSync` gives a present file's bytes and throws for a missing one |
| Files.FileSystem.WriteFile | src/services/geojsonService.js:16 | `writeFileSync` succeeds exactly off read-only paths and then replaces that one file, stamped with the clock |
| Files.FileSystem.Remove | src/tools/prewarmPolygons.js:32-38 | `rmSync(force)` deletes the path unless it is read-only; a missing path is not an error |
| Files.FileSystem.CopyFile | src/controllers/targetsController.js:119 | `copyFileSync` succeeds exactly when the source exists and the target is writable, giving the target the source bytes and a fresh mtime |
| GeojsonService.ParseDetail | test/geojsonService.test.js:16-22 | the tier is coarse exactly when the text is "coarse"; absent or anything else is fine |
| GeojsonService.UnknownDetailIsDefault | test/geojsonService.test.js:17-21 | every value other than "coarse" behaves like an absent one |
| GeojsonService.TierName | test/geojsonService.test.js:19-20 | the tier's name parses back to the tier |
| GeojsonService.TierLayout | test/geojsonService.test.js:24-29 | per-tier union and collection paths as asserted; the three paths are distinct, disjoint from every dirty flag and from the other tier's |
| GeojsonService.SingleTierDistinct | src/services/geojsonService.js:7-9 | the single-tier snapshot, union and collection paths are distinct and are no dirty flag |
| GeojsonService.ClippedCachePath | test/geojsonService.test.js:25-26 | `getClippedCachePath(detail)` is `./clipped-polygons.<tier name>.geojson` |
| GeojsonService.UnionCachePath | test/geojsonService.test.js:27-28 | `getUnionCachePath(detail)` is `./japan-union.<tier name>.geojson` |
| GeojsonService.Landmass | src/services/geojsonService.js:30-33 | a failed union gives no landmass; otherwise the landmass is the simplification of the union at the given tolerance |
| GeojsonService.Parsed | src/services/geojsonService.js:20 | a read artifact is a value exactly when it parses, and then it is the parsed value |
| GeojsonService.DownloadLandmass | src/services/geojsonService.js:11-21 | the download step equals `DownloadSpec` on the disk before it |
| GeojsonService.DownloadCaches | src/services/geojsonService.js:11-21 | a present snapshot is read with no fetch and no write; a missing one is fetched once and stored byte for byte |
| GeojsonService.UnionLandmass | src/services/geojsonService.js:23-41 | the union step equals `UnionSpec` on the disk before it |
| GeojsonService.UnionCaches | src/services/geojsonService.js:23-41 | a present union is a pure read; a present snapshot is never refetched or changed; a built union persists the encoding of simplify(union(features in file order)) |
| GeojsonService.Points | src/services/geojsonService.js:54-61 | one point per target, in order, at (lng, lat) |
| GeojsonService.SlotOutcome | src/services/geojsonService.js:72-86 | a slot emits exactly when its cell has a geometry, the intersection overlaps and a target sits at its index; it then emits that intersection tagged with the target's id and name |
| GeojsonService.ClipCells | src/services/geojsonService.js:71-87 | the clip loop yields the partitions and intersect calls of the clip specification over all cells |
| GeojsonService.ClipAligned | src/services/geojsonService.js:78-83 | each emitted partition is the intersection of its cell with the landmass, tagged with that slot's target id and name; slots strictly increase |
| GeojsonService.EmittedExactly | src/services/geojsonService.js:71-87 | a slot is emitted exactly when it has a geometry, a matching target and a non-empty, non-throwing intersection |
| GeojsonService.ClipBoundedByCells | src/services/geojsonService.js:71-87 | there are no more partitions than intersect calls, and no more intersect calls than cells |
| GeojsonService.ClipIdsSubset | src/services/geojsonService.js:80-81 | every partition carries the id of some target, and distinct target ids give distinct partition ids |
| GeojsonService.IntersectCallsExactly | src/services/geojsonService.js:72-76 | intersect is called for every cell with a geometry and for nothing else, in strictly increasing slot order, so once per cell |
| GeojsonService.GenerateClippedPolygons | src/services/geojsonService.js:43-93 | generation equals `GenerateSpec` on the disk before it |
| GeojsonService.CacheHitIsPureRead | src/services/geojsonService.js:44-47 | a present collection is returned as parsed, with no write and not one collaborator call |
| GeojsonService.GeneratePersistsResult | src/services/geojsonService.js:49-92 | a cold success persists exactly the encoding of the collection it returns, which is the clip loop over the Voronoi cells of the targets' points |
| GeojsonService.MissCalls | src/services/geojsonService.js:49-52 | on a miss the targets are loaded first, and a fetch happens only inside the union step |
| GeojsonService.UnionAgrees | src/services/geojsonService.js:23-41 | disks that agree on the layout's paths give the same union result and calls, and still agree afterwards |
| GeojsonService.GenerateLeavesArtifact | src/services/geojsonService.js:43-92 | after a successful generation the collection's artifact is on disk |
| GeojsonService.GenerateIdempotent | src/services/geojsonService.js:43-92 | after one success, the next generation returns the same collection, writes nothing and calls nothing |
| GeojsonService.GenerateTouchesOnlyLayout | src/services/geojsonService.js:7-9 | generation leaves every file outside its three paths as it was |
| GeojsonService.GenerateDependsOnlyOnLayout | src/services/geojsonService.js:43-93 | disks that agree on the layout's paths generate the same result with the same calls |
| GeojsonService.MarkClippedPolygonsDirty | test/geojsonService.test.js:31-55 | the marker equals `MarkDirtySpec` on the disk before it |
| GeojsonService.MarkDirtyWritesBothFlags | test/geojsonService.test.js:37-50 | both tiers' flags hold the reason and timestamp, whatever caches exist; success exactly when both are writable; nothing else changes |
| GeojsonService.DirtyFlagIsAdvisory | src/services/geojsonService.js:44-47 | generating after marking gives the same result and the same collaborator calls as before, for every tier; a cached tier stays a pure read that calls nothing |
| TargetsController.TargetTable.SelectAll | src/controllers/targetsController.js:35-36 | `SELECT * ... ORDER BY id` gives the rows when the database answers |
| TargetsController.TargetTable.CountById | src/controllers/targetsController.js:71-73 | `COUNT(*) WHERE id = ?` counts the rows with that id |
| TargetsController.TargetTable.UpdateLocation | src/controllers/targetsController.js:79-80 | the `UPDATE` moves the rows with that id and keeps the table sorted |
| TargetsController.CountId | src/controllers/targetsController.js:75 | the count is zero exactly when no row has the id |
| TargetsController.UpdateRows | src/controllers/targetsController.js:79-80 | same rows in the same order; those with the id get the new lat/lng, all others are unchanged |
| TargetsController.LoadedIdsDistinct | src/controllers/targetsController.js:5-31 | rows in `ORDER BY id` order load to targets with pairwise distinct ids |
| TargetsController.LoadTargets | src/controllers/targetsController.js:5-31 | `loadTargets` succeeds exactly when every row's `meta` parses and its fields can be read (it is not `null`), and then projects each row, in order, with its meta fields |
| TargetsController.ListTargets | src/controllers/targetsController.js:38-50 | one entry per row, in order, with all columns and `meta` parsed or null |
| TargetsController.ListTargetsHandler | src/controllers/targetsController.js:33-57 | the listing when the database answers, otherwise the database error |
| TargetsController.PatchTargetLocation | src/controllers/targetsController.js:59-100 | the update equals `PatchSpec` on the table before it, keeping it sorted |
| TargetsController.PatchValidatesFirst | src/controllers/targetsController.js:63-68 | a non-finite id gives "Invalid id", then a non-finite coordinate gives "Invalid lat/lng", both regardless of the table and touching nothing |
| TargetsController.PatchOutcomes | src/controllers/targetsController.js:70-99 | the statuses are 200/400/404/500; 404 exactly when no row has the id; only an update changes rows and calls the hook, echoing `{id, lat, lng}` |
| TargetsController.Esc | src/controllers/targetsController.js:126 | doubling quotes never shortens the text |
| TargetsController.EscRoundTrip | src/controllers/targetsController.js:126 | an escaped value has its quotes paired, and SQL reads it back as the original |
| TargetsController.PairedIsEscaped | src/controllers/targetsController.js:126 | every paired literal body is the escape of exactly what SQL reads from it |
| TargetsController.InsertLines | src/controllers/targetsController.js:125-131 | one `INSERT` line per row, in order |
| TargetsController.JoinThenNewline | src/controllers/targetsController.js:133 | joining with "\n" and adding one "\n" terminates every line |
| TargetsController.TerminatedLineCount | src/controllers/targetsController.js:133 | newline-free lines give exactly one newline per line |
| TargetsController.SeedText | src/controllers/targetsController.js:125-133 | the export text is every `INSERT` line followed by its own newline, or a lone newline for an empty table |
| TargetsController.SeedTextLines | src/controllers/targetsController.js:133 | the seed text is "\n" for no rows, and otherwise the terminated `INSERT` lines, one newline per row |
| TargetsController.BackupSuffix | src/controllers/targetsController.js:106-117 | the backup suffix is never shorter than 19 characters, and exactly 19 for a year of at most four digits |
| TargetsController.FieldReadsBack | src/controllers/targetsController.js:107-115 | each timestamp field is exactly its width in digits and reads back as its value |
| TargetsController.BackupSuffixShape | src/controllers/targetsController.js:106-117 | the backup suffix is `YYYYMMDD_HHMMSS.mmm`: 19 characters, '_' at 8, '.' at 15, digits elsewhere, each field reading back |
| TargetsController.ExportSeed | src/controllers/targetsController.js:102-145 | the export equals `ExportSpec` on the disk before it |
| TargetsController.BackupPath | src/controllers/targetsController.js:117 | the backup path is the seed path followed by "." and the timestamp, so it is never the seed file itself |
| TargetsController.ExportOutcome | src/controllers/targetsController.js:102-145 | an existing seed is first copied to its timestamped backup, which keeps the old bytes; the seed then holds the generated text; the count is the row count; any failure gives the export error |
| Api.ETag | src/routes/api.js:24 | the validator is weak and quoted |
| Api.ETagInjective | src/routes/api.js:24 | two validators are equal exactly when size and mtime both are |
| Api.Validated | src/routes/api.js:26-27 | sets `ETag` to the validator and `Cache-Control` to the fixed directive, keeping the other headers |
| Api.GetClippedPolygons | src/routes/api.js:17-55 | the handler equals `ServeSpec` on the disk before it |
| Api.ServeStatuses | src/routes/api.js:17-55 | the statuses are 200, 304 and 500; 304 exactly with the empty body, 500 exactly with the fixed error body |
| Api.NotModifiedOnMatch | src/routes/api.js:20-31 | a matching `If-None-Match` gets 304 with validator and directive, an empty body, no write and no generation |
| Api.UnconditionalGenerates | src/routes/api.js:21-39 | without a non-empty `If-None-Match` nothing is checked first; failure is a header-less 500 |
| Api.OkCarriesCurrentValidator | src/routes/api.js:41-54 | a 200 carries the generated collection and the validator of the artifact after generation; a 500 keeps only the pre-check headers |
| Api.RevalidationHits | test/api-clipped-polygons.test.js:56-63 | replaying a 200's validator against the unchanged artifact gets 304 with no body, no write and no call |
| Api.NotModifiedExactly | src/routes/api.js:20-54 | 304 happens exactly for a non-empty `If-None-Match` equal to the validator of a present artifact; every other request (no header, a failed stat, any other tag) gets what generation gives: same disk and calls, 500 exactly when it fails, 200 exactly when it succeeds |
| Api.LoadedClipIdsDistinct | src/services/geojsonService.js:80-81 | targets loaded from the sorted table never give two partitions with the same target id |
| Api.ChangedArtifactMisses | src/routes/api.js:29 | once size or mtime changed, the old validator misses: the artifact is served as 200 (when it parses) with its new validator, and nothing is written or called |
| Api.TierQueryCoercion | test/geojsonService.test.js:21 | a corollary of the `parseDetail` test, not behaviour of the router: were the handler to serve the tier `parseDetail` selects, an unrecognised value would be served exactly like a missing one |
| Api.PatchTarget | src/routes/api.js:12-15 | the routed update is the controller's; after a successful update both dirty flags are written with "target-location-updated", and their failure never reaches the reply |
| Prewarm.ModeEffect | src/tools/prewarmPolygons.js:19-22 | the mode each flag selects; `--mode=x` selects x; `--clean` selects none |
| Prewarm.ParseArgs | src/tools/prewarmPolygons.js:16-26 | clean exactly when `--clean` is present; the mode is the last mode flag's effect, or "coarse" when there is none |
| Prewarm.ModeFromUnique | src/tools/prewarmPolygons.js:16-26 | the arguments determine the mode |
| Prewarm.RunModeOf | src/tools/prewarmPolygons.js:28-30 | case-insensitive "both" selects both tiers, "coarse" coarse, anything else fine |
| Prewarm.CleanCaches | src/tools/prewarmPolygons.js:40-51 | removes the tier's writable union, collection and dirty flag, ignoring failures |
| Prewarm.CleanAffectsOneTier | src/tools/prewarmPolygons.js:40-51 | cleaning removes exactly those three paths, never the snapshot or the other tier's files |
| Prewarm.Warm | src/tools/prewarmPolygons.js:57-72 | warming equals `WarmSpec` on the disk before it |
| Prewarm.CleanForcesRegeneration | src/tools/prewarmPolygons.js:58-68 | after `--clean` targets are loaded first, the union is rebuilt whenever the snapshot is usable, and a present snapshot is not refetched |
| Prewarm.WarmCachedIsPureRead | src/tools/prewarmPolygons.js:65-68 | without `--clean`, a cached tier is a pure read |
| Prewarm.RunPrewarm | src/tools/prewarmPolygons.js:16-79 | the command parses as `ParseArgs` and runs as `RunSpec` on the selected mode |
| Prewarm.RunLeavesArtifacts | src/tools/prewarmPolygons.js:74-79 | both tiers run coarse first and fine only after coarse succeeded; on success every warmed tier's collection is on disk |
| Prewarm.RerunIsPureRead | src/tools/prewarmPolygons.js:74-79 | after a successful run, the same run without `--clean` succeeds with no write and no call |
| LegacyServer.LegacyGetClippedPolygons | server.js:149-157 | the legacy handler equals `LegacyServeSpec` on the disk before it |
| LegacyServer.LegacyIsUnconditional | server.js:149-157 | the same status, body, disk and calls as an unconditional routed request; no headers; only 200 or 500 |
| LegacyServer.LegacyPatchTarget | server.js:186-227 | the legacy update is the controller's ladder without a hook |
| LegacyServer.LegacyPatchAgrees | server.js:186-227 | same reply and rows as the routed update; only the routed one triggers the marker, exactly on success |

## Left out

- Geometry itself: union, simplify, Voronoi and intersect are opaque operations passed in. The properties hold for every behaviour of them.
- JSON text: encoding and decoding are opaque codecs. Feature `properties` spreading and the `type` fields of the GeoJSON objects are not modelled.
- The network: `fetch` is an oracle argument. A failed fetch is an error; partial bodies and HTTP status are not distinguished.
- Clock and dates: file mtimes come from a counter, not from wall-clock milliseconds. `new Date()` is a `DateFields` argument. Negative years are not modelled (the year is a `nat`). A year of five or more digits is kept unpadded, as `padStart` does, so the backup suffix is 19 characters only for a valid date whose year fits in four digits (`ValidDate`).
- Floating point: coordinates are reals. `Number.isFinite` is modelled by a `Number` datatype with NaN and infinities. The printing of `${r.lat}` is an opaque `show` argument, and string-to-bytes encoding is an opaque `utf8` argument.
- SQL: the series filter and `ORDER BY` of `loadTargets`, and the query engine itself, are outside the model. The table is a sorted sequence of rows, and a failing database is an `online` flag. Null columns are not modelled.
- Concurrency: concurrent requests for a missing artifact and the asynchronous scheduling of the steps are not modelled; every step runs to completion in order.
- Logging (`console.log`/`console.warn`), the export reply's `message` text, and the Express wiring (`src/app.js`, `src/server.js`, static files, `listen`) are not modelled.
- Database initialisation (`db/init.js`, `db/db.js`) is not part of this model.
- GeojsonService.DirtyFlagPath: the dirty-flag file names are not in the service in this repository. Placeholder names are used, and only their distinctness from the artifact paths is relied on.
- GeojsonService.MarkClippedPolygonsDirty: the marker's body is not in the service in this repository. It is modelled after its test, with these design decisions: each write on its own, failures reported and never raised, one timestamp for both. The test (test/geojsonService.test.js:37-50) only checks that both flags exist with the reason; the order fine then coarse is a modelling choice.
- GeojsonService.Tolerance: the per-tier tolerances are a design decision, as no file in this repository defines them. The service in this repository uses 0.01 for its single tier, and the overridable configuration is not modelled.
- Api.GetClippedPolygons: the router in this repository does not pass a tier to generation, so the handler is stated for any one layout.
- Api.GetClippedPolygons: only the handler's own string-exact comparison of `If-None-Match` is modelled. Express's `res.json` also runs its freshness check (`req.fresh`), which answers 304 to `If-None-Match: *`, to a comma-separated list holding the validator and to its strong form `"size-mtime"`; the model answers those with 200 and the body.
- LegacyServer.LegacyGetClippedPolygons: Express's `res.json` adds its own weak ETag to the 200 and answers a request whose `If-None-Match` matches that ETag with 304. The model covers only the handler's code, which sets no header and answers only 200 or 500.
- Text.Lower: only ASCII letters are lower-cased; full Unicode case mapping is not modelled.
- Prewarm.RunPrewarm: the process exit on a rejected top-level await and the elapsed-time log are not modelled; a failed tier ends the run.
