/** The original single-file server, `server.js`: the same pipeline over the
    single-tier caches, served without a validator, and a location update
    without any hook.  Its `/targets` and `/export-seed` routes are the
    controller's handlers line for line and are modelled by
    `TargetsController.ListTargetsHandler` and `TargetsController.ExportSeed`. */
module LegacyServer {
  import opened Wrappers
  import opened Files
  import opened Records
  import opened GeojsonService
  import opened TargetsController
  import opened Api

  /** `GET /clipped-polygons`: 200 with the collection, or 500; no headers. */
  function LegacyServeSpec(d: Disk, env: Env, fetch: Option<Bytes>, targets: Result<seq<Target>, Error>): Served {
    var g := GenerateSpec(d, SINGLE_TIER, env, fetch, targets);
    match g.result
    case Ok(c) => Served(Response(200, map[], CollectionJson(c)), g.disk, g.calls)
    case Err(_) => Served(Response(500, map[], ErrorJson(GENERATION_ERROR)), g.disk, g.calls)
  }

  method LegacyGetClippedPolygons(fs: FileSystem, env: Env, fetch: Option<Bytes>, targets: Result<seq<Target>, Error>)
    returns (response: Response, calls: seq<Call>)
    modifies fs
    ensures Served(response, fs.State(), calls) == LegacyServeSpec(old(fs.State()), env, fetch, targets)
  {
    var clipped;
    clipped, calls := GenerateClippedPolygons(fs, SINGLE_TIER, env, fetch, targets);
    if clipped.Ok? {
      response := Response(200, map[], CollectionJson(clipped.value));
    } else {
      response := Response(500, map[], ErrorJson(GENERATION_ERROR));
    }
  }

  /** The legacy route answers every request as the router answers one
      without `If-None-Match` over the same caches, except that it never sets
      a validator: same status, body, disk and calls, and no headers. */
  lemma LegacyIsUnconditional(d: Disk, env: Env, fetch: Option<Bytes>, targets: Result<seq<Target>, Error>)
    ensures var legacy := LegacyServeSpec(d, env, fetch, targets);
      var routed := ServeSpec(d, SINGLE_TIER, env, fetch, targets, None);
      && legacy.response.status == routed.response.status
      && legacy.response.body == routed.response.body
      && legacy.disk == routed.disk && legacy.calls == routed.calls
      && legacy.response.headers == map[]
      && legacy.response.status in {200, 500}
  {
    UnconditionalGenerates(d, SINGLE_TIER, env, fetch, targets, None);
  }

  /** `PATCH /target/:id` without a hook. */
  method LegacyPatchTarget(db: TargetTable, id: Number, lat: BodyValue, lng: BodyValue) returns (reply: PatchReply)
    requires db.Valid()
    modifies db
    ensures db.Valid()
    ensures var o := PatchSpec(old(db.rows), db.online, false, id, lat, lng);
      reply == o.reply && db.rows == o.rows
  {
    var hookCall;
    reply, hookCall := PatchTargetLocation(db, false, id, lat, lng);
  }

  /** The legacy update answers and changes the table exactly as the routed
      one does; only the routed one triggers the dirty marker. */
  lemma LegacyPatchAgrees(rows: seq<Row>, online: bool, id: Number, lat: BodyValue, lng: BodyValue)
    ensures var legacy := PatchSpec(rows, online, false, id, lat, lng);
      var routed := PatchSpec(rows, online, true, id, lat, lng);
      && legacy.reply == routed.reply && legacy.rows == routed.rows
      && legacy.hookCall == None
      && (routed.hookCall.Some? <==> routed.reply.Updated?)
  {
    PatchOutcomes(rows, online, false, id, lat, lng);
    PatchOutcomes(rows, online, true, id, lat, lng);
  }
}
