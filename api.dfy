/** The HTTP layer of `src/routes/api.js`: the `/clipped-polygons` handler
    with its weak validator, 304 short cut and 200/500 paths, and the wiring
    of the target controller's update hook to the dirty-flag marker. */
module Api {
  import opened Wrappers
  import opened Files
  import opened Records
  import opened Geometry
  import opened Text
  import opened GeojsonService
  import opened TargetsController

  const CACHE_CONTROL: string := "public, max-age=0, must-revalidate"

  const GENERATION_ERROR: string := "Failed to generate clipped polygons"

  const TARGET_UPDATED_REASON: string := "target-location-updated"

  /** The weak validator `W/"<size>-<trunc(mtimeMs)>"`. */
  function ETag(s: Stat): (e: string)
    ensures StartsWith(e, "W/\"") && e[|e| - 1] == '"'
  {
    "W/\"" + NatToString(s.size) + "-" + NatToString(s.mtimeMs) + "\""
  }

  /** Two validators are equal exactly when size and mtime both are: any
      change to either makes an old validator stop matching. */
  lemma ETagInjective(s1: Stat, s2: Stat)
    ensures ETag(s1) == ETag(s2) <==> s1 == s2
  {
    if ETag(s1) == ETag(s2) {
      var a1, b1 := NatToString(s1.size), NatToString(s1.mtimeMs);
      var a2, b2 := NatToString(s2.size), NatToString(s2.mtimeMs);
      var e1, e2 := ETag(s1), ETag(s2);
      assert e1[3..|e1| - 1] == a1 + "-" + b1;
      assert e2[3..|e2| - 1] == a2 + "-" + b2;
      SplitAtSeparator(a1, b1, a2, b2, '-');
      NatToStringInjective(s1.size, s2.size);
      NatToStringInjective(s1.mtimeMs, s2.mtimeMs);
    }
  }

  type Headers = map<string, string>

  datatype Body = NoBody | CollectionJson(collection: Collection) | ErrorJson(error: string)

  datatype Response = Response(status: nat, headers: Headers, body: Body)

  /** The response, the disk afterwards and the pipeline calls made. */
  datatype Served = Served(response: Response, disk: Disk, calls: seq<Call>)

  /** The two `setHeader` calls, in order. */
  function Validated(h: Headers, etag: string): (r: Headers)
    ensures r.Keys == h.Keys + {"ETag", "Cache-Control"}
    ensures r["ETag"] == etag && r["Cache-Control"] == CACHE_CONTROL
    ensures forall k :: k in h && k != "ETag" && k != "Cache-Control" ==> r[k] == h[k]
  {
    h["ETag" := etag]["Cache-Control" := CACHE_CONTROL]
  }

  /** `If-None-Match` as `if (ifNoneMatch)` reads it: present and non-empty. */
  predicate Conditional(ifNoneMatch: Option<string>) {
    ifNoneMatch.Some? && ifNoneMatch.value != ""
  }

  /** The validator of the pre-check: only for a conditional request, and
      only when the artifact can be stat'ed. */
  function PreValidator(d: Disk, l: Layout, ifNoneMatch: Option<string>): Option<string> {
    if Conditional(ifNoneMatch) && l.clipped in d.files then Some(ETag(StatOf(d.files[l.clipped]))) else None
  }

  /** The headers set before generation. */
  function PreHeaders(d: Disk, l: Layout, ifNoneMatch: Option<string>): Headers {
    match PreValidator(d, l, ifNoneMatch)
    case Some(e) => Validated(map[], e)
    case None => map[]
  }

  /** The `/clipped-polygons` handler over the caches of layout `l`. */
  function ServeSpec(d: Disk, l: Layout, env: Env, fetch: Option<Bytes>, targets: Result<seq<Target>, Error>,
                     ifNoneMatch: Option<string>): Served
  {
    var pre := PreValidator(d, l, ifNoneMatch);
    var h := PreHeaders(d, l, ifNoneMatch);
    if pre.Some? && ifNoneMatch.value == pre.value then
      Served(Response(304, h, NoBody), d, [])
    else
      var g := GenerateSpec(d, l, env, fetch, targets);
      match g.result
      case Err(_) => Served(Response(500, h, ErrorJson(GENERATION_ERROR)), g.disk, g.calls)
      case Ok(c) =>
        var h' := if l.clipped in g.disk.files then Validated(h, ETag(StatOf(g.disk.files[l.clipped]))) else h;
        Served(Response(200, h', CollectionJson(c)), g.disk, g.calls)
  }

  method GetClippedPolygons(fs: FileSystem, l: Layout, env: Env, fetch: Option<Bytes>,
                            targets: Result<seq<Target>, Error>, ifNoneMatch: Option<string>)
    returns (response: Response, calls: seq<Call>)
    modifies fs
    ensures Served(response, fs.State(), calls) == ServeSpec(old(fs.State()), l, env, fetch, targets, ifNoneMatch)
  {
    var headers: Headers := map[];
    if Conditional(ifNoneMatch) {
      var stat := fs.StatFile(l.clipped);
      if stat.Some? {
        var etag := ETag(stat.value);
        headers := headers["ETag" := etag];
        headers := headers["Cache-Control" := CACHE_CONTROL];
        if ifNoneMatch.value == etag {
          return Response(304, headers, NoBody), [];
        }
      }
    }
    var clipped;
    clipped, calls := GenerateClippedPolygons(fs, l, env, fetch, targets);
    if clipped.Err? {
      return Response(500, headers, ErrorJson(GENERATION_ERROR)), calls;
    }
    var stat := fs.StatFile(l.clipped);
    if stat.Some? {
      var etag := ETag(stat.value);
      headers := headers["ETag" := etag];
      headers := headers["Cache-Control" := CACHE_CONTROL];
    }
    response := Response(200, headers, CollectionJson(clipped.value));
  }

  /** The only statuses are 304, 200 and 500; 304 and 500 come with the fixed
      empty and error bodies. */
  lemma ServeStatuses(d: Disk, l: Layout, env: Env, fetch: Option<Bytes>, targets: Result<seq<Target>, Error>,
                      ifNoneMatch: Option<string>)
    ensures var r := ServeSpec(d, l, env, fetch, targets, ifNoneMatch).response;
      && r.status in {200, 304, 500}
      && (r.status == 304 <==> r.body == NoBody)
      && (r.status == 500 <==> r.body == ErrorJson(GENERATION_ERROR))
  {
  }

  /** A request whose `If-None-Match` equals the current validator gets 304
      with the validator, the fixed directive and no body; the disk is not
      touched and generation is not invoked. */
  lemma NotModifiedOnMatch(d: Disk, l: Layout, env: Env, fetch: Option<Bytes>, targets: Result<seq<Target>, Error>)
    requires l.clipped in d.files
    ensures var e := ETag(StatOf(d.files[l.clipped]));
      ServeSpec(d, l, env, fetch, targets, Some(e)) ==
        Served(Response(304, map["ETag" := e, "Cache-Control" := CACHE_CONTROL], NoBody), d, [])
  {
  }

  /** A 304 happens only for a non-empty `If-None-Match` equal, character for
      character, to the validator of a present artifact.  Every other request
      (no header, a missing artifact whose stat fails, any other tag) falls
      through to generation: same disk and calls as generation, 500 exactly
      when generation fails, 200 exactly when it succeeds. */
  lemma NotModifiedExactly(d: Disk, l: Layout, env: Env, fetch: Option<Bytes>, targets: Result<seq<Target>, Error>,
                           ifNoneMatch: Option<string>)
    ensures var s := ServeSpec(d, l, env, fetch, targets, ifNoneMatch);
      s.response.status == 304 <==>
        Conditional(ifNoneMatch) && l.clipped in d.files && ifNoneMatch.value == ETag(StatOf(d.files[l.clipped]))
    ensures var s := ServeSpec(d, l, env, fetch, targets, ifNoneMatch);
      var g := GenerateSpec(d, l, env, fetch, targets);
      s.response.status != 304 ==>
        && s.disk == g.disk && s.calls == g.calls
        && (s.response.status == 500 <==> g.result.Err?)
        && (s.response.status == 200 <==> g.result.Ok?)
  {
  }

  /** Without a (non-empty) `If-None-Match` nothing is stat'ed before
      generation: the handler does exactly what generation does, and a
      failure is a 500 without headers. */
  lemma UnconditionalGenerates(d: Disk, l: Layout, env: Env, fetch: Option<Bytes>, targets: Result<seq<Target>, Error>,
                               ifNoneMatch: Option<string>)
    requires !Conditional(ifNoneMatch)
    ensures var s := ServeSpec(d, l, env, fetch, targets, ifNoneMatch);
      var g := GenerateSpec(d, l, env, fetch, targets);
      && s.disk == g.disk && s.calls == g.calls
      && (g.result.Err? ==> s.response == Response(500, map[], ErrorJson(GENERATION_ERROR)))
      && (g.result.Ok? ==> s.response.status == 200 && s.response.body == CollectionJson(g.result.value))
  {
  }

  /** Every 200 carries the generated collection with the validator of the
      artifact as it is after generation (overwriting any pre-check value)
      and the fixed directive; a mismatching pre-check never decides the
      outcome, a failure is a 500 keeping only the pre-check headers. */
  lemma OkCarriesCurrentValidator(d: Disk, l: Layout, env: Env, fetch: Option<Bytes>, targets: Result<seq<Target>, Error>,
                                  ifNoneMatch: Option<string>)
    ensures var s := ServeSpec(d, l, env, fetch, targets, ifNoneMatch);
      var g := GenerateSpec(d, l, env, fetch, targets);
      && (s.response.status == 200 ==>
            && g.result.Ok? && s.response.body == CollectionJson(g.result.value)
            && l.clipped in s.disk.files
            && s.response.headers == map["ETag" := ETag(StatOf(s.disk.files[l.clipped])), "Cache-Control" := CACHE_CONTROL])
      && (s.response.status == 500 ==> g.result.Err? && s.response.headers == PreHeaders(d, l, ifNoneMatch))
  {
    var s := ServeSpec(d, l, env, fetch, targets, ifNoneMatch);
    if s.response.status == 200 {
      GenerateLeavesArtifact(d, l, env, fetch, targets);
    }
  }

  /** Replaying the validator of a 200 against the unchanged artifact gets a
      304 that calls nothing. */
  lemma RevalidationHits(d: Disk, l: Layout, env: Env, fetch: Option<Bytes>, targets: Result<seq<Target>, Error>,
                         ifNoneMatch: Option<string>, fetch2: Option<Bytes>, targets2: Result<seq<Target>, Error>)
    requires ServeSpec(d, l, env, fetch, targets, ifNoneMatch).response.status == 200
    ensures var first := ServeSpec(d, l, env, fetch, targets, ifNoneMatch);
      && "ETag" in first.response.headers
      && var second := ServeSpec(first.disk, l, env, fetch2, targets2, Some(first.response.headers["ETag"]));
         second.response.status == 304 && second.response.body == NoBody && second.disk == first.disk && second.calls == []
  {
    OkCarriesCurrentValidator(d, l, env, fetch, targets, ifNoneMatch);
  }

  /** A validator taken from an earlier stat no longer matches once the
      artifact's size or mtime differs: the present artifact is read and
      served as a 200 (when it parses) with its new validator, without any
      write or pipeline call. */
  lemma ChangedArtifactMisses(d: Disk, l: Layout, env: Env, fetch: Option<Bytes>, targets: Result<seq<Target>, Error>,
                              earlier: Stat)
    requires l.clipped in d.files && StatOf(d.files[l.clipped]) != earlier
    ensures var s := ServeSpec(d, l, env, fetch, targets, Some(ETag(earlier)));
      && s.response.status != 304
      && s.disk == d && s.calls == []
      && (s.response.status == 200 <==> env.clippedFormat.decode(d.files[l.clipped].data).Some?)
      && s.response.headers["ETag"] == ETag(StatOf(d.files[l.clipped]))
  {
    ETagInjective(earlier, StatOf(d.files[l.clipped]));
  }

  /** Targets loaded from the table, whose rows come in `ORDER BY id` order,
      have distinct ids, so the clip loop never emits two partitions with the
      same target id. */
  lemma LoadedClipIdsDistinct<M>(rows: seq<Row>, parse: string -> Option<M>, fields: M -> Option<MetaFields>,
                                 geo: GeoLib, cells: seq<Slot>, land: Geom)
    requires SortedById(rows) && TargetsController.LoadTargets(rows, parse, fields).Some?
    ensures var out := ClipUpTo(geo, cells, land, TargetsController.LoadTargets(rows, parse, fields).value, |cells|);
      forall j, k :: 0 <= j < k < |out| ==> out[j].targetId != out[k].targetId
  {
    LoadedIdsDistinct(rows, parse, fields);
    ClipIdsSubset(geo, cells, land, TargetsController.LoadTargets(rows, parse, fields).value);
  }

  /** An unrecognised `detail` query value is served exactly like a missing one. */
  lemma TierQueryCoercion(d: Disk, env: Env, fetch: Option<Bytes>, targets: Result<seq<Target>, Error>,
                          ifNoneMatch: Option<string>, detail: string)
    requires detail != "coarse"
    ensures ServeSpec(d, TierLayout(ParseDetail(Some(detail))), env, fetch, targets, ifNoneMatch) ==
            ServeSpec(d, TierLayout(ParseDetail(None)), env, fetch, targets, ifNoneMatch)
  {
    UnknownDetailIsDefault(detail);
  }

  /** `PATCH /target/:id` as wired by the router: the controller's ladder,
      then, after a successful update, the dirty marker with the fixed reason;
      the marker's outcome never reaches the reply. */
  method PatchTarget(db: TargetTable, fs: FileSystem, id: Number, lat: BodyValue, lng: BodyValue,
                     dirtyAt: string, format: Codec<DirtyFlag>)
    returns (reply: PatchReply)
    requires db.Valid()
    modifies db, fs
    ensures db.Valid()
    ensures var o := PatchSpec(old(db.rows), db.online, true, id, lat, lng);
      && reply == o.reply && db.rows == o.rows
      && fs.State() == if reply.Updated? then MarkDirtySpec(old(fs.State()), TARGET_UPDATED_REASON, dirtyAt, format).1
                       else old(fs.State())
  {
    var hookCall;
    reply, hookCall := PatchTargetLocation(db, true, id, lat, lng);
    if hookCall.Some? {
      var marked := MarkClippedPolygonsDirty(fs, TARGET_UPDATED_REASON, dirtyAt, format);
    }
  }
}
