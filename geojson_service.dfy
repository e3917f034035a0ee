/** The cached derivation pipeline: raw landmass snapshot -> simplified union
    -> Voronoi cells clipped to the union, each artifact computed only when
    its file is missing; the quality tiers, their artifact paths and the
    advisory dirty flags.

    Every step is a method on the `FileSystem` proved equal to a value-level
    specification (`DownloadSpec`, `UnionSpec`, `GenerateSpec`, `MarkDirtySpec`)
    of the disk before the call; the lemmas below state what the source
    promises about those specifications. */
module GeojsonService {
  import opened Wrappers
  import opened Files
  import opened Geometry
  import opened Records

  // ---------------------------------------------------------------------
  // Quality tiers and artifact paths
  // ---------------------------------------------------------------------

  datatype Tier = Coarse | Fine

  /** `parseDetail`: only the exact string "coarse" selects the coarse tier;
      a missing value (undefined / null) and every other string mean fine. */
  function ParseDetail(detail: Option<string>): (t: Tier)
    ensures t == Coarse <==> detail == Some("coarse")
  {
    if detail == Some("coarse") then Coarse else Fine
  }

  /** An unrecognised tier value behaves exactly like an absent one. */
  lemma UnknownDetailIsDefault(s: string)
    requires s != "coarse"
    ensures ParseDetail(Some(s)) == ParseDetail(None) == Fine
  {
  }

  function TierName(t: Tier): (s: string)
    ensures ParseDetail(Some(s)) == t
  {
    match t
    case Coarse => "coarse"
    case Fine => "fine"
  }

  const RAW_CACHE: Path := "./japan.geojson"

  /** The fixed Voronoi bounding region `[122.93, 20.0, 150.0, 46.0]`. */
  const VORONOI_BBOX: BBox := BBox(122.93, 20.0, 150.0, 46.0)

  /** `getClippedCachePath(detail)`: the collection file named after the tier. */
  function ClippedCachePath(t: Tier): (p: Path)
    ensures p == "./clipped-polygons." + TierName(t) + ".geojson"
  {
    match t
    case Coarse => "./clipped-polygons.coarse.geojson"
    case Fine => "./clipped-polygons.fine.geojson"
  }

  /** `getUnionCachePath(detail)`: the union file named after the tier. */
  function UnionCachePath(t: Tier): (p: Path)
    ensures p == "./japan-union." + TierName(t) + ".geojson"
  {
    match t
    case Coarse => "./japan-union.coarse.geojson"
    case Fine => "./japan-union.fine.geojson"
  }

  /** The dirty-flag file of a tier (the file names are placeholders; only
      their distinctness from every other artifact matters). */
  function DirtyFlagPath(t: Tier): Path {
    match t
    case Coarse => "./clipped-polygons.coarse.dirty.json"
    case Fine => "./clipped-polygons.fine.dirty.json"
  }

  /** Simplification tolerance per tier. */
  function Tolerance(t: Tier): real {
    match t
    case Coarse => 0.1
    case Fine => 0.01
  }

  /** Where one pipeline keeps its three artifacts, and its tolerance. */
  datatype Layout = Layout(raw: Path, union: Path, clipped: Path, tolerance: real) {
    predicate Distinct() {
      raw != union && raw != clipped && union != clipped
    }
    predicate Holds(p: Path) {
      p == raw || p == union || p == clipped
    }
  }

  /** The single-tier pipeline of `src/services/geojsonService.js` and `server.js`. */
  const SINGLE_TIER: Layout := Layout("./japan.geojson", "./japan-union.geojson", "./clipped-polygons.geojson", 0.01)

  /** The per-tier pipeline: shared raw snapshot, per-tier union and collection. */
  function TierLayout(t: Tier): (l: Layout)
    ensures l.Distinct() && l.raw == RAW_CACHE
    ensures l.union == UnionCachePath(t) && l.clipped == ClippedCachePath(t)
    ensures forall u :: !l.Holds(DirtyFlagPath(u))
    ensures forall u :: u != t ==> !l.Holds(UnionCachePath(u)) && !l.Holds(ClippedCachePath(u))
  {
    Layout(RAW_CACHE, UnionCachePath(t), ClippedCachePath(t), Tolerance(t))
  }

  lemma SingleTierDistinct()
    ensures SINGLE_TIER.Distinct()
    ensures forall t :: !SINGLE_TIER.Holds(DirtyFlagPath(t))
  {
  }

  // ---------------------------------------------------------------------
  // Values flowing through the pipeline
  // ---------------------------------------------------------------------

  /** A raw landmass snapshot, parsed: its features in file order. */
  datatype RawLandmass = RawLandmass(features: seq<Geom>)

  /** One clipped cell tagged with the identity of its target. */
  datatype Partition = Partition(feature: Geom, targetId: int, targetName: string)

  /** The persisted FeatureCollection of partitions. */
  datatype Collection = Collection(features: seq<Partition>)

  /** The content of a dirty-flag file: `{ reason, dirtyAt }`. */
  datatype DirtyFlag = DirtyFlag(reason: string, dirtyAt: string)

  datatype Error =
    | FetchFailed
    | WriteFailed(path: Path)
    | ParseFailed(path: Path)
    | GeometryFailed
    | TargetsFailed

  /** The collaborators the pipeline calls: loading targets, the network,
      the union+simplify step, the Voronoi step and each intersection. */
  datatype Call = LoadTargets | Fetch | BuildUnion | Voronoi | Intersect(slot: nat)

  /** The geometry library and the JSON formats of the three artifacts. */
  datatype Env = Env(
    geo: GeoLib,
    rawFormat: Bytes -> Option<RawLandmass>,
    unionFormat: Codec<Geom>,
    clippedFormat: Codec<Collection>)

  /** What one step returns, the disk it leaves and the calls it made. */
  datatype Outcome<T> = Outcome(result: Result<T, Error>, disk: Disk, calls: seq<Call>)

  /** `JSON.parse(fs.readFileSync(path))`: a parse failure is an error. */
  function Parsed<T>(v: Option<T>, p: Path): (r: Result<T, Error>)
    ensures v.Some? <==> r.Ok?
    ensures r.Ok? ==> r.value == v.value
  {
    match v
    case Some(x) => Ok(x)
    case None => Err(ParseFailed(p))
  }

  /** `turf.simplify(turf.union(featureCollection(features)), { tolerance })`. */
  function Landmass(geo: GeoLib, features: seq<Geom>, tolerance: real): (r: Option<Geom>)
    ensures geo.union(features).None? ==> r.None?
    ensures geo.union(features).Some? ==> r == geo.simplify(geo.union(features).value, tolerance)
  {
    match geo.union(features)
    case None => None
    case Some(u) => geo.simplify(u, tolerance)
  }

  // ---------------------------------------------------------------------
  // Raw snapshot
  // ---------------------------------------------------------------------

  /** `downloadJapanGeoJSON`: fetch and store only when the snapshot is missing. */
  function DownloadSpec(d: Disk, l: Layout, env: Env, fetch: Option<Bytes>): Outcome<RawLandmass> {
    if l.raw in d.files then
      Outcome(Parsed(env.rawFormat(d.files[l.raw].data), l.raw), d, [])
    else
      match fetch
      case None => Outcome(Err(FetchFailed), d, [Fetch])
      case Some(text) =>
        match WriteDisk(d, l.raw, text)
        case None => Outcome(Err(WriteFailed(l.raw)), d, [Fetch])
        case Some(d') => Outcome(Parsed(env.rawFormat(text), l.raw), d', [Fetch])
  }

  method DownloadLandmass(fs: FileSystem, l: Layout, env: Env, fetch: Option<Bytes>)
    returns (r: Result<RawLandmass, Error>, calls: seq<Call>)
    modifies fs
    ensures Outcome(r, fs.State(), calls) == DownloadSpec(old(fs.State()), l, env, fetch)
  {
    var present := fs.Exists(l.raw);
    calls := [];
    if !present {
      calls := [Fetch];
      if fetch.None? {
        return Err(FetchFailed), calls;
      }
      var ok := fs.WriteFile(l.raw, fetch.value);
      if !ok {
        return Err(WriteFailed(l.raw)), calls;
      }
    }
    var text := fs.ReadFile(l.raw);
    r := Parsed(env.rawFormat(text.value), l.raw);
  }

  /** A present snapshot is a pure read; a missing one is fetched once and
      stored byte for byte as received. */
  lemma DownloadCaches(d: Disk, l: Layout, env: Env, fetch: Option<Bytes>)
    ensures var o := DownloadSpec(d, l, env, fetch);
      && (l.raw in d.files ==> o.disk == d && o.calls == [])
      && (l.raw !in d.files ==> o.calls == [Fetch])
      && (o.disk != d ==> l.raw !in d.files && fetch.Some? && o.disk.files == d.files[l.raw := Artifact(fetch.value, d.clock)])
      && (l.raw !in d.files && fetch.Some? && l.raw !in d.readOnly ==> o.disk.files[l.raw].data == fetch.value)
  {
  }

  // ---------------------------------------------------------------------
  // Union artifact
  // ---------------------------------------------------------------------

  /** `unionJapan`: computed from the snapshot only when its artifact is missing. */
  function UnionSpec(d: Disk, l: Layout, env: Env, fetch: Option<Bytes>): Outcome<Geom> {
    if l.union in d.files then
      Outcome(Parsed(env.unionFormat.decode(d.files[l.union].data), l.union), d, [])
    else
      var dl := DownloadSpec(d, l, env, fetch);
      match dl.result
      case Err(e) => Outcome(Err(e), dl.disk, dl.calls)
      case Ok(raw) =>
        match Landmass(env.geo, raw.features, l.tolerance)
        case None => Outcome(Err(GeometryFailed), dl.disk, dl.calls + [BuildUnion])
        case Some(g) =>
          var text := env.unionFormat.encode(g);
          match WriteDisk(dl.disk, l.union, text)
          case None => Outcome(Err(WriteFailed(l.union)), dl.disk, dl.calls + [BuildUnion])
          case Some(d') => Outcome(Parsed(env.unionFormat.decode(text), l.union), d', dl.calls + [BuildUnion])
  }

  method UnionLandmass(fs: FileSystem, l: Layout, env: Env, fetch: Option<Bytes>)
    returns (r: Result<Geom, Error>, calls: seq<Call>)
    modifies fs
    ensures Outcome(r, fs.State(), calls) == UnionSpec(old(fs.State()), l, env, fetch)
  {
    var present := fs.Exists(l.union);
    if present {
      var text := fs.ReadFile(l.union);
      return Parsed(env.unionFormat.decode(text.value), l.union), [];
    }
    var raw;
    raw, calls := DownloadLandmass(fs, l, env, fetch);
    if raw.Err? {
      return Err(raw.error), calls;
    }
    calls := calls + [BuildUnion];
    var g := Landmass(env.geo, raw.value.features, l.tolerance);
    if g.None? {
      return Err(GeometryFailed), calls;
    }
    var written := env.unionFormat.encode(g.value);
    var ok := fs.WriteFile(l.union, written);
    if !ok {
      return Err(WriteFailed(l.union)), calls;
    }
    var text := fs.ReadFile(l.union);
    r := Parsed(env.unionFormat.decode(text.value), l.union);
  }

  /** A present union is a pure read.  A missing one never refetches a
      present snapshot, and when it succeeds its artifact holds the encoding
      of the simplified union of the snapshot's features, in their order. */
  lemma UnionCaches(d: Disk, l: Layout, env: Env, fetch: Option<Bytes>)
    requires l.Distinct()
    ensures var o := UnionSpec(d, l, env, fetch);
      && (l.union in d.files ==> o.disk == d && o.calls == [])
      && (l.raw in d.files ==> Fetch !in o.calls && l.raw in o.disk.files && o.disk.files[l.raw] == d.files[l.raw])
      && (l.union !in d.files && o.result.Ok? ==>
            var raw := DownloadSpec(d, l, env, fetch).result;
            && raw.Ok?
            && Landmass(env.geo, raw.value.features, l.tolerance).Some?
            && l.union in o.disk.files
            && o.disk.files[l.union].data == env.unionFormat.encode(Landmass(env.geo, raw.value.features, l.tolerance).value)
            && (RoundTrips(env.unionFormat) ==> o.result.value == Landmass(env.geo, raw.value.features, l.tolerance).value))
  {
  }

  // ---------------------------------------------------------------------
  // The clip loop
  // ---------------------------------------------------------------------

  /** The `[lng, lat]` points handed to the Voronoi step, in target order. */
  function Points(targets: seq<Target>): (ps: seq<Point>)
    ensures |ps| == |targets|
    ensures forall i :: 0 <= i < |ps| ==> ps[i] == Point(targets[i].lng, targets[i].lat)
  {
    seq(|targets|, i requires 0 <= i < |targets| => Point(targets[i].lng, targets[i].lat))
  }

  /** What slot i contributes: nothing for a null or geometry-less cell, a
      null intersection or a thrown one; nothing either when no target sits at
      index i (reading `targets[i].id` then throws inside the same `try`);
      otherwise the intersection tagged with `targets[i]`. */
  function SlotOutcome(geo: GeoLib, cells: seq<Slot>, land: Geom, targets: seq<Target>, i: nat): (r: Option<Partition>)
    requires i < |cells|
    ensures r.Some? <==> cells[i].Cell? && geo.intersect(cells[i].polygon, land).Overlap? && i < |targets|
    ensures r.Some? ==>
              r.value == Partition(geo.intersect(cells[i].polygon, land).feature, targets[i].id, targets[i].name)
  {
    match cells[i]
    case Missing => None
    case NoGeometry => None
    case Cell(poly) =>
      match geo.intersect(poly, land)
      case Overlap(f) => if i < |targets| then Some(Partition(f, targets[i].id, targets[i].name)) else None
      case Disjoint => None
      case Threw => None
  }

  /** The collection built by the first n iterations of the loop. */
  function ClipUpTo(geo: GeoLib, cells: seq<Slot>, land: Geom, targets: seq<Target>, n: nat): seq<Partition>
    requires n <= |cells|
  {
    if n == 0 then []
    else
      ClipUpTo(geo, cells, land, targets, n - 1) +
      match SlotOutcome(geo, cells, land, targets, n - 1)
      case Some(p) => [p]
      case None => []
  }

  /** The slot indices that emitted, in emission order. */
  function EmittedSlots(geo: GeoLib, cells: seq<Slot>, land: Geom, targets: seq<Target>, n: nat): seq<nat>
    requires n <= |cells|
  {
    if n == 0 then []
    else
      EmittedSlots(geo, cells, land, targets, n - 1) +
      if SlotOutcome(geo, cells, land, targets, n - 1).Some? then [n - 1] else []
  }

  /** The intersect calls the first n iterations make: one per cell with a geometry. */
  function IntersectCalls(cells: seq<Slot>, n: nat): seq<Call>
    requires n <= |cells|
  {
    if n == 0 then []
    else IntersectCalls(cells, n - 1) + if cells[n - 1].Cell? then [Intersect(n - 1)] else []
  }

  /** The loop calls intersect exactly once for every cell with a geometry and
      for nothing else: no fetch, union or Voronoi call happens inside it, and
      the slots intersected strictly increase, so none is intersected twice. */
  lemma {:induction false} IntersectCallsExactly(cells: seq<Slot>, n: nat)
    requires n <= |cells|
    ensures var r := IntersectCalls(cells, n);
      && (forall k :: 0 <= k < |r| ==> r[k].Intersect? && r[k].slot < n && cells[r[k].slot].Cell?)
      && (forall i :: 0 <= i < n && cells[i].Cell? ==> Intersect(i) in r)
      && (forall j, k :: 0 <= j < k < |r| ==> r[j].slot < r[k].slot)
  {
    if n > 0 {
      IntersectCallsExactly(cells, n - 1);
      var prev := IntersectCalls(cells, n - 1);
      if cells[n - 1].Cell? {
        assert IntersectCalls(cells, n) == prev + [Intersect(n - 1)];
      } else {
        assert IntersectCalls(cells, n) == prev;
      }
    }
  }

  /** The clip loop (`voronoi.features.forEach`), building the collection. */
  method ClipCells(geo: GeoLib, cells: seq<Slot>, land: Geom, targets: seq<Target>)
    returns (features: seq<Partition>, calls: seq<Call>)
    ensures features == ClipUpTo(geo, cells, land, targets, |cells|)
    ensures calls == IntersectCalls(cells, |cells|)
  {
    features, calls := [], [];
    var i := 0;
    while i < |cells|
      invariant 0 <= i <= |cells|
      invariant features == ClipUpTo(geo, cells, land, targets, i)
      invariant calls == IntersectCalls(cells, i)
    {
      match cells[i] {
        case Missing =>
        case NoGeometry =>
        case Cell(poly) =>
          calls := calls + [Intersect(i)];
          var inter := geo.intersect(poly, land);
          if inter.Overlap? && i < |targets| {
            features := features + [Partition(inter.feature, targets[i].id, targets[i].name)];
          }
      }
      i := i + 1;
    }
  }

  /** Alignment, order and tagging: the k-th emitted partition comes from slot
      `EmittedSlots[k]`, a cell with a geometry whose intersection overlapped,
      and carries the id and name of the target at that same index; slots are
      emitted in strictly increasing order. */
  lemma {:induction false} ClipAligned(geo: GeoLib, cells: seq<Slot>, land: Geom, targets: seq<Target>, n: nat)
    requires n <= |cells|
    ensures var out, at := ClipUpTo(geo, cells, land, targets, n), EmittedSlots(geo, cells, land, targets, n);
      && |out| == |at| <= n
      && (forall k :: 0 <= k < |at| ==>
            && at[k] < n && at[k] < |targets| && cells[at[k]].Cell?
            && geo.intersect(cells[at[k]].polygon, land) == Overlap(out[k].feature)
            && out[k].targetId == targets[at[k]].id
            && out[k].targetName == targets[at[k]].name)
      && (forall j, k :: 0 <= j < k < |at| ==> at[j] < at[k])
  {
    if n > 0 {
      ClipAligned(geo, cells, land, targets, n - 1);
    }
  }

  /** A slot emits exactly when its cell has a geometry, its intersection
      overlaps and a target sits at its index; every other slot is dropped
      without affecting the rest. */
  lemma {:induction false} EmittedExactly(geo: GeoLib, cells: seq<Slot>, land: Geom, targets: seq<Target>, n: nat)
    requires n <= |cells|
    ensures forall i :: 0 <= i < n ==>
      (i in EmittedSlots(geo, cells, land, targets, n) <==>
        cells[i].Cell? && geo.intersect(cells[i].polygon, land).Overlap? && i < |targets|)
  {
    if n > 0 {
      EmittedExactly(geo, cells, land, targets, n - 1);
      ClipAligned(geo, cells, land, targets, n - 1);
    }
  }

  /** At most one partition per cell that has a geometry, hence at most one per cell. */
  lemma {:induction false} ClipBoundedByCells(geo: GeoLib, cells: seq<Slot>, land: Geom, targets: seq<Target>, n: nat)
    requires n <= |cells|
    ensures |ClipUpTo(geo, cells, land, targets, n)| <= |IntersectCalls(cells, n)| <= n
  {
    if n > 0 {
      ClipBoundedByCells(geo, cells, land, targets, n - 1);
    }
  }

  /** Every emitted id is the id of some input target; with distinct input
      ids, no id is emitted twice. */
  lemma ClipIdsSubset(geo: GeoLib, cells: seq<Slot>, land: Geom, targets: seq<Target>)
    ensures var out := ClipUpTo(geo, cells, land, targets, |cells|);
      && (forall k :: 0 <= k < |out| ==> exists i :: 0 <= i < |targets| && out[k].targetId == targets[i].id)
      && ((forall i, j :: 0 <= i < j < |targets| ==> targets[i].id != targets[j].id) ==>
            forall j, k :: 0 <= j < k < |out| ==> out[j].targetId != out[k].targetId)
  {
    ClipAligned(geo, cells, land, targets, |cells|);
    var out, at := ClipUpTo(geo, cells, land, targets, |cells|), EmittedSlots(geo, cells, land, targets, |cells|);
    forall k | 0 <= k < |out|
      ensures exists i :: 0 <= i < |targets| && out[k].targetId == targets[i].id
    {
      assert out[k].targetId == targets[at[k]].id;
    }
  }

  // ---------------------------------------------------------------------
  // Clipped artifact: the whole pipeline
  // ---------------------------------------------------------------------

  /** `generateClippedPolygons`: a present collection is returned as parsed
      from disk; otherwise targets are loaded, the union obtained, the Voronoi
      cells computed and clipped, and the collection persisted. */
  function GenerateSpec(d: Disk, l: Layout, env: Env, fetch: Option<Bytes>, targets: Result<seq<Target>, Error>)
    : Outcome<Collection>
  {
    if l.clipped in d.files then
      Outcome(Parsed(env.clippedFormat.decode(d.files[l.clipped].data), l.clipped), d, [])
    else
      match targets
      case Err(e) => Outcome(Err(e), d, [LoadTargets])
      case Ok(ts) =>
        var u := UnionSpec(d, l, env, fetch);
        match u.result
        case Err(e) => Outcome(Err(e), u.disk, [LoadTargets] + u.calls)
        case Ok(land) =>
          match env.geo.voronoi(Points(ts), VORONOI_BBOX)
          case None => Outcome(Err(GeometryFailed), u.disk, [LoadTargets] + u.calls + [Voronoi])
          case Some(cells) =>
            var c := Collection(ClipUpTo(env.geo, cells, land, ts, |cells|));
            var calls := [LoadTargets] + u.calls + [Voronoi] + IntersectCalls(cells, |cells|);
            match WriteDisk(u.disk, l.clipped, env.clippedFormat.encode(c))
            case None => Outcome(Err(WriteFailed(l.clipped)), u.disk, calls)
            case Some(d') => Outcome(Ok(c), d', calls)
  }

  method GenerateClippedPolygons(fs: FileSystem, l: Layout, env: Env, fetch: Option<Bytes>, targets: Result<seq<Target>, Error>)
    returns (r: Result<Collection, Error>, calls: seq<Call>)
    modifies fs
    ensures Outcome(r, fs.State(), calls) == GenerateSpec(old(fs.State()), l, env, fetch, targets)
  {
    var present := fs.Exists(l.clipped);
    if present {
      var text := fs.ReadFile(l.clipped);
      return Parsed(env.clippedFormat.decode(text.value), l.clipped), [];
    }
    calls := [LoadTargets];
    if targets.Err? {
      return Err(targets.error), calls;
    }
    var ts := targets.value;
    var land, unionCalls := UnionLandmass(fs, l, env, fetch);
    calls := calls + unionCalls;
    if land.Err? {
      return Err(land.error), calls;
    }
    var voronoi := env.geo.voronoi(Points(ts), VORONOI_BBOX);
    calls := calls + [Voronoi];
    if voronoi.None? {
      return Err(GeometryFailed), calls;
    }
    var features, clipCalls := ClipCells(env.geo, voronoi.value, land.value, ts);
    calls := calls + clipCalls;
    var clipped := Collection(features);
    var ok := fs.WriteFile(l.clipped, env.clippedFormat.encode(clipped));
    if !ok {
      return Err(WriteFailed(l.clipped)), calls;
    }
    r := Ok(clipped);
  }

  /** A cache hit returns the parsed artifact, writes nothing and calls
      nothing: no target loading, fetch, union, Voronoi or intersect. */
  lemma CacheHitIsPureRead(d: Disk, l: Layout, env: Env, fetch: Option<Bytes>, targets: Result<seq<Target>, Error>)
    requires l.clipped in d.files
    ensures var o := GenerateSpec(d, l, env, fetch, targets);
      && o.disk == d && o.calls == []
      && o.result == Parsed(env.clippedFormat.decode(d.files[l.clipped].data), l.clipped)
  {
  }

  /** A successful generation from a cold collection persists exactly the
      encoding of the collection it returns, and that collection is the clip
      loop's output over the Voronoi cells of the targets' points. */
  lemma GeneratePersistsResult(d: Disk, l: Layout, env: Env, fetch: Option<Bytes>, targets: Result<seq<Target>, Error>)
    requires l.Distinct() && l.clipped !in d.files
    ensures var o := GenerateSpec(d, l, env, fetch, targets);
      o.result.Ok? ==>
        && targets.Ok?
        && l.clipped in o.disk.files
        && o.disk.files[l.clipped].data == env.clippedFormat.encode(o.result.value)
        && var land := UnionSpec(d, l, env, fetch).result;
           var cells := env.geo.voronoi(Points(targets.value), VORONOI_BBOX);
           && land.Ok? && cells.Some?
           && o.result.value.features == ClipUpTo(env.geo, cells.value, land.value, targets.value, |cells.value|)
           && o.calls == [LoadTargets] + UnionSpec(d, l, env, fetch).calls + [Voronoi] + IntersectCalls(cells.value, |cells.value|)
  {
  }

  /** On a miss the targets are loaded first; a fetch or a union build
      happens only inside the union step, and whatever that step calls, the
      generation calls too. */
  lemma MissCalls(d: Disk, l: Layout, env: Env, fetch: Option<Bytes>, targets: Result<seq<Target>, Error>)
    requires l.clipped !in d.files
    ensures var o := GenerateSpec(d, l, env, fetch, targets);
      var u := UnionSpec(d, l, env, fetch);
      && |o.calls| > 0 && o.calls[0] == LoadTargets
      && (Fetch in o.calls ==> targets.Ok? && Fetch in u.calls)
      && (targets.Ok? ==> forall c :: c in u.calls ==> c in o.calls)
  {
    var o := GenerateSpec(d, l, env, fetch, targets);
    if targets.Ok? {
      var u := UnionSpec(d, l, env, fetch);
      if u.result.Ok? {
        var cells := env.geo.voronoi(Points(targets.value), VORONOI_BBOX);
        if cells.Some? {
          var ic := IntersectCalls(cells.value, |cells.value|);
          IntersectCallsExactly(cells.value, |cells.value|);
          assert o.calls == [LoadTargets] + u.calls + [Voronoi] + ic;
          assert Fetch !in ic;
        } else {
          assert o.calls == [LoadTargets] + u.calls + [Voronoi];
        }
      } else {
        assert o.calls == [LoadTargets] + u.calls;
      }
    }
  }

  /** A union step that reaches the geometry has built the union. */
  lemma UnionBuildCalled(d: Disk, l: Layout, env: Env, fetch: Option<Bytes>)
    requires l.union !in d.files && DownloadSpec(d, l, env, fetch).result.Ok?
    ensures BuildUnion in UnionSpec(d, l, env, fetch).calls
  {
    var dl := DownloadSpec(d, l, env, fetch);
    assert UnionSpec(d, l, env, fetch).calls == dl.calls + [BuildUnion];
  }

  /** After a successful generation the collection's artifact is on disk,
      whether it was there before or has just been written. */
  lemma GenerateLeavesArtifact(d: Disk, l: Layout, env: Env, fetch: Option<Bytes>, targets: Result<seq<Target>, Error>)
    requires GenerateSpec(d, l, env, fetch, targets).result.Ok?
    ensures l.clipped in GenerateSpec(d, l, env, fetch, targets).disk.files
  {
    if l.clipped !in d.files {
      var o := GenerateSpec(d, l, env, fetch, targets);
      assert o.disk.files == UnionSpec(d, l, env, fetch).disk.files[l.clipped := o.disk.files[l.clipped]];
    }
  }

  /** Idempotence: once a generation has succeeded, the next one returns the
      same collection without touching the disk or calling anything. */
  lemma GenerateIdempotent(d: Disk, l: Layout, env: Env, fetch: Option<Bytes>, targets: Result<seq<Target>, Error>,
                           fetch2: Option<Bytes>, targets2: Result<seq<Target>, Error>)
    requires RoundTrips(env.clippedFormat)
    requires GenerateSpec(d, l, env, fetch, targets).result.Ok?
    ensures var first := GenerateSpec(d, l, env, fetch, targets);
      var second := GenerateSpec(first.disk, l, env, fetch2, targets2);
      && second.result == first.result && second.disk == first.disk && second.calls == []
  {
    var first := GenerateSpec(d, l, env, fetch, targets);
    if l.clipped !in d.files {
      var c := first.result.value;
      assert first.disk.files[l.clipped].data == env.clippedFormat.encode(c);
      assert env.clippedFormat.decode(env.clippedFormat.encode(c)) == Some(c);
    }
  }

  /** Generation reads and writes only the layout's three paths: every other
      file, a dirty flag included, is left as it was. */
  lemma GenerateTouchesOnlyLayout(d: Disk, l: Layout, env: Env, fetch: Option<Bytes>, targets: Result<seq<Target>, Error>, p: Path)
    requires !l.Holds(p)
    ensures var o := GenerateSpec(d, l, env, fetch, targets);
      (p in o.disk.files <==> p in d.files) && (p in d.files ==> o.disk.files[p] == d.files[p])
  {
  }

  /** `d1` and `d2` hold the same bytes at `p`, or both lack it. */
  predicate SameAt(d1: Disk, d2: Disk, p: Path) {
    (p in d1.files <==> p in d2.files) && (p in d1.files ==> d1.files[p].data == d2.files[p].data)
  }

  /** The disks agree on the layout's three paths and on what is writable. */
  predicate AgreeOn(l: Layout, d1: Disk, d2: Disk) {
    d1.readOnly == d2.readOnly && SameAt(d1, d2, l.raw) && SameAt(d1, d2, l.union) && SameAt(d1, d2, l.clipped)
  }

  lemma WriteKeepsAgreement(l: Layout, d1: Disk, d2: Disk, p: Path, data: Bytes)
    requires AgreeOn(l, d1, d2)
    ensures WriteDisk(d1, p, data).Some? == WriteDisk(d2, p, data).Some?
    ensures WriteDisk(d1, p, data).Some? ==> AgreeOn(l, WriteDisk(d1, p, data).value, WriteDisk(d2, p, data).value)
  {
  }

  lemma DownloadAgrees(l: Layout, d1: Disk, d2: Disk, env: Env, fetch: Option<Bytes>)
    requires AgreeOn(l, d1, d2)
    ensures var o1, o2 := DownloadSpec(d1, l, env, fetch), DownloadSpec(d2, l, env, fetch);
      o1.result == o2.result && o1.calls == o2.calls && AgreeOn(l, o1.disk, o2.disk)
  {
    if l.raw !in d1.files && fetch.Some? {
      WriteKeepsAgreement(l, d1, d2, l.raw, fetch.value);
    }
  }

  lemma UnionAgrees(l: Layout, d1: Disk, d2: Disk, env: Env, fetch: Option<Bytes>)
    requires AgreeOn(l, d1, d2)
    ensures var o1, o2 := UnionSpec(d1, l, env, fetch), UnionSpec(d2, l, env, fetch);
      o1.result == o2.result && o1.calls == o2.calls && AgreeOn(l, o1.disk, o2.disk)
  {
    if l.union !in d1.files {
      DownloadAgrees(l, d1, d2, env, fetch);
      var dl1, dl2 := DownloadSpec(d1, l, env, fetch), DownloadSpec(d2, l, env, fetch);
      if dl1.result.Ok? {
        var g := Landmass(env.geo, dl1.result.value.features, l.tolerance);
        if g.Some? {
          WriteKeepsAgreement(l, dl1.disk, dl2.disk, l.union, env.unionFormat.encode(g.value));
        }
      }
    }
  }

  lemma GenerateAgrees(l: Layout, d1: Disk, d2: Disk, env: Env, fetch: Option<Bytes>, targets: Result<seq<Target>, Error>)
    requires AgreeOn(l, d1, d2)
    ensures var o1, o2 := GenerateSpec(d1, l, env, fetch, targets), GenerateSpec(d2, l, env, fetch, targets);
      o1.result == o2.result && o1.calls == o2.calls
  {
    if l.clipped !in d1.files && targets.Ok? {
      UnionAgrees(l, d1, d2, env, fetch);
      var u1, u2 := UnionSpec(d1, l, env, fetch), UnionSpec(d2, l, env, fetch);
      if u1.result.Ok? {
        var cells := env.geo.voronoi(Points(targets.value), VORONOI_BBOX);
        if cells.Some? {
          var c := Collection(ClipUpTo(env.geo, cells.value, u1.result.value, targets.value, |cells.value|));
          WriteKeepsAgreement(l, u1.disk, u2.disk, l.clipped, env.clippedFormat.encode(c));
        }
      }
    }
  }

  /** Disks that agree on the layout's three paths and on which paths are
      writable generate the same result with the same calls: nothing else on
      disk, a dirty flag in particular, influences generation. */
  lemma GenerateDependsOnlyOnLayout(d1: Disk, d2: Disk, l: Layout, env: Env, fetch: Option<Bytes>, targets: Result<seq<Target>, Error>)
    requires d1.readOnly == d2.readOnly
    requires forall p :: l.Holds(p) ==> (p in d1.files <==> p in d2.files)
    requires forall p :: l.Holds(p) && p in d1.files ==> d1.files[p].data == d2.files[p].data
    ensures GenerateSpec(d1, l, env, fetch, targets).result == GenerateSpec(d2, l, env, fetch, targets).result
    ensures GenerateSpec(d1, l, env, fetch, targets).calls == GenerateSpec(d2, l, env, fetch, targets).calls
  {
    assert l.Holds(l.raw) && l.Holds(l.union) && l.Holds(l.clipped);
    GenerateAgrees(l, d1, d2, env, fetch, targets);
  }

  // ---------------------------------------------------------------------
  // Dirty flags
  // ---------------------------------------------------------------------

  /** `markClippedPolygonsDirty(reason)`: one flag per tier, fine then coarse,
      each written on its own; a failed write is reported, never raised. */
  function MarkDirtySpec(d: Disk, reason: string, dirtyAt: string, format: Codec<DirtyFlag>): (bool, Disk) {
    var text := format.encode(DirtyFlag(reason, dirtyAt));
    var afterFine := WriteDisk(d, DirtyFlagPath(Fine), text);
    var d1 := if afterFine.Some? then afterFine.value else d;
    var afterCoarse := WriteDisk(d1, DirtyFlagPath(Coarse), text);
    var d2 := if afterCoarse.Some? then afterCoarse.value else d1;
    (afterFine.Some? && afterCoarse.Some?, d2)
  }

  method MarkClippedPolygonsDirty(fs: FileSystem, reason: string, dirtyAt: string, format: Codec<DirtyFlag>)
    returns (ok: bool)
    modifies fs
    ensures (ok, fs.State()) == MarkDirtySpec(old(fs.State()), reason, dirtyAt, format)
  {
    var text := format.encode(DirtyFlag(reason, dirtyAt));
    var fineOk := fs.WriteFile(DirtyFlagPath(Fine), text);
    var coarseOk := fs.WriteFile(DirtyFlagPath(Coarse), text);
    ok := fineOk && coarseOk;
  }

  /** Both tiers get a flag with the given reason and timestamp (unless their
      flag path is not writable), whether or not any cache exists; no other
      file changes, so every cached artifact stays as it was. */
  lemma MarkDirtyWritesBothFlags(d: Disk, reason: string, dirtyAt: string, format: Codec<DirtyFlag>)
    ensures var (ok, d') := MarkDirtySpec(d, reason, dirtyAt, format);
      && (ok <==> DirtyFlagPath(Fine) !in d.readOnly && DirtyFlagPath(Coarse) !in d.readOnly)
      && (forall t :: DirtyFlagPath(t) !in d.readOnly ==>
            DirtyFlagPath(t) in d'.files && d'.files[DirtyFlagPath(t)].data == format.encode(DirtyFlag(reason, dirtyAt)))
      && (forall p :: p != DirtyFlagPath(Fine) && p != DirtyFlagPath(Coarse) ==>
            (p in d'.files <==> p in d.files) && (p in d.files ==> d'.files[p] == d.files[p]))
      && d'.readOnly == d.readOnly
  {
  }

  /** The flag is advisory: generating after marking gives the same result,
      with the same calls, as generating before, for every tier; in
      particular a cached tier is still served as a pure read. */
  lemma DirtyFlagIsAdvisory(d: Disk, t: Tier, reason: string, dirtyAt: string, format: Codec<DirtyFlag>,
                            env: Env, fetch: Option<Bytes>, targets: Result<seq<Target>, Error>)
    ensures var marked := MarkDirtySpec(d, reason, dirtyAt, format).1;
      && GenerateSpec(marked, TierLayout(t), env, fetch, targets).result == GenerateSpec(d, TierLayout(t), env, fetch, targets).result
      && GenerateSpec(marked, TierLayout(t), env, fetch, targets).calls == GenerateSpec(d, TierLayout(t), env, fetch, targets).calls
    ensures var marked := MarkDirtySpec(d, reason, dirtyAt, format).1;
      ClippedCachePath(t) in d.files ==>
        && GenerateSpec(marked, TierLayout(t), env, fetch, targets).calls == []
        && GenerateSpec(marked, TierLayout(t), env, fetch, targets).disk == marked
  {
    var marked := MarkDirtySpec(d, reason, dirtyAt, format).1;
    MarkDirtyWritesBothFlags(d, reason, dirtyAt, format);
    GenerateDependsOnlyOnLayout(marked, d, TierLayout(t), env, fetch, targets);
    if ClippedCachePath(t) in d.files {
      assert ClippedCachePath(t) in marked.files;
      CacheHitIsPureRead(marked, TierLayout(t), env, fetch, targets);
    }
  }
}
