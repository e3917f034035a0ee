/** The cache prewarm command of `src/tools/prewarmPolygons.js`: argument
    parsing (last mode flag wins), tier selection, the optional removal of a
    tier's derived artifacts, and generation for one tier or for coarse then
    fine. */
module Prewarm {
  import opened Wrappers
  import opened Files
  import opened Records
  import opened Text
  import opened GeojsonService

  /** The parsed command line: the mode text and whether to clean first. */
  datatype Args = Args(mode: string, clean: bool)

  const MODE_PREFIX: string := "--mode="

  /** What one argument does to the mode, if anything. */
  function ModeEffect(a: string): (m: Option<string>)
    ensures a == "--coarse" ==> m == Some("coarse")
    ensures a == "--fine" ==> m == Some("fine")
    ensures a == "--both" ==> m == Some("both")
    ensures a == "--clean" ==> m == None
    ensures m.Some? && a !in {"--coarse", "--fine", "--both"} ==>
              StartsWith(a, MODE_PREFIX) && m.value == a[|MODE_PREFIX|..]
    ensures StartsWith(a, MODE_PREFIX) ==> m == Some(a[|MODE_PREFIX|..])
  {
    FixedFlagsAreNoMode();
    if a == "--coarse" then Some("coarse")
    else if a == "--fine" then Some("fine")
    else if a == "--both" then Some("both")
    else if StartsWith(a, MODE_PREFIX) then Some(a[|MODE_PREFIX|..])
    else None
  }

  /** Argument `i` sets the mode and no later argument does. */
  ghost predicate LastModeAt(argv: seq<string>, i: int) {
    0 <= i < |argv| && ModeEffect(argv[i]).Some? && forall j :: i < j < |argv| ==> ModeEffect(argv[j]).None?
  }

  /** `mode` is what the mode-setting arguments of `argv` leave behind: the
      effect of the last of them, or the default "coarse" when there is none. */
  ghost predicate ModeFrom(argv: seq<string>, mode: string) {
    && ((forall i :: 0 <= i < |argv| ==> ModeEffect(argv[i]).None?) ==> mode == "coarse")
    && (forall i :: LastModeAt(argv, i) ==> mode == ModeEffect(argv[i]).value)
  }

  /** None of the fixed flags is a `--mode=` argument, so the order of the
      tests in `parseArgs` does not matter for them. */
  lemma FixedFlagsAreNoMode()
    ensures !StartsWith("--coarse", MODE_PREFIX) && !StartsWith("--fine", MODE_PREFIX)
    ensures !StartsWith("--both", MODE_PREFIX) && !StartsWith("--clean", MODE_PREFIX)
  {
    assert "--coarse"[2] != MODE_PREFIX[2] && "--fine"[2] != MODE_PREFIX[2];
    assert "--both"[2] != MODE_PREFIX[2] && "--clean"[2] != MODE_PREFIX[2];
  }

  /** `parseArgs`: unknown arguments are ignored. */
  method ParseArgs(argv: seq<string>) returns (args: Args)
    ensures args.clean <==> "--clean" in argv
    ensures ModeFrom(argv, args.mode)
  {
    args := Args("coarse", false);
    ghost var last := -1;
    FixedFlagsAreNoMode();
    var k := 0;
    while k < |argv|
      invariant 0 <= k <= |argv|
      invariant args.clean <==> "--clean" in argv[..k]
      invariant -1 <= last < k
      invariant last == -1 ==> args.mode == "coarse" && forall j :: 0 <= j < k ==> ModeEffect(argv[j]).None?
      invariant last >= 0 ==> ModeEffect(argv[last]) == Some(args.mode)
      invariant forall j :: last < j < k ==> ModeEffect(argv[j]).None?
    {
      var a := argv[k];
      if a == "--coarse" {
        args := args.(mode := "coarse");
        last := k;
      } else if a == "--fine" {
        args := args.(mode := "fine");
        last := k;
      } else if a == "--both" {
        args := args.(mode := "both");
        last := k;
      } else if StartsWith(a, MODE_PREFIX) {
        args := args.(mode := a[|MODE_PREFIX|..]);
        last := k;
      } else if a == "--clean" {
        args := args.(clean := true);
      }
      assert argv[..k + 1] == argv[..k] + [a];
      k := k + 1;
    }
    assert argv[..k] == argv;
  }

  /** The mode is determined by the arguments: `ModeFrom` admits one value. */
  lemma ModeFromUnique(argv: seq<string>, m1: string, m2: string)
    requires ModeFrom(argv, m1) && ModeFrom(argv, m2)
    ensures m1 == m2
  {
    if exists i :: 0 <= i < |argv| && ModeEffect(argv[i]).Some? {
      var i :| 0 <= i < |argv| && ModeEffect(argv[i]).Some?;
      LastEffect(argv, i);
    }
  }

  /** Some mode-setting argument is the last one. */
  lemma LastEffect(argv: seq<string>, i: nat)
    requires i < |argv| && ModeEffect(argv[i]).Some?
    ensures exists k :: LastModeAt(argv, k)
    decreases |argv| - i
  {
    if exists j :: i < j < |argv| && ModeEffect(argv[j]).Some? {
      var j :| i < j < |argv| && ModeEffect(argv[j]).Some?;
      LastEffect(argv, j);
    } else {
      assert LastModeAt(argv, i);
    }
  }

  /** What the command warms: both tiers, or one. */
  datatype RunMode = Both | Single(tier: Tier)

  /** `String(mode).toLowerCase()`, then "both" or `parseDetail`. */
  function RunModeOf(mode: string): (m: RunMode)
    ensures m == Both <==> Lower(mode) == "both"
    ensures m == Single(Coarse) <==> Lower(mode) == "coarse"
    ensures m == Single(Fine) <==> Lower(mode) != "both" && Lower(mode) != "coarse"
  {
    var normalized := Lower(mode);
    if normalized == "both" then Both else Single(ParseDetail(Some(normalized)))
  }

  /** The derived artifacts of one tier that `--clean` removes. */
  function CleanSet(t: Tier): set<Path> {
    {UnionCachePath(t), ClippedCachePath(t), DirtyFlagPath(t)}
  }

  /** `cleanCaches(detail)`: each removal on its own, a failure ignored. */
  function CleanDisk(d: Disk, t: Tier): Disk {
    Disk(d.files - (CleanSet(t) - d.readOnly), d.clock, d.readOnly)
  }

  method CleanCaches(fs: FileSystem, t: Tier)
    modifies fs
    ensures fs.State() == CleanDisk(old(fs.State()), t)
  {
    var removedUnion := fs.Remove(UnionCachePath(t));
    var removedClipped := fs.Remove(ClippedCachePath(t));
    var removedFlag := fs.Remove(DirtyFlagPath(t));
  }

  /** Cleaning removes exactly the tier's writable union, collection and flag:
      the raw snapshot and everything of the other tier stay as they were. */
  lemma CleanAffectsOneTier(d: Disk, t: Tier, p: Path)
    ensures var c := CleanDisk(d, t);
      && (p in c.files <==> p in d.files && (p !in CleanSet(t) || p in d.readOnly))
      && (p in c.files ==> c.files[p] == d.files[p])
      && c.clock == d.clock && c.readOnly == d.readOnly
    ensures RAW_CACHE !in CleanSet(t)
    ensures forall u :: u != t ==> CleanSet(t) * CleanSet(u) == {}
  {
  }

  /** `warm(detail)`: optionally clean, then generate the tier's collection. */
  function WarmSpec(d: Disk, t: Tier, clean: bool, env: Env, fetch: Option<Bytes>, targets: Result<seq<Target>, Error>)
    : Outcome<Collection>
  {
    GenerateSpec(if clean then CleanDisk(d, t) else d, TierLayout(t), env, fetch, targets)
  }

  method Warm(fs: FileSystem, t: Tier, clean: bool, env: Env, fetch: Option<Bytes>, targets: Result<seq<Target>, Error>)
    returns (r: Result<Collection, Error>, calls: seq<Call>)
    modifies fs
    ensures Outcome(r, fs.State(), calls) == WarmSpec(old(fs.State()), t, clean, env, fetch, targets)
  {
    if clean {
      CleanCaches(fs, t);
    }
    r, calls := GenerateClippedPolygons(fs, TierLayout(t), env, fetch, targets);
  }

  /** With `--clean` (and writable paths) the tier is always regenerated from
      its targets: the targets are loaded first, the union is rebuilt whenever
      the snapshot is usable, and a present snapshot is never refetched. */
  lemma CleanForcesRegeneration(d: Disk, t: Tier, env: Env, fetch: Option<Bytes>, targets: Result<seq<Target>, Error>)
    requires CleanSet(t) !! d.readOnly
    ensures var o := WarmSpec(d, t, true, env, fetch, targets);
      var l := TierLayout(t);
      var c := CleanDisk(d, t);
      && |o.calls| > 0 && o.calls[0] == LoadTargets
      && (targets.Ok? && DownloadSpec(c, l, env, fetch).result.Ok? ==> BuildUnion in o.calls)
      && (RAW_CACHE in d.files ==> Fetch !in o.calls)
  {
    var l := TierLayout(t);
    var c := CleanDisk(d, t);
    CleanAffectsOneTier(d, t, l.clipped);
    CleanAffectsOneTier(d, t, l.union);
    CleanAffectsOneTier(d, t, l.raw);
    assert ClippedCachePath(t) in CleanSet(t) && UnionCachePath(t) in CleanSet(t);
    assert l.clipped !in c.files && l.union !in c.files;
    UnionCaches(c, l, env, fetch);
    MissCalls(c, l, env, fetch, targets);
    if targets.Ok? && DownloadSpec(c, l, env, fetch).result.Ok? {
      UnionBuildCalled(c, l, env, fetch);
    }
  }

  /** Without `--clean` a tier whose collection is cached is a pure read. */
  lemma WarmCachedIsPureRead(d: Disk, t: Tier, env: Env, fetch: Option<Bytes>, targets: Result<seq<Target>, Error>)
    requires ClippedCachePath(t) in d.files
    ensures var o := WarmSpec(d, t, false, env, fetch, targets);
      o.disk == d && o.calls == []
  {
    CacheHitIsPureRead(d, TierLayout(t), env, fetch, targets);
  }

  /** What a run did: the tiers it started, whether all succeeded, the disk
      afterwards and the calls made. */
  datatype Run = Run(warmed: seq<Tier>, ok: bool, disk: Disk, calls: seq<Call>)

  /** The dispatch: one tier, or coarse and then fine; a failing coarse run
      rejects the top-level await, so fine is never started. */
  function RunSpec(d: Disk, m: RunMode, clean: bool, env: Env, fetch: Option<Bytes>, targets: Result<seq<Target>, Error>)
    : Run
  {
    match m
    case Single(t) =>
      var w := WarmSpec(d, t, clean, env, fetch, targets);
      Run([t], w.result.Ok?, w.disk, w.calls)
    case Both =>
      var c := WarmSpec(d, Coarse, clean, env, fetch, targets);
      if c.result.Err? then Run([Coarse], false, c.disk, c.calls)
      else
        var f := WarmSpec(c.disk, Fine, clean, env, fetch, targets);
        Run([Coarse, Fine], f.result.Ok?, f.disk, c.calls + f.calls)
  }

  /** The whole command on the argument vector `argv` (without node and script). */
  method RunPrewarm(fs: FileSystem, argv: seq<string>, env: Env, fetch: Option<Bytes>, targets: Result<seq<Target>, Error>)
    returns (args: Args, warmed: seq<Tier>, ok: bool, calls: seq<Call>)
    modifies fs
    ensures args.clean <==> "--clean" in argv
    ensures ModeFrom(argv, args.mode)
    ensures Run(warmed, ok, fs.State(), calls) == RunSpec(old(fs.State()), RunModeOf(args.mode), args.clean, env, fetch, targets)
  {
    args := ParseArgs(argv);
    var runMode := RunModeOf(args.mode);
    if runMode == Both {
      var coarse, coarseCalls := Warm(fs, Coarse, args.clean, env, fetch, targets);
      if coarse.Err? {
        return args, [Coarse], false, coarseCalls;
      }
      var fine, fineCalls := Warm(fs, Fine, args.clean, env, fetch, targets);
      warmed, ok, calls := [Coarse, Fine], fine.Ok?, coarseCalls + fineCalls;
    } else {
      var r;
      r, calls := Warm(fs, runMode.tier, args.clean, env, fetch, targets);
      warmed, ok := [runMode.tier], r.Ok?;
    }
  }

  /** A run warms the tiers of its mode, coarse first, stopping at the first
      failure; when it succeeds every warmed tier's collection is on disk, the
      coarse one surviving the fine run. */
  lemma RunLeavesArtifacts(d: Disk, m: RunMode, clean: bool, env: Env, fetch: Option<Bytes>, targets: Result<seq<Target>, Error>)
    ensures var r := RunSpec(d, m, clean, env, fetch, targets);
      && (m.Single? ==> r.warmed == [m.tier])
      && (m.Both? ==> r.warmed == [Coarse] || r.warmed == [Coarse, Fine])
      && (m.Both? ==> (r.warmed == [Coarse, Fine] <==> WarmSpec(d, Coarse, clean, env, fetch, targets).result.Ok?))
      && (r.ok ==> forall t :: t in r.warmed ==> ClippedCachePath(t) in r.disk.files)
  {
    var r := RunSpec(d, m, clean, env, fetch, targets);
    if r.ok {
      match m
      case Single(t) =>
        GenerateLeavesArtifact(if clean then CleanDisk(d, t) else d, TierLayout(t), env, fetch, targets);
      case Both =>
        var c0 := if clean then CleanDisk(d, Coarse) else d;
        var c := WarmSpec(d, Coarse, clean, env, fetch, targets);
        GenerateLeavesArtifact(c0, TierLayout(Coarse), env, fetch, targets);
        var f0 := if clean then CleanDisk(c.disk, Fine) else c.disk;
        GenerateLeavesArtifact(f0, TierLayout(Fine), env, fetch, targets);
        assert ClippedCachePath(Coarse) in f0.files;
        GenerateTouchesOnlyLayout(f0, TierLayout(Fine), env, fetch, targets, ClippedCachePath(Coarse));
    }
  }

  /** Rerunning a successful run without `--clean` is a pure read: every
      tier it warmed is now served from its cached collection. */
  lemma RerunIsPureRead(d: Disk, m: RunMode, clean: bool, env: Env, fetch: Option<Bytes>, targets: Result<seq<Target>, Error>,
                        fetch2: Option<Bytes>, targets2: Result<seq<Target>, Error>)
    requires RoundTrips(env.clippedFormat)
    requires RunSpec(d, m, clean, env, fetch, targets).ok
    ensures var first := RunSpec(d, m, clean, env, fetch, targets);
      var second := RunSpec(first.disk, m, false, env, fetch2, targets2);
      second.ok && second.disk == first.disk && second.calls == []
  {
    match m
    case Single(t) =>
      GenerateIdempotent(if clean then CleanDisk(d, t) else d, TierLayout(t), env, fetch, targets, fetch2, targets2);
    case Both =>
      var lc, lf := TierLayout(Coarse), TierLayout(Fine);
      var c0 := if clean then CleanDisk(d, Coarse) else d;
      var c := GenerateSpec(c0, lc, env, fetch, targets);
      var f0 := if clean then CleanDisk(c.disk, Fine) else c.disk;
      var f := GenerateSpec(f0, lf, env, fetch, targets);
      GenerateIdempotent(c0, lc, env, fetch, targets, fetch2, targets2);
      GenerateLeavesArtifact(c0, lc, env, fetch, targets);
      assert lc.clipped in f0.files && f0.files[lc.clipped] == c.disk.files[lc.clipped];
      GenerateTouchesOnlyLayout(f0, lf, env, fetch, targets, lc.clipped);
      CacheHitIsPureRead(c.disk, lc, env, fetch2, targets2);
      CacheHitIsPureRead(f.disk, lc, env, fetch2, targets2);
      GenerateIdempotent(f0, lf, env, fetch, targets, fetch2, targets2);
  }
}
