/** The file system the pipeline persists its artifacts in: a map from path to
    artifact (bytes and integer modification time).  Reads never fail for a
    present path; a write or a removal of a path in `readOnly` fails, which is
    how `fs.writeFileSync` / `fs.rmSync` / `fs.copyFileSync` throwing is
    modelled.  Every successful write stamps the artifact with the current
    millisecond `clock` and advances it. */
module Files {
  import opened Wrappers

  newtype byte = x: int | 0 <= x < 256

  type Bytes = seq<byte>

  type Path = string

  datatype Artifact = Artifact(data: Bytes, mtime: nat)

  /** What `fs.promises.stat` reports: byte size and (truncated) mtimeMs. */
  datatype Stat = Stat(size: nat, mtimeMs: nat)

  /** A JSON text format for values of type T (`JSON.stringify` / `JSON.parse`);
      `decode` yields None where `JSON.parse` throws or the shape is wrong. */
  datatype Codec<!T> = Codec(encode: T -> Bytes, decode: Bytes -> Option<T>)

  ghost predicate RoundTrips<T(!new)>(c: Codec<T>) {
    forall x :: c.decode(c.encode(x)) == Some(x)
  }

  /** The whole observable file-system state, as a value. */
  datatype Disk = Disk(files: map<Path, Artifact>, clock: nat, readOnly: set<Path>)

  /** A write on a value-level disk: None where `writeFileSync` throws. */
  function WriteDisk(d: Disk, p: Path, data: Bytes): (r: Option<Disk>)
    ensures r.None? <==> p in d.readOnly
    ensures r.Some? ==> r.value.files == d.files[p := Artifact(data, d.clock)]
    ensures r.Some? ==> r.value.clock == d.clock + 1 && r.value.readOnly == d.readOnly
  {
    if p in d.readOnly then None
    else Some(Disk(d.files[p := Artifact(data, d.clock)], d.clock + 1, d.readOnly))
  }

  function StatOf(a: Artifact): (s: Stat)
    ensures s.size == |a.data| && s.mtimeMs == a.mtime
  {
    Stat(|a.data|, a.mtime)
  }

  class FileSystem {
    var files: map<Path, Artifact>
    var clock: nat
    const readOnly: set<Path>

    function State(): Disk
      reads this
    {
      Disk(files, clock, readOnly)
    }

    constructor (initial: map<Path, Artifact>, now: nat, locked: set<Path>)
      ensures files == initial && clock == now && readOnly == locked
    {
      files := initial;
      clock := now;
      readOnly := locked;
    }

    /** `fs.existsSync`. */
    method Exists(p: Path) returns (b: bool)
      ensures b <==> p in files
    {
      b := p in files;
    }

    /** `fs.promises.stat`; None where it rejects (no such file). */
    method StatFile(p: Path) returns (s: Option<Stat>)
      ensures p in files ==> s == Some(StatOf(files[p]))
      ensures p !in files ==> s == None
    {
      if p in files {
        s := Some(StatOf(files[p]));
      } else {
        s := None;
      }
    }

    /** `fs.readFileSync`; None where it throws (no such file). */
    method ReadFile(p: Path) returns (r: Option<Bytes>)
      ensures p in files ==> r == Some(files[p].data)
      ensures p !in files ==> r == None
    {
      if p in files {
        r := Some(files[p].data);
      } else {
        r := None;
      }
    }

    /** `fs.writeFileSync`: replaces the whole content and stamps a fresh mtime. */
    method WriteFile(p: Path, data: Bytes) returns (ok: bool)
      modifies this
      ensures ok <==> p !in readOnly
      ensures ok ==> files == old(files)[p := Artifact(data, old(clock))] && clock == old(clock) + 1
      ensures !ok ==> files == old(files) && clock == old(clock)
      ensures WriteDisk(old(State()), p, data) == if ok then Some(State()) else None
    {
      ok := p !in readOnly;
      if ok {
        files := files[p := Artifact(data, clock)];
        clock := clock + 1;
      }
    }

    /** `fs.rmSync(p, { force: true })`: a missing file is not an error. */
    method Remove(p: Path) returns (ok: bool)
      modifies this
      ensures ok <==> p !in readOnly || p !in old(files)
      ensures files == if p in readOnly then old(files) else old(files) - {p}
      ensures clock == old(clock)
    {
      ok := p !in readOnly || p !in files;
      if p !in readOnly {
        files := files - {p};
      }
    }

    /** `fs.copyFileSync(src, dst)`: the copy gets the source bytes and a fresh mtime. */
    method CopyFile(src: Path, dst: Path) returns (ok: bool)
      modifies this
      ensures ok <==> src in old(files) && dst !in readOnly
      ensures ok ==> files == old(files)[dst := Artifact(old(files)[src].data, old(clock))] && clock == old(clock) + 1
      ensures !ok ==> files == old(files) && clock == old(clock)
    {
      if src in files && dst !in readOnly {
        files := files[dst := Artifact(files[src].data, clock)];
        clock := clock + 1;
        ok := true;
      } else {
        ok := false;
      }
    }
  }
}
