/**
 * The store step and the batch of the image downloader. Each of the three
 * downloaders (threads, processes, asyncio) writes below its own base
 * directory `task_/<strategy>`; for one URL it makes sure the per-host
 * directory exists (`if not os.path.exists(d): os.mkdir(d)`) and then writes
 * the payload to `base/dirname/filename`, replacing any earlier file.
 * The HTTP fetch is an input: the payload, or None when the request raised.
 */
module ImageStore {
  import opened Wrappers
  import opened Octets
  import opened UrlNaming

  /** A filesystem path as its list of components. */
  type Path = seq<string>

  /** The three downloaders of the module; they differ only in scheduling. */
  datatype Strategy = Threads | Processes | Async

  function StrategyDir(s: Strategy): string
  {
    match s
    case Threads => "threads"
    case Processes => "processes"
    case Async => "async"
  }

  /** `os.path.join(<script dir>, 'task_', <strategy>)`. */
  function BaseDir(root: Path, s: Strategy): Path
  {
    root + ["task_", StrategyDir(s)]
  }

  /** `os.path.join(p, name)`: an empty component adds nothing. */
  function Child(p: Path, name: string): (c: Path)
    ensures |p| <= |c| <= |p| + 1 && c[..|p|] == p
    ensures name == "" ==> c == p
    ensures name != "" ==> |c| == |p| + 1 && c[|p|] == name
  {
    if name == "" then p else p + [name]
  }

  function Parent(p: Path): Path
    requires |p| > 0
  {
    p[..|p| - 1]
  }

  /** The per-host directory of `url` below `base`. */
  function DestDir(base: Path, url: string): (dir: Path)
    ensures DeriveNames(url).dirname != "" ==> dir == base + [DeriveNames(url).dirname]
    ensures DeriveNames(url).dirname == "" ==> dir == base
  {
    Child(base, DeriveNames(url).dirname)
  }

  /** The file `url` is written to below `base`. */
  function DestPath(base: Path, url: string): (path: Path)
    ensures |base| <= |path| <= |base| + 2 && path[..|base|] == base
    ensures PlainNames(url) ==> path == base + [DeriveNames(url).dirname, DeriveNames(url).filename]
  {
    Child(DestDir(base, url), DeriveNames(url).filename)
  }

  /**
   * A URL whose names give an ordinary file two levels below the base: a
   * non-empty host directory and a file name that does not denote a directory.
   */
  predicate PlainNames(url: string)
  {
    var n := DeriveNames(url);
    n.dirname != "" && n.filename != "" && n.filename != "." && n.filename != ".."
  }

  /** What happened to one download. */
  datatype Outcome =
    | Stored          // the payload is in the file
    | FetchFailed     // the request raised; nothing was touched
    | NotADirectory   // the host directory path is an existing file
    | IsADirectory    // the file path names a directory

  /** The part of the filesystem the downloader touches: directories and files with their bytes. */
  datatype Disk = Disk(dirs: set<Path>, files: map<Path, Bytes>)

  /**
   * Files and directories never share a path, and every file sits in an
   * existing directory. Directories are not required to have a parent
   * directory: the store step only ever creates a directory whose parent
   * exists, so the states it reaches are trees, but the predicate does not
   * insist on it.
   */
  ghost predicate WellFormed(d: Disk)
  {
    (forall p :: p in d.files ==> p !in d.dirs) &&
    (forall p :: p in d.files ==> |p| > 0 && Parent(p) in d.dirs)
  }

  /**
   * Nothing below `base` is in the way of plain names: no file one level
   * down (where host directories go) and no directory two levels down
   * (where downloaded files go).
   */
  ghost predicate NoClash(d: Disk, base: Path)
  {
    (forall p :: p in d.files && |p| == |base| + 1 ==> p[..|base|] != base) &&
    (forall p :: p in d.dirs && |p| == |base| + 2 ==> p[..|base|] != base)
  }

  /** A file name that opens a directory rather than a file. */
  predicate DirectoryName(f: string)
  {
    f == "" || f == "." || f == ".."
  }

  /**
   * One `download_image(url)` below `base`, given what the request returned:
   * the new disk and the outcome. The base directory exists: the module
   * creates it when it is imported, and without it `os.mkdir` would raise.
   */
  function StoreStep(d: Disk, base: Path, url: string, fetched: Option<Bytes>): (r: (Disk, Outcome))
    requires base in d.dirs
    ensures r.1 == FetchFailed <==> fetched.None?
    ensures d.dirs <= r.0.dirs
    ensures r.1 != Stored ==> r.0.files == d.files
  {
    if fetched.None? then (d, FetchFailed)
    else
      var dir := DestDir(base, url);
      var dirs := if dir in d.dirs || dir in d.files then d.dirs else d.dirs + {dir};
      if dir in d.files then (Disk(dirs, d.files), NotADirectory)
      else if DirectoryName(DeriveNames(url).filename) || DestPath(base, url) in dirs then
        (Disk(dirs, d.files), IsADirectory)
      else (Disk(dirs, d.files[DestPath(base, url) := fetched.value]), Stored)
  }

  /** The downloads of a batch, one after the other, each on the disk the previous one left. */
  function Batch(d: Disk, base: Path, urls: seq<string>, fetched: seq<Option<Bytes>>): (r: (Disk, seq<Outcome>))
    requires base in d.dirs
    requires |fetched| == |urls|
    ensures |r.1| == |urls| && d.dirs <= r.0.dirs
    decreases |urls|
  {
    if urls == [] then (d, [])
    else
      var n := |urls| - 1;
      var (prior, outcomes) := Batch(d, base, urls[..n], fetched[..n]);
      var (after, outcome) := StoreStep(prior, base, urls[n], fetched[n]);
      (after, outcomes + [outcome])
  }

  class FileSystem {
    /** The directory the downloader script lives in. */
    const root: Path
    var dirs: set<Path>
    var files: map<Path, Bytes>

    function State(): Disk
      reads this
    {
      Disk(dirs, files)
    }

    ghost predicate Valid()
      reads this
    {
      root in dirs && WellFormed(State())
    }

    constructor (root: Path)
      ensures Valid() && this.root == root
      ensures dirs == {root} && files == map[]
    {
      this.root := root;
      dirs := {root};
      files := map[];
    }

    /** `if not os.path.exists(p): os.mkdir(p)`, below an existing directory. */
    method MakeDirIfAbsent(p: Path)
      requires Valid()
      requires p in dirs || (|p| > 0 && Parent(p) in dirs)
      modifies this
      ensures Valid()
      ensures files == old(files)
      ensures dirs == if p in old(dirs) || p in old(files) then old(dirs) else old(dirs) + {p}
    {
      if !(p in dirs || p in files) {
        dirs := dirs + {p};
      }
    }

    /**
     * `download_image(url)`: with the payload fetched, create the host
     * directory if absent, then write the payload to the file, replacing it.
     */
    method Store(base: Path, url: string, fetched: Option<Bytes>) returns (outcome: Outcome)
      requires Valid() && base in dirs
      modifies this
      ensures Valid() && old(dirs) <= dirs
      ensures (State(), outcome) == StoreStep(old(State()), base, url, fetched)
    {
      if fetched.None? {
        return FetchFailed;
      }
      var names := DeriveNames(url);
      var dir := Child(base, names.dirname);
      MakeDirIfAbsent(dir);
      if dir in files {
        return NotADirectory;
      }
      var path := Child(dir, names.filename);
      if names.filename == "" || names.filename == "." || names.filename == ".." || path in dirs {
        return IsADirectory;
      }
      files := files[path := fetched.value];
      outcome := Stored;
    }

    /**
     * The `main` of one downloader, run one URL after the other below the
     * strategy's base directory.
     */
    method RunBatch(strategy: Strategy, urls: seq<string>, fetched: seq<Option<Bytes>>)
      returns (outcomes: seq<Outcome>)
      requires Valid() && BaseDir(root, strategy) in dirs
      requires |fetched| == |urls|
      modifies this
      ensures Valid()
      ensures (State(), outcomes) == Batch(old(State()), BaseDir(root, strategy), urls, fetched)
    {
      var base := BaseDir(root, strategy);
      outcomes := [];
      var k := 0;
      while k < |urls|
        invariant 0 <= k <= |urls|
        invariant Valid() && base in dirs
        invariant (State(), outcomes) == Batch(old(State()), base, urls[..k], fetched[..k])
      {
        var outcome := Store(base, urls[k], fetched[k]);
        BatchStep(old(State()), base, urls, fetched, k);
        outcomes := outcomes + [outcome];
        k := k + 1;
      }
      assert urls[..k] == urls && fetched[..k] == fetched;
    }
  }

  /** A batch over one more URL is the batch over the shorter list followed by one store step. */
  lemma BatchStep(d: Disk, base: Path, urls: seq<string>, fetched: seq<Option<Bytes>>, k: nat)
    requires base in d.dirs
    requires |fetched| == |urls| && k < |urls|
    ensures var (prior, outcomes) := Batch(d, base, urls[..k], fetched[..k]);
      var (after, outcome) := StoreStep(prior, base, urls[k], fetched[k]);
      Batch(d, base, urls[..k + 1], fetched[..k + 1]) == (after, outcomes + [outcome])
  {
    assert urls[..k + 1][..k] == urls[..k] && fetched[..k + 1][..k] == fetched[..k];
  }

  /**
   * The store step on its own: the host directory exists afterwards (created
   * only if the path was free), and a stored file holds exactly the payload.
   */
  lemma StoreStepEffect(d: Disk, base: Path, url: string, fetched: Option<Bytes>)
    requires base in d.dirs
    requires fetched.Some?
    ensures var (after, outcome) := StoreStep(d, base, url, fetched);
      (DestDir(base, url) !in d.files ==> DestDir(base, url) in after.dirs) &&
      (DestDir(base, url) in d.dirs || DestDir(base, url) in d.files ==> after.dirs == d.dirs) &&
      (outcome == Stored ==> DestPath(base, url) in after.files && after.files[DestPath(base, url)] == fetched.value)
  {
  }

  /**
   * The store step adds at most the host directory and writes at most the
   * one file; every other directory and file is as it was.
   */
  lemma StoreStepFrame(d: Disk, base: Path, url: string, fetched: Option<Bytes>)
    requires base in d.dirs
    ensures var (after, outcome) := StoreStep(d, base, url, fetched);
      d.dirs <= after.dirs <= d.dirs + {DestDir(base, url)} &&
      (forall p :: p != DestPath(base, url) ==>
        (p in after.files <==> p in d.files) && (p in d.files ==> after.files[p] == d.files[p])) &&
      (outcome != Stored ==> after.files == d.files)
  {
  }

  /** Repeating a store step with the same payload changes nothing more. */
  lemma StoreStepIdempotent(d: Disk, base: Path, url: string, fetched: Option<Bytes>)
    requires base in d.dirs
    ensures var (once, outcome) := StoreStep(d, base, url, fetched);
      StoreStep(once, base, url, fetched) == (once, outcome)
  {
    var (once, outcome) := StoreStep(d, base, url, fetched);
    if outcome == Stored {
      assert DestPath(base, url) != DestDir(base, url);
      assert once.files[DestPath(base, url) := fetched.value] == once.files;
    }
  }

  /** The store step keeps the disk well formed and never removes a directory. */
  lemma StoreStepWellFormed(d: Disk, base: Path, url: string, fetched: Option<Bytes>)
    requires WellFormed(d) && base in d.dirs
    ensures var after := StoreStep(d, base, url, fetched).0;
      WellFormed(after) && d.dirs <= after.dirs
  {
    var (after, outcome) := StoreStep(d, base, url, fetched);
    var dir, path := DestDir(base, url), DestPath(base, url);
    if outcome == Stored {
      assert after.dirs == d.dirs + {dir} && after.files == d.files[path := fetched.value];
      assert dir !in d.files && path !in after.dirs;
      assert |path| > 0 && Parent(path) == dir by {
        assert !DirectoryName(DeriveNames(url).filename);
      }
      forall p | p in after.files
        ensures p !in after.dirs && |p| > 0 && Parent(p) in after.dirs
      {
        if p != path {
          assert p in d.files;
        }
      }
    } else {
      assert after.files == d.files;
      assert after.dirs == d.dirs || (after.dirs == d.dirs + {dir} && dir !in d.files);
    }
  }

  /** With plain names and nothing in the way, the store step succeeds and leaves nothing in the way. */
  lemma StoreStepPlain(d: Disk, base: Path, url: string, fetched: Option<Bytes>)
    requires base in d.dirs
    requires fetched.Some? && PlainNames(url) && NoClash(d, base)
    ensures var (after, outcome) := StoreStep(d, base, url, fetched);
      outcome == Stored && NoClash(after, base)
  {
    var n := DeriveNames(url);
    var dir, path := DestDir(base, url), DestPath(base, url);
    assert dir == base + [n.dirname] && dir[..|base|] == base;
    assert path == dir + [n.filename] && path[..|base|] == base;
  }

  /** Every download of the batch succeeded and has plain names. */
  predicate AllPlain(urls: seq<string>, fetched: seq<Option<Bytes>>)
    requires |fetched| == |urls|
  {
    forall i :: 0 <= i < |urls| ==> fetched[i].Some? && PlainNames(urls[i])
  }

  /** The file each URL of a batch goes to. */
  function DestPaths(base: Path, urls: seq<string>): (paths: seq<Path>)
    ensures |paths| == |urls|
    ensures forall i :: 0 <= i < |urls| ==> paths[i] == DestPath(base, urls[i])
  {
    seq(|urls|, i requires 0 <= i < |urls| => DestPath(base, urls[i]))
  }

  /** The files after a batch: each stored payload written over `files`, in order, to its path. */
  function Writes(paths: seq<Path>, outcomes: seq<Outcome>, fetched: seq<Option<Bytes>>,
                  files: map<Path, Bytes>): map<Path, Bytes>
    requires |outcomes| == |paths| == |fetched|
    decreases |paths|
  {
    if paths == [] then files
    else
      var n := |paths| - 1;
      var prior := Writes(paths[..n], outcomes[..n], fetched[..n], files);
      if outcomes[n] == Stored && fetched[n].Some? then prior[paths[n] := fetched[n].value] else prior
  }

  /** A batch yields one outcome per URL, and a download fails to fetch exactly when its request raised. */
  lemma {:induction false} BatchOutcomes(d: Disk, base: Path, urls: seq<string>, fetched: seq<Option<Bytes>>)
    requires base in d.dirs
    requires |fetched| == |urls|
    ensures var outcomes := Batch(d, base, urls, fetched).1;
      |outcomes| == |urls| &&
      forall i :: 0 <= i < |urls| ==> (outcomes[i] == FetchFailed <==> fetched[i].None?)
    decreases |urls|
  {
    if urls != [] {
      var n := |urls| - 1;
      BatchOutcomes(d, base, urls[..n], fetched[..n]);
    }
  }

  /** A batch keeps the disk well formed and removes no directory. */
  lemma {:induction false} BatchWellFormed(d: Disk, base: Path, urls: seq<string>, fetched: seq<Option<Bytes>>)
    requires |fetched| == |urls|
    requires WellFormed(d) && base in d.dirs
    ensures var after := Batch(d, base, urls, fetched).0;
      WellFormed(after) && d.dirs <= after.dirs
    decreases |urls|
  {
    if urls != [] {
      var n := |urls| - 1;
      BatchWellFormed(d, base, urls[..n], fetched[..n]);
      StoreStepWellFormed(Batch(d, base, urls[..n], fetched[..n]).0, base, urls[n], fetched[n]);
    }
  }

  /** The files after a batch are the stored payloads written in order over the old files. */
  lemma {:induction false} BatchFiles(d: Disk, base: Path, urls: seq<string>, fetched: seq<Option<Bytes>>)
    requires base in d.dirs
    requires |fetched| == |urls|
    ensures var (after, outcomes) := Batch(d, base, urls, fetched);
      |outcomes| == |urls| && after.files == Writes(DestPaths(base, urls), outcomes, fetched, d.files)
    decreases |urls|
  {
    BatchOutcomes(d, base, urls, fetched);
    if urls != [] {
      var n := |urls| - 1;
      BatchFiles(d, base, urls[..n], fetched[..n]);
      var (prior, outcomes) := Batch(d, base, urls[..n], fetched[..n]);
      var (after, outcome) := StoreStep(prior, base, urls[n], fetched[n]);
      StoreStepFiles(prior, base, urls[n], fetched[n]);
      DestPathsPrefix(base, urls, n);
      WritesLast(DestPaths(base, urls), outcomes + [outcome], fetched, d.files);
    }
  }

  /** The destination paths of a prefix of the URLs are a prefix of the destination paths. */
  lemma DestPathsPrefix(base: Path, urls: seq<string>, n: nat)
    requires n <= |urls|
    ensures DestPaths(base, urls)[..n] == DestPaths(base, urls[..n])
  {
  }

  /** `Writes` over a list with a last entry: the writes of the rest, then that entry's. */
  lemma WritesLast(paths: seq<Path>, outcomes: seq<Outcome>, fetched: seq<Option<Bytes>>, files: map<Path, Bytes>)
    requires |outcomes| == |paths| == |fetched| > 0
    ensures var n := |paths| - 1;
      var w := Writes(paths[..n], outcomes[..n], fetched[..n], files);
      Writes(paths, outcomes, fetched, files)
        == if outcomes[n] == Stored && fetched[n].Some? then w[paths[n] := fetched[n].value] else w
  {
  }

  /** The files after one store step: the payload written to the URL's path, or nothing. */
  lemma StoreStepFiles(d: Disk, base: Path, url: string, fetched: Option<Bytes>)
    requires base in d.dirs
    ensures var (after, outcome) := StoreStep(d, base, url, fetched);
      (outcome == Stored ==> fetched.Some?) &&
      after.files == if outcome == Stored then d.files[DestPath(base, url) := fetched.value] else d.files
  {
  }

  /** A clean base and plain names: every download of the batch is stored. */
  lemma {:induction false} BatchAllStored(d: Disk, base: Path, urls: seq<string>, fetched: seq<Option<Bytes>>)
    requires base in d.dirs
    requires |fetched| == |urls|
    requires NoClash(d, base) && AllPlain(urls, fetched)
    ensures var (after, outcomes) := Batch(d, base, urls, fetched);
      NoClash(after, base) && |outcomes| == |urls| && forall i :: 0 <= i < |urls| ==> outcomes[i] == Stored
    decreases |urls|
  {
    if urls != [] {
      var n := |urls| - 1;
      assert AllPlain(urls[..n], fetched[..n]) by {
        forall i | 0 <= i < n ensures fetched[..n][i].Some? && PlainNames(urls[..n][i]) {
          assert fetched[..n][i] == fetched[i] && urls[..n][i] == urls[i];
        }
      }
      assert fetched[n].Some? && PlainNames(urls[n]);
      BatchAllStored(d, base, urls[..n], fetched[..n]);
      var (prior, outcomes) := Batch(d, base, urls[..n], fetched[..n]);
      StoreStepPlain(prior, base, urls[n], fetched[n]);
      var (after, outcome) := StoreStep(prior, base, urls[n], fetched[n]);
      assert Batch(d, base, urls, fetched) == (after, outcomes + [outcome]);
    }
  }

  /**
   * After a batch over a clean base with plain names, every URL in the list
   * has a file at its derived path.
   */
  lemma BatchStoresEveryUrl(d: Disk, base: Path, urls: seq<string>, fetched: seq<Option<Bytes>>)
    requires base in d.dirs
    requires |fetched| == |urls|
    requires NoClash(d, base) && AllPlain(urls, fetched)
    ensures forall i :: 0 <= i < |urls| ==> DestPath(base, urls[i]) in Batch(d, base, urls, fetched).0.files
  {
    var (after, outcomes) := Batch(d, base, urls, fetched);
    BatchAllStored(d, base, urls, fetched);
    BatchFiles(d, base, urls, fetched);
    forall i | 0 <= i < |urls| ensures DestPath(base, urls[i]) in after.files {
      BatchFilesExist(DestPaths(base, urls), outcomes, fetched, d.files, i);
    }
  }

  /** After a batch, every URL whose store succeeded has a file at its derived path. */
  lemma {:induction false} BatchFilesExist(paths: seq<Path>, outcomes: seq<Outcome>,
                                           fetched: seq<Option<Bytes>>, files: map<Path, Bytes>, i: nat)
    requires |outcomes| == |paths| == |fetched|
    requires i < |paths| && outcomes[i] == Stored && fetched[i].Some?
    ensures paths[i] in Writes(paths, outcomes, fetched, files)
    decreases |paths|
  {
    var n := |paths| - 1;
    if i < n {
      BatchFilesExist(paths[..n], outcomes[..n], fetched[..n], files, i);
    }
  }

  /**
   * The file at a URL's derived path holds that URL's payload when no later
   * URL of the batch was stored to the same path.
   */
  lemma {:induction false} LastWriterWins(paths: seq<Path>, outcomes: seq<Outcome>,
                                          fetched: seq<Option<Bytes>>, files: map<Path, Bytes>, i: nat)
    requires |outcomes| == |paths| == |fetched|
    requires i < |paths| && outcomes[i] == Stored && fetched[i].Some?
    requires forall j :: i < j < |paths| && outcomes[j] == Stored ==> paths[j] != paths[i]
    ensures paths[i] in Writes(paths, outcomes, fetched, files)
    ensures Writes(paths, outcomes, fetched, files)[paths[i]] == fetched[i].value
    decreases |paths|
  {
    var n := |paths| - 1;
    if i < n {
      LastWriterWins(paths[..n], outcomes[..n], fetched[..n], files, i);
    }
  }

  /** A path that no stored URL of the batch derives keeps its old file, or stays absent. */
  lemma {:induction false} BatchLeavesOthers(paths: seq<Path>, outcomes: seq<Outcome>,
                                             fetched: seq<Option<Bytes>>, files: map<Path, Bytes>, p: Path)
    requires |outcomes| == |paths| == |fetched|
    requires forall j :: 0 <= j < |paths| && outcomes[j] == Stored ==> paths[j] != p
    ensures var after := Writes(paths, outcomes, fetched, files);
      (p in after <==> p in files) && (p in files ==> after[p] == files[p])
    decreases |paths|
  {
    if paths != [] {
      var n := |paths| - 1;
      BatchLeavesOthers(paths[..n], outcomes[..n], fetched[..n], files, p);
    }
  }

  /**
   * The three downloaders name a URL's file alike: below each base directory
   * the relative path is the same.
   */
  lemma SameRelativePath(root: Path, s: Strategy, url: string)
    ensures DestPath(BaseDir(root, s), url) == BaseDir(root, s) + DestPath([], url)
  {
  }

  /** The three downloaders never write to the same file. */
  lemma StrategiesDisjoint(root: Path, s1: Strategy, s2: Strategy, u1: string, u2: string)
    requires s1 != s2
    ensures DestPath(BaseDir(root, s1), u1) != DestPath(BaseDir(root, s2), u2)
  {
    var p1, p2 := DestPath(BaseDir(root, s1), u1), DestPath(BaseDir(root, s2), u2);
    assert p1[|root| + 1] == StrategyDir(s1) by {
      assert p1[..|root| + 2] == BaseDir(root, s1);
    }
    assert p2[|root| + 1] == StrategyDir(s2) by {
      assert p2[..|root| + 2] == BaseDir(root, s2);
    }
  }
}
