/**
 * The backup script as transitions of an abstract world: the directories
 * and files on disk and the git commands run so far. The SDK calls, the
 * filter check and the output of `git commit` are inputs.
 */
module Backup {

  import opened Wrappers
  import opened Inventory
  import opened FileNames
  import opened Text

  /** A filesystem path as its list of components; `[]` is the root. */
  type Path = seq<string>

  function Parent(p: Path): Path
    requires p != []
  {
    p[..|p| - 1]
  }

  function Child(dir: Path, name: string): (p: Path)
    ensures p != [] && Parent(p) == dir
  {
    dir + [name]
  }

  /** The git subprocesses the script starts, each with its working directory. */
  datatype GitCommand =
    | GitInit(cwd: Path)
    | GitAddAll(cwd: Path)
    | GitCommit(cwd: Path, message: string)

  datatype World = World(dirs: set<Path>, files: map<Path, string>, git: seq<GitCommand>)

  /** A path is a directory or a file, never both, and it lives in a directory. */
  ghost predicate WellFormed(w: World) {
    && [] in w.dirs
    && w.dirs !! w.files.Keys
    && (forall p :: p in w.dirs && p != [] ==> Parent(p) in w.dirs)
    && (forall p :: p in w.files ==> p != [] && Parent(p) in w.dirs)
  }

  /** Errors the script does not catch: each one ends the run. */
  datatype Failure =
    | MkdirFailed(path: Path)   // `mkdir` on a path that is a file or whose parent is missing
    | FetchFailed(sn: string)   // the SDK raised while fetching a configuration
    | WriteFailed(path: Path)   // `open(..., "w")` on a directory, or under a missing folder

  // ---------------------------------------------------------------------------
  // initiate_destination_folder

  const GitFolderName := ".git"

  /** What the initialiser logs: whether it created the folder and whether it ran `git init`. */
  datatype InitReport = Initiated(dirCreated: bool, gitInitiated: bool)

  /** `Path.mkdir()` with neither `parents` nor `exist_ok`, on a path that is not a directory. */
  predicate CanMkdir(w: World, p: Path)
    ensures CanMkdir(w, p) && WellFormed(w) ==> WellFormed(w.(dirs := w.dirs + {p}))
  {
    p != [] && p !in w.files && Parent(p) in w.dirs
  }

  /** `git init` in `dir`: makes `dir/.git` a directory, unless a `.git` file
      (a pointer to a repository elsewhere) is already there. */
  function RunGitInit(w: World, dir: Path): (w': World)
    ensures w'.files == w.files && w'.git == w.git + [GitInit(dir)]
    ensures Child(dir, GitFolderName) in w.files ==> w'.dirs == w.dirs
    ensures Child(dir, GitFolderName) !in w.files ==> w'.dirs == w.dirs + {Child(dir, GitFolderName)}
  {
    var gitFolder := Child(dir, GitFolderName);
    w.(dirs := if gitFolder in w.files then w.dirs else w.dirs + {gitFolder},
       git := w.git + [GitInit(dir)])
  }

  function InitiateDestination(w: World, dest: Path, gitDisabled: bool): (r: (Result<InitReport, Failure>, World))
    ensures r.0.Ok? <==> dest in w.dirs || CanMkdir(w, dest)
    ensures r.0.Err? ==> r.0.error == MkdirFailed(dest) && r.1 == w
    ensures r.0.Ok? ==> dest in r.1.dirs
    ensures r.0.Ok? ==> (r.0.value.dirCreated <==> dest !in w.dirs)
    ensures r.0.Ok? ==> (r.0.value.gitInitiated <==> !gitDisabled && Child(dest, GitFolderName) !in w.dirs)
    ensures r.1.files == w.files
    ensures w.dirs <= r.1.dirs <= w.dirs + {dest, Child(dest, GitFolderName)}
    ensures r.1.git == w.git + (if r.0.Ok? && r.0.value.gitInitiated then [GitInit(dest)] else [])
  {
    var gitFolder := Child(dest, GitFolderName);
    if dest !in w.dirs && !CanMkdir(w, dest) then
      (Err(MkdirFailed(dest)), w)
    else
      var created := dest !in w.dirs;
      var w1 := w.(dirs := w.dirs + {dest});
      if !gitDisabled && gitFolder !in w1.dirs then
        (Ok(Initiated(created, true)), RunGitInit(w1, dest))
      else
        (Ok(Initiated(created, false)), w1)
  }

  // ---------------------------------------------------------------------------
  // create_config_file

  /** `destination_folder / "<hostname>--<sn>.txt"`: one entry directly inside the folder. */
  function ConfigFilePath(dest: Path, d: Device): (p: Path)
    ensures |p| == |dest| + 1 && p[..|dest|] == dest
    ensures p[|dest|] == ConfigFileName(d) && '/' !in p[|dest|]
  {
    Child(dest, ConfigFileName(d))
  }

  /** Opening the file in "w" mode needs its folder to be a directory and the
      path not to be one; it then creates or truncates the file. */
  function WriteConfigFile(w: World, dest: Path, d: Device, text: string): (r: Result<World, Failure>)
    ensures r.Ok? <==> dest in w.dirs && ConfigFilePath(dest, d) !in w.dirs
    ensures r.Err? ==> r.error == WriteFailed(ConfigFilePath(dest, d))
    ensures r.Ok? ==>
      var path := ConfigFilePath(dest, d);
      && r.value.dirs == w.dirs && r.value.git == w.git
      && r.value.files.Keys == w.files.Keys + {path}
      && r.value.files[path] == text
      && forall q :: q in w.files && q != path ==> r.value.files[q] == w.files[q]
  {
    var path := ConfigFilePath(dest, d);
    if dest in w.dirs && path !in w.dirs then Ok(w.(files := w.files[path := text]))
    else Err(WriteFailed(path))
  }

  // ---------------------------------------------------------------------------
  // The device loop of main

  /** The SDK's `get_configuration`: a configuration object, `None`, or an exception. */
  datatype Fetched = Config(text: string) | NoConfig | FetchError

  /** The SDK fetch, given the serial number and the `sanitized` flag. */
  type Fetcher = (string, bool) -> Fetched

  function ProcessDevice(w: World, dest: Path, d: Device, fetched: Fetched): (r: Result<World, Failure>)
    ensures fetched.NoConfig? ==> r == Ok(w)
    ensures fetched.FetchError? ==> r == Err(FetchFailed(d.sn))
    ensures fetched.Config? ==> r == WriteConfigFile(w, dest, d, fetched.text)
  {
    match fetched
    case Config(text) => WriteConfigFile(w, dest, d, text)
    case NoConfig => Ok(w)
    case FetchError => Err(FetchFailed(d.sn))
  }

  /** The world after the loop, and the failure that ended it early, if any. */
  datatype Progress = Progress(world: World, failure: Option<Failure>)

  function PersistConfigs(w: World, dest: Path, devices: seq<Device>, fetch: Fetcher, sanitized: bool): (p: Progress)
    ensures p.world.dirs == w.dirs && p.world.git == w.git
    ensures w.files.Keys <= p.world.files.Keys
    ensures p.failure.Some? ==> !p.failure.value.MkdirFailed?
    decreases |devices|
  {
    if devices == [] then Progress(w, None)
    else
      match ProcessDevice(w, dest, devices[0], fetch(devices[0].sn, sanitized))
      case Err(e) => Progress(w, Some(e))
      case Ok(w1) => PersistConfigs(w1, dest, devices[1..], fetch, sanitized)
  }

  // ---------------------------------------------------------------------------
  // The git commit at the end of main

  datatype CommitOutcome = NothingToCommit | Committed(stdout: string) | GitNotActivated

  /** Backslash, `n`, then the words: the newline as `str()` of a bytes object spells it. */
  const NothingToCommitMarker := "\\nnothing to commit"

  /** Classifies the run's end from the git option and `str(git_commit.stdout)`. */
  function ClassifyCommit(gitDisabled: bool, shownStdout: string): (o: CommitOutcome)
    ensures o.GitNotActivated? <==> gitDisabled
    ensures o.Committed? ==> o.stdout == shownStdout
  {
    if gitDisabled then GitNotActivated
    else if Contains(shownStdout, NothingToCommitMarker) then NothingToCommit
    else Committed(shownStdout)
  }

  function CommitMessage(stamp: string): (m: string)
    ensures |m| == |stamp| + 7 && m[..7] == "Backup " && m[7..] == stamp
  {
    "Backup " + stamp
  }

  /** `git add -A` then `git commit`, when git is enabled. `stamp` is the
      formatted local time and `shownStdout` what the commit printed. */
  function CommitChanges(w: World, dest: Path, gitDisabled: bool, stamp: string, shownStdout: string): (r: (CommitOutcome, World))
    ensures r.0 == ClassifyCommit(gitDisabled, shownStdout)
    ensures r.1.dirs == w.dirs && r.1.files == w.files
    ensures r.1.git == w.git + (if gitDisabled then [] else [GitAddAll(dest), GitCommit(dest, CommitMessage(stamp))])
  {
    var outcome := ClassifyCommit(gitDisabled, shownStdout);
    if gitDisabled then (outcome, w)
    else (outcome, w.(git := w.git + [GitAddAll(dest), GitCommit(dest, CommitMessage(stamp))]))
  }

  // ---------------------------------------------------------------------------
  // main

  /** How a run ends: `sys.exit()` on a bad filter, an uncaught error, or the commit step. */
  datatype RunReport = FilterRejected | Aborted(failure: Failure) | Completed(commit: CommitOutcome)

  /** One run of `main`. `filterIsValid` is whether the filter text parses as
      JSON; `inventory` is what the filtered inventory query returned. */
  function RunBackup(w: World, dest: Path, gitDisabled: bool, sanitized: bool, filterIsValid: bool,
                     inventory: seq<InventoryRow>, fetch: Fetcher, stamp: string, shownStdout: string): (r: (RunReport, World))
    ensures r.0.Aborted? && r.0.failure.MkdirFailed? ==> r.1 == w
    ensures !r.0.Aborted? ==> dest in r.1.dirs
    ensures r.0.FilterRejected? ==> !filterIsValid && r.1.files == w.files
    ensures r.0.Completed? ==> (r.0.commit.GitNotActivated? <==> gitDisabled)
    ensures gitDisabled ==> r.1.git == w.git
    ensures w.dirs <= r.1.dirs && w.files.Keys <= r.1.files.Keys
  {
    var (init, w1) := InitiateDestination(w, dest, gitDisabled);
    if init.Err? then (Aborted(init.error), w1)
    else if !filterIsValid then (FilterRejected, w1)
    else
      var p := PersistConfigs(w1, dest, ProjectDevices(inventory), fetch, sanitized);
      if p.failure.Some? then (Aborted(p.failure.value), p.world)
      else
        var (outcome, w2) := CommitChanges(p.world, dest, gitDisabled, stamp, shownStdout);
        (Completed(outcome), w2)
  }
}
