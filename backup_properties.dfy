/** Properties of the backup script, stated over the functions of module Backup. */
module BackupProperties {

  import opened Wrappers
  import opened Inventory
  import opened FileNames
  import opened Text
  import opened Backup

  // ---------------------------------------------------------------------------
  // initiate_destination_folder

  /** A second call with the same arguments creates nothing and reports no
      creation. It only runs `git init` again when `.git` is a file, which
      `is_dir()` does not accept. */
  lemma InitiateDestinationIdempotent(w: World, dest: Path, gitDisabled: bool)
    requires WellFormed(w)
    requires InitiateDestination(w, dest, gitDisabled).0.Ok?
    ensures var w1 := InitiateDestination(w, dest, gitDisabled).1;
      var (r2, w2) := InitiateDestination(w1, dest, gitDisabled);
      && r2 == Ok(Initiated(false, !gitDisabled && Child(dest, GitFolderName) in w.files))
      && w2.dirs == w1.dirs && w2.files == w1.files
      && (gitDisabled || Child(dest, GitFolderName) !in w.files ==> w2 == w1)
  {
    var w1 := InitiateDestination(w, dest, gitDisabled).1;
    assert dest in w1.dirs;
    var gitFolder := Child(dest, GitFolderName);
    if !gitDisabled && gitFolder !in w.files {
      assert gitFolder in w1.dirs;
    }
  }

  lemma InitiateDestinationPreservesWellFormed(w: World, dest: Path, gitDisabled: bool)
    requires WellFormed(w)
    ensures WellFormed(InitiateDestination(w, dest, gitDisabled).1)
  {
    var (r, w1) := InitiateDestination(w, dest, gitDisabled);
    if r.Ok? {
      var gitFolder := Child(dest, GitFolderName);
      assert dest != [] ==> Parent(dest) in w.dirs;
      assert dest !in w.files;
      forall p | p in w1.dirs && p != []
        ensures Parent(p) in w1.dirs
      {
        if p == gitFolder {
          assert Parent(p) == dest;
        }
      }
    }
  }

  // ---------------------------------------------------------------------------
  // The device loop

  /** A device goes through the loop body without an exception. */
  predicate DeviceSucceeds(dirs: set<Path>, dest: Path, d: Device, fetched: Fetched) {
    match fetched
    case FetchError => false
    case NoConfig => true
    case Config(_) => dest in dirs && ConfigFilePath(dest, d) !in dirs
  }

  /** The loop runs to the end exactly when every device succeeds. */
  lemma {:induction false} PersistCompletesIff(w: World, dest: Path, devices: seq<Device>, fetch: Fetcher, sanitized: bool)
    ensures PersistConfigs(w, dest, devices, fetch, sanitized).failure.None?
        <==> forall k :: 0 <= k < |devices| ==> DeviceSucceeds(w.dirs, dest, devices[k], fetch(devices[k].sn, sanitized))
    decreases |devices|
  {
    if devices != [] {
      var d := devices[0];
      match ProcessDevice(w, dest, d, fetch(d.sn, sanitized))
      case Err(_) =>
        assert !DeviceSucceeds(w.dirs, dest, devices[0], fetch(devices[0].sn, sanitized));
      case Ok(w1) =>
        PersistCompletesIff(w1, dest, devices[1..], fetch, sanitized);
        assert forall k :: 1 <= k < |devices| ==> devices[k] == devices[1..][k - 1];
        assert DeviceSucceeds(w.dirs, dest, devices[0], fetch(devices[0].sn, sanitized));
    }
  }

  /** The loop stops at the first device that fails, with everything before it written. */
  lemma {:induction false} PersistStopsAtFirstFailure(w: World, dest: Path, devices: seq<Device>, fetch: Fetcher, sanitized: bool, k: nat)
    requires k < |devices|
    requires forall j :: 0 <= j < k ==> DeviceSucceeds(w.dirs, dest, devices[j], fetch(devices[j].sn, sanitized))
    requires !DeviceSucceeds(w.dirs, dest, devices[k], fetch(devices[k].sn, sanitized))
    ensures var p := PersistConfigs(w, dest, devices, fetch, sanitized);
      && p.world == PersistConfigs(w, dest, devices[..k], fetch, sanitized).world
      && p.failure == Some(if fetch(devices[k].sn, sanitized).FetchError? then FetchFailed(devices[k].sn)
                           else WriteFailed(ConfigFilePath(dest, devices[k])))
    decreases k
  {
    var d := devices[0];
    if k == 0 {
      assert devices[..0] == [];
    } else {
      assert DeviceSucceeds(w.dirs, dest, d, fetch(d.sn, sanitized));
      var w1 := ProcessDevice(w, dest, d, fetch(d.sn, sanitized)).value;
      var rest := devices[1..];
      assert forall j :: 0 <= j < k - 1 ==> rest[j] == devices[j + 1];
      PersistStopsAtFirstFailure(w1, dest, rest, fetch, sanitized, k - 1);
      assert devices[..k][0] == d && devices[..k][1..] == rest[..k - 1];
    }
  }

  /** A path no configuration is written to keeps what it held, or stays absent. */
  lemma {:induction false} PersistUntouched(w: World, dest: Path, devices: seq<Device>, fetch: Fetcher, sanitized: bool, q: Path)
    requires forall k :: 0 <= k < |devices| && fetch(devices[k].sn, sanitized).Config? ==> ConfigFilePath(dest, devices[k]) != q
    ensures var files := PersistConfigs(w, dest, devices, fetch, sanitized).world.files;
      && (q in files <==> q in w.files)
      && (q in w.files ==> files[q] == w.files[q])
    decreases |devices|
  {
    if devices != [] {
      var d := devices[0];
      match ProcessDevice(w, dest, d, fetch(d.sn, sanitized))
      case Err(_) =>
      case Ok(w1) =>
        assert forall k :: 1 <= k < |devices| ==> devices[k] == devices[1..][k - 1];
        PersistUntouched(w1, dest, devices[1..], fetch, sanitized, q);
    }
  }

  /** After a complete loop, the file of device `k` holds its configuration
      unless a later device with a configuration maps to the same file: the
      last writer wins. */
  lemma {:induction false} PersistLastWriterWins(w: World, dest: Path, devices: seq<Device>, fetch: Fetcher, sanitized: bool, k: nat)
    requires k < |devices| && fetch(devices[k].sn, sanitized).Config?
    requires PersistConfigs(w, dest, devices, fetch, sanitized).failure.None?
    requires forall j :: k < j < |devices| && fetch(devices[j].sn, sanitized).Config? ==>
      ConfigFilePath(dest, devices[j]) != ConfigFilePath(dest, devices[k])
    ensures var files := PersistConfigs(w, dest, devices, fetch, sanitized).world.files;
      var path := ConfigFilePath(dest, devices[k]);
      path in files && files[path] == fetch(devices[k].sn, sanitized).text
    decreases k
  {
    var d := devices[0];
    var step := ProcessDevice(w, dest, d, fetch(d.sn, sanitized));
    assert step.Ok?;
    var w1 := step.value;
    var rest := devices[1..];
    assert forall j :: 1 <= j < |devices| ==> devices[j] == rest[j - 1];
    if k == 0 {
      PersistUntouched(w1, dest, rest, fetch, sanitized, ConfigFilePath(dest, d));
    } else {
      PersistLastWriterWins(w1, dest, rest, fetch, sanitized, k - 1);
    }
  }

  lemma {:induction false} PersistPreservesWellFormed(w: World, dest: Path, devices: seq<Device>, fetch: Fetcher, sanitized: bool)
    requires WellFormed(w)
    ensures WellFormed(PersistConfigs(w, dest, devices, fetch, sanitized).world)
    decreases |devices|
  {
    if devices != [] {
      var d := devices[0];
      match ProcessDevice(w, dest, d, fetch(d.sn, sanitized))
      case Err(_) =>
      case Ok(w1) =>
        assert WellFormed(w1) by {
          if fetch(d.sn, sanitized).Config? {
            assert Parent(ConfigFilePath(dest, d)) == dest;
          }
        }
        PersistPreservesWellFormed(w1, dest, devices[1..], fetch, sanitized);
    }
  }

  // ---------------------------------------------------------------------------
  // The commit step

  /** With git enabled the run reports "no change" exactly when the shown
      output holds the marker, and "committed" otherwise. */
  lemma ClassifyCommitIff(gitDisabled: bool, shownStdout: string)
    ensures ClassifyCommit(gitDisabled, shownStdout) == NothingToCommit
        <==> !gitDisabled && exists i :: OccursAt(shownStdout, NothingToCommitMarker, i)
    ensures ClassifyCommit(gitDisabled, shownStdout) == Committed(shownStdout)
        <==> !gitDisabled && !exists i :: OccursAt(shownStdout, NothingToCommitMarker, i)
  {
    ContainsIffOccurs(shownStdout, NothingToCommitMarker);
  }

  /** `str()` of git's output for a clean tree spells the newline as a
      backslash and `n`, so whatever surrounds the marker, it is found. */
  lemma MarkerMeansNothingToCommit(before: string, after: string)
    ensures ClassifyCommit(false, before + NothingToCommitMarker + after) == NothingToCommit
  {
    var shown := before + NothingToCommitMarker + after;
    assert shown[|before|..|before| + |NothingToCommitMarker|] == NothingToCommitMarker;
    assert OccursAt(shown, NothingToCommitMarker, |before|);
    ClassifyCommitIff(false, shown);
  }

  /** Output without a backslash (a real newline character, say) never
      matches, so it is reported as a commit. */
  lemma NoBackslashMeansCommitted(shownStdout: string)
    requires '\\' !in shownStdout
    ensures ClassifyCommit(false, shownStdout) == Committed(shownStdout)
  {
    var m := NothingToCommitMarker;
    forall i | 0 <= i < |shownStdout|
      ensures !OccursAt(shownStdout, m, i)
    {
      if i + |m| <= |shownStdout| {
        assert shownStdout[i..i + |m|][0] == shownStdout[i] != m[0];
      }
    }
    ClassifyCommitIff(false, shownStdout);
  }

  // ---------------------------------------------------------------------------
  // A whole run

  /** The destination is set up before the filter is checked, so a bad
      filter still leaves the folder created and git initialised. */
  lemma RunBackupInitialisesBeforeFilterCheck(w: World, dest: Path, gitDisabled: bool, sanitized: bool,
                                               inventory: seq<InventoryRow>, fetch: Fetcher, stamp: string, shownStdout: string)
    requires dest in w.dirs || CanMkdir(w, dest)
    ensures RunBackup(w, dest, gitDisabled, sanitized, false, inventory, fetch, stamp, shownStdout)
         == (FilterRejected, InitiateDestination(w, dest, gitDisabled).1)
  {
  }

  /** Across a whole run, a file no device's configuration is written to is untouched. */
  lemma RunBackupKeepsOtherFiles(w: World, dest: Path, gitDisabled: bool, sanitized: bool, filterIsValid: bool,
                                 inventory: seq<InventoryRow>, fetch: Fetcher, stamp: string, shownStdout: string, q: Path)
    requires forall k :: 0 <= k < |inventory| && fetch(inventory[k].sn, sanitized).Config? ==>
      ConfigFilePath(dest, Device(inventory[k].sn, inventory[k].hostname)) != q
    ensures var files := RunBackup(w, dest, gitDisabled, sanitized, filterIsValid, inventory, fetch, stamp, shownStdout).1.files;
      && (q in files <==> q in w.files)
      && (q in w.files ==> files[q] == w.files[q])
  {
    var (init, w1) := InitiateDestination(w, dest, gitDisabled);
    if init.Ok? && filterIsValid {
      var devices := ProjectDevices(inventory);
      assert forall k :: 0 <= k < |devices| ==> devices[k] == Device(inventory[k].sn, inventory[k].hostname);
      PersistUntouched(w1, dest, devices, fetch, sanitized, q);
    }
  }

  /** A completed run leaves each device's configuration in its file, the
      last device wins when two devices share a file name. */
  lemma RunBackupWritesConfigs(w: World, dest: Path, gitDisabled: bool, sanitized: bool, filterIsValid: bool,
                               inventory: seq<InventoryRow>, fetch: Fetcher, stamp: string, shownStdout: string, k: nat)
    requires RunBackup(w, dest, gitDisabled, sanitized, filterIsValid, inventory, fetch, stamp, shownStdout).0.Completed?
    requires k < |inventory| && fetch(inventory[k].sn, sanitized).Config?
    requires forall j :: k < j < |inventory| && fetch(inventory[j].sn, sanitized).Config? ==>
      ConfigFileName(Device(inventory[j].sn, inventory[j].hostname)) != ConfigFileName(Device(inventory[k].sn, inventory[k].hostname))
    ensures var files := RunBackup(w, dest, gitDisabled, sanitized, filterIsValid, inventory, fetch, stamp, shownStdout).1.files;
      var path := ConfigFilePath(dest, Device(inventory[k].sn, inventory[k].hostname));
      path in files && files[path] == fetch(inventory[k].sn, sanitized).text
  {
    var w1 := InitiateDestination(w, dest, gitDisabled).1;
    var devices := ProjectDevices(inventory);
    assert forall j :: 0 <= j < |devices| ==> devices[j] == Device(inventory[j].sn, inventory[j].hostname);
    forall j | k < j < |devices| && fetch(devices[j].sn, sanitized).Config?
      ensures ConfigFilePath(dest, devices[j]) != ConfigFilePath(dest, devices[k])
    {
      var a, b := ConfigFilePath(dest, devices[j]), ConfigFilePath(dest, devices[k]);
      assert a[|dest|] == ConfigFileName(devices[j]) && b[|dest|] == ConfigFileName(devices[k]);
    }
    PersistLastWriterWins(w1, dest, devices, fetch, sanitized, k);
  }

  lemma RunBackupPreservesWellFormed(w: World, dest: Path, gitDisabled: bool, sanitized: bool, filterIsValid: bool,
                                     inventory: seq<InventoryRow>, fetch: Fetcher, stamp: string, shownStdout: string)
    requires WellFormed(w)
    ensures WellFormed(RunBackup(w, dest, gitDisabled, sanitized, filterIsValid, inventory, fetch, stamp, shownStdout).1)
  {
    InitiateDestinationPreservesWellFormed(w, dest, gitDisabled);
    var w1 := InitiateDestination(w, dest, gitDisabled).1;
    PersistPreservesWellFormed(w1, dest, ProjectDevices(inventory), fetch, sanitized);
  }

  // ---------------------------------------------------------------------------
  // A worked run: two devices, the first with a configuration, the second without.

  /** With git disabled and the folder already there, the run writes the
      first device's file, writes nothing for the second, and ends without git. */
  lemma TwoDeviceScenario(w: World, dest: Path, first: InventoryRow, second: InventoryRow,
                          fetch: Fetcher, text: string, stamp: string, shownStdout: string)
    requires dest in w.dirs
    requires fetch(first.sn, false) == Config(text) && fetch(second.sn, false) == NoConfig
    requires ConfigFilePath(dest, Device(first.sn, first.hostname)) !in w.dirs
    ensures RunBackup(w, dest, true, false, true, [first, second], fetch, stamp, shownStdout)
         == (Completed(GitNotActivated), w.(files := w.files[ConfigFilePath(dest, Device(first.sn, first.hostname)) := text]))
  {
    var d1, d2 := Device(first.sn, first.hostname), Device(second.sn, second.hostname);
    var devices := ProjectDevices([first, second]);
    assert devices == [d1, d2];
    assert w.dirs + {dest} == w.dirs;
    assert InitiateDestination(w, dest, true) == (Ok(Initiated(false, false)), w);
    var w1 := w.(files := w.files[ConfigFilePath(dest, d1) := text]);
    assert ProcessDevice(w, dest, d1, fetch(d1.sn, false)) == Ok(w1);
    assert PersistConfigs(w1, dest, [d2], fetch, false) == Progress(w1, None);
    assert devices[1..] == [d2];
  }
}
