/**
 * The script's functions as methods that update the filesystem in place.
 * Each method is proved to leave the state that the matching function of
 * module Backup describes.
 */
module Script {

  import opened Wrappers
  import opened Inventory
  import opened FileNames
  import opened Text
  import opened Backup

  /** The disk the script works on, and the git commands it has started. */
  class FileSystem {
    var dirs: set<Path>
    var files: map<Path, string>
    var gitLog: seq<GitCommand>

    function State(): World
      reads this
    {
      World(dirs, files, gitLog)
    }

    ghost predicate Valid()
      reads this
    {
      WellFormed(State())
    }

    constructor (w: World)
      requires WellFormed(w)
      ensures Valid() && State() == w
    {
      dirs, files, gitLog := w.dirs, w.files, w.git;
    }

    /** initiate_destination_folder: create the folder if it is not a
        directory, then run `git init` unless git is disabled or `.git` is
        already a directory. */
    method InitiateDestinationFolder(dest: Path, gitDisabled: bool) returns (r: Result<InitReport, Failure>)
      requires Valid()
      modifies this
      ensures Valid()
      ensures (r, State()) == InitiateDestination(old(State()), dest, gitDisabled)
    {
      var gitFolder := Child(dest, GitFolderName);
      var created := false;
      if dest !in dirs {
        if dest == [] || dest in files || Parent(dest) !in dirs {
          return Err(MkdirFailed(dest));
        }
        dirs := dirs + {dest};
        created := true;
      }
      var gitInitiated := false;
      if !gitDisabled && gitFolder !in dirs {
        if gitFolder !in files {
          dirs := dirs + {gitFolder};
        }
        gitLog := gitLog + [GitInit(dest)];
        gitInitiated := true;
      }
      r := Ok(Initiated(created, gitInitiated));
      assert created == (dest !in old(dirs));
      assert State().dirs == InitiateDestination(old(State()), dest, gitDisabled).1.dirs;
    }

    /** create_config_file: write the text to `dest/<hostname>--<sn>.txt`,
        replacing whatever the file held. */
    method CreateConfigFile(text: string, d: Device, dest: Path) returns (failure: Option<Failure>)
      requires Valid()
      modifies this
      ensures Valid()
      ensures match WriteConfigFile(old(State()), dest, d, text)
        case Ok(w) => failure == None && State() == w
        case Err(e) => failure == Some(e) && State() == old(State())
    {
      var path := Child(dest, ConfigFileName(d));
      if dest !in dirs || path in dirs {
        return Some(WriteFailed(path));
      }
      files := files[path := text];
      failure := None;
    }

    /** The device loop of main: fetch each device's configuration in list
        order and write it when there is one. An exception from the fetch or
        the write ends the loop. */
    method BackupDevices(dest: Path, devices: seq<Device>, fetch: Fetcher, sanitized: bool) returns (failure: Option<Failure>)
      requires Valid()
      modifies this
      ensures Valid()
      ensures Progress(State(), failure) == PersistConfigs(old(State()), dest, devices, fetch, sanitized)
    {
      var i := 0;
      while i < |devices|
        invariant 0 <= i <= |devices|
        invariant Valid()
        invariant PersistConfigs(State(), dest, devices[i..], fetch, sanitized)
               == PersistConfigs(old(State()), dest, devices, fetch, sanitized)
      {
        var device := devices[i];
        assert devices[i..][0] == device && devices[i..][1..] == devices[i + 1..];
        match fetch(device.sn, sanitized) {
          case Config(text) =>
            failure := CreateConfigFile(text, device, dest);
            if failure.Some? {
              return;
            }
          case NoConfig =>
          case FetchError =>
            return Some(FetchFailed(device.sn));
        }
        i := i + 1;
      }
      failure := None;
    }

    /** The commit step of main. */
    method CommitDestination(dest: Path, gitDisabled: bool, stamp: string, shownStdout: string) returns (outcome: CommitOutcome)
      requires Valid()
      modifies this
      ensures Valid()
      ensures (outcome, State()) == CommitChanges(old(State()), dest, gitDisabled, stamp, shownStdout)
    {
      if gitDisabled {
        return GitNotActivated;
      }
      gitLog := gitLog + [GitAddAll(dest), GitCommit(dest, CommitMessage(stamp))];
      if Contains(shownStdout, NothingToCommitMarker) {
        outcome := NothingToCommit;
      } else {
        outcome := Committed(shownStdout);
      }
    }

    /** main: initialise the destination, check the filter, back up every
        device of the inventory, then commit. */
    method Run(dest: Path, gitDisabled: bool, sanitized: bool, filterIsValid: bool,
               inventory: seq<InventoryRow>, fetch: Fetcher, stamp: string, shownStdout: string)
      returns (report: RunReport)
      requires Valid()
      modifies this
      ensures Valid()
      ensures (report, State())
           == RunBackup(old(State()), dest, gitDisabled, sanitized, filterIsValid, inventory, fetch, stamp, shownStdout)
    {
      var init := InitiateDestinationFolder(dest, gitDisabled);
      if init.Err? {
        return Aborted(init.error);
      }
      if !filterIsValid {
        return FilterRejected;
      }
      var devices := ProjectDevices(inventory);
      var failure := BackupDevices(dest, devices, fetch, sanitized);
      if failure.Some? {
        return Aborted(failure.value);
      }
      var outcome := CommitDestination(dest, gitDisabled, stamp, shownStdout);
      report := Completed(outcome);
    }
  }
}
