# ipf-backup-config, modelled in Dafny

`backup_config.py` is a script that backs up device configurations from an IP Fabric
instance. It works in four steps:

1. It makes sure the backup folder exists. Unless `--no-git` is given, it also makes the
   folder a git working tree.
2. It lists the inventory, narrowed by the `INVENTORY_FILTER` JSON document.
3. For each device, it asks the SDK for the configuration. When one comes back, it writes
   the text to `<hostname>--<serial>.txt`, with every `/` replaced by `-`.
4. When git is enabled, it runs `git add -A` and `git commit`. It then reads the commit's
   output to tell "nothing to commit" apart from a real commit.

This project models the script's decision logic. The SDK, the JSON parser, the clock and
git's output are inputs.

The modules:

- `Inventory` (inventory.dfy): inventory rows and their projection onto `{sn, hostname}`.
- `FileNames` (file_names.dfy): slash replacement and the configuration file name.
- `Text` (text.dfy): Python's substring test `in`, with a reference definition by index.
- `Backup` (backup.dfy): the script as pure transitions of a `World`.
  - A `World` holds the set of directories, a map from file path to contents, and the
    log of git commands started.
  - A path is its list of components.
  - `InitiateDestination`, `WriteConfigFile`, `PersistConfigs`, `CommitChanges` and
    `RunBackup` follow the script's functions.
- `Script` (script.dfy): a `FileSystem` class with those three pieces of state as
  fields. Its methods follow the script's functions and change the fields in place.
  - Each method is proved to leave exactly the state the matching `Backup` function
    gives.
  - The device loop is a `while` loop with its invariant.
- `BackupProperties` (backup_properties.dfy): the properties.
  - Initialisation is idempotent.
  - The loop completes exactly when every device succeeds, and otherwise stops at the
    first device that fails.
  - Files no device targets are untouched, and the last writer wins on a shared name.
  - How the commit output is classified.
  - Properties of a whole run.

Three behaviours of the code are easy to miss:

- The destination folder is created, and `git init` run, before the filter is checked
  (backup_config.py:128 comes before :131). An invalid filter therefore still leaves the
  folder and the repository in place. `BackupProperties.RunBackupInitialisesBeforeFilterCheck`
  states this.
- A configuration counts as absent only when the SDK returns `None`. The SDK's
  configuration object is truthy even when its text is empty, so an empty configuration
  is still written to its file (backup_config.py:139-144).
- `is_dir()` is false for a `.git` that is a file, for example a pointer to a repository
  elsewhere. In that case `git init` runs on every call (backup_config.py:58-59), so a
  repeated initialisation leaves the filesystem unchanged but starts `git init` again.

## Model

| member | source | states |
|---|---|---|
| `Inventory.ProjectDevices` | backup_config.py:132-135 | One descriptor per inventory row, in row order, holding exactly that row's `sn` and `hostname` |
| `Inventory.ProjectionIgnoresOtherColumns` | backup_config.py:132-135 | Rows that agree on `sn` and `hostname` give the same descriptors, whatever their other columns |
| `Inventory.ProjectDevicesAppend` | backup_config.py:132-135 | Projecting a concatenation is the concatenation of the projections, so device order follows inventory order |
| `FileNames.ReplaceSlashes` | backup_config.py:70 | `replace('/', '-')`: same length; each `/` becomes `-` and every other character is kept; no `/` remains |
| `FileNames.ReplaceSlashesFixedPoint` | backup_config.py:70 | Replacement leaves a string unchanged if and only if it holds no `/` |
| `FileNames.ReplaceSlashesIdempotent` | backup_config.py:70 | Replacing twice gives the same result as replacing once |
| `FileNames.ConfigFileName` | backup_config.py:68-71 | The file name holds no `/`, so it is one entry directly inside the folder; its length is the hostname's plus the serial's plus 6 |
| `FileNames.ConfigFileNameParts` | backup_config.py:70 | The name is the replaced hostname, then `--`, then the replaced serial, then `.txt` |
| `FileNames.ConfigFileNameOfPlainDevice` | backup_config.py:70 | Without `/` in either part, the name is `hostname--sn.txt` |
| `FileNames.SlashAndDashCollide` | backup_config.py:70 | Two different devices, `core/sw1` and `core-sw1` with the same serial, get the same file name |
| `FileNames.SeparatorCollides` | backup_config.py:70 | A `--` inside a hostname or serial lets two different devices share a file name |
| `Text.Contains` | backup_config.py:159 | Python's `pattern in text`: a pattern that is a prefix of the text is found, and a found pattern is never longer than the text; `Text.ContainsIffOccurs` ties it to the index-based definition |
| `Text.ContainsIffOccurs` | backup_config.py:159 | The substring scan succeeds exactly when the pattern occurs at some index of the text |
| `Text.LongerPatternAbsent` | backup_config.py:159 | A pattern longer than the text is never found |
| `Backup.Child` | backup_config.py:54 | Joining a name to a folder gives a path whose parent is that folder |
| `Backup.CanMkdir` | backup_config.py:55-56 | Defined as when `mkdir()` succeeds on a path that is not yet a directory: not the root, not a file, and the parent is a directory. Its contract: adding such a directory to a well-formed filesystem keeps it well formed |
| `Backup.RunGitInit` | backup_config.py:59 | `git init` is logged with the folder as working directory; `.git` becomes a directory unless a file of that name is there; files are unchanged |
| `Backup.InitiateDestination` | backup_config.py:54-60 | Fails (`mkdir`) exactly when the folder is not a directory and cannot be created; on success the folder is a directory; it reports creation exactly when the folder was not a directory; `git init` runs exactly when git is enabled and `.git` is not a directory; at most the folder and `.git` are added; files never change |
| `Backup.ConfigFilePath` | backup_config.py:68-71 | `destination_folder / name`: the folder's path followed by exactly one more component, the device's file name, which holds no `/` |
| `Backup.WriteConfigFile` | backup_config.py:68-75 | Succeeds exactly when the folder is a directory and the target path is not one; then the target holds exactly the text, any old content is replaced, and every other file and directory is unchanged |
| `Backup.ProcessDevice` | backup_config.py:139-146 | No configuration: nothing changes. A fetch exception: the run fails with that device's serial. A configuration: the result is exactly `WriteConfigFile` of its text |
| `Backup.PersistConfigs` | backup_config.py:137-146 | The loop never changes directories or the git log, never removes a file, and never fails with a `mkdir` error |
| `Backup.ClassifyCommit` | backup_config.py:148-164 | "Git not activated" exactly when git is disabled; a "committed" outcome carries the commit's shown output |
| `Backup.CommitMessage` | backup_config.py:150-154 | The commit message is `Backup ` followed by the timestamp |
| `Backup.CommitChanges` | backup_config.py:148-164 | With git enabled, `git add -A` then `git commit -m "Backup <stamp>"` run in the folder; with git disabled no git command runs; files and directories are unchanged; the outcome is the classification of the output |
| `Backup.RunBackup` | backup_config.py:127-164 | A `mkdir` failure changes nothing; unless the run aborts, the folder exists; a rejected filter writes no file; a completed run reports "not activated" exactly when git is disabled; git disabled means no git command; nothing is deleted |
| `Script.FileSystem.InitiateDestinationFolder` | backup_config.py:49-60 | Updates the filesystem and git log in place to exactly the state `InitiateDestination` gives, and returns its report; keeps the filesystem well formed |
| `Script.FileSystem.CreateConfigFile` | backup_config.py:63-75 | Writes the file in place as `WriteConfigFile` describes, or returns its failure with nothing changed |
| `Script.FileSystem.BackupDevices` | backup_config.py:137-146 | The loop over devices in list order leaves exactly the files and failure that `PersistConfigs` gives |
| `Script.FileSystem.CommitDestination` | backup_config.py:148-164 | Appends the git commands and returns the outcome that `CommitChanges` gives |
| `Script.FileSystem.Run` | backup_config.py:79-165 | `main` as one call: the state and report are those of `RunBackup` |
| `BackupProperties.InitiateDestinationIdempotent` | backup_config.py:54-60 | A second initialisation with the same arguments creates nothing and reports no creation. It starts `git init` again only when `.git` is a file and git is enabled |
| `BackupProperties.InitiateDestinationPreservesWellFormed` | backup_config.py:54-60 | Creating the folder and `.git` keeps every path a file or a directory, never both, inside an existing directory |
| `BackupProperties.PersistCompletesIff` | backup_config.py:138-146 | The loop finishes without an exception exactly when no device's fetch raises and every configuration's target is writable |
| `BackupProperties.PersistStopsAtFirstFailure` | backup_config.py:138-146 | At the first failing device the run stops with that device's error. The files then are those the earlier devices left |
| `BackupProperties.PersistUntouched` | backup_config.py:138-146 | A path that no device with a configuration targets keeps its content, or stays absent |
| `BackupProperties.PersistLastWriterWins` | backup_config.py:138-146 | After a complete loop, a device's file holds its configuration text unless a later device with a configuration has the same file name |
| `BackupProperties.PersistPreservesWellFormed` | backup_config.py:138-146 | Writing configurations keeps the filesystem well formed |
| `BackupProperties.ClassifyCommitIff` | backup_config.py:159-164 | With git enabled, the outcome is "no change" exactly when `\nnothing to commit` (a backslash, then `n`) occurs in the shown output, and "committed" otherwise |
| `BackupProperties.MarkerMeansNothingToCommit` | backup_config.py:159-160 | Output that holds the marker anywhere is "no change" |
| `BackupProperties.NoBackslashMeansCommitted` | backup_config.py:159-162 | Output with no backslash character is always "committed", a real newline character included |
| `BackupProperties.RunBackupInitialisesBeforeFilterCheck` | backup_config.py:127-131 | With an invalid filter, the run ends as "filter rejected", but only after the folder was created and git initialised |
| `BackupProperties.RunBackupKeepsOtherFiles` | backup_config.py:127-164 | However a run ends, a file that no device with a configuration targets is left unchanged |
| `BackupProperties.RunBackupWritesConfigs` | backup_config.py:132-146 | After a completed run, every device with a configuration has its text in its file, unless a later such device has the same file name |
| `BackupProperties.RunBackupPreservesWellFormed` | backup_config.py:127-164 | A run keeps the filesystem well formed |
| `BackupProperties.TwoDeviceScenario` | backup_config.py:127-164 | With git disabled and two devices, where the first has a configuration and the second has none, only the first device's file is written and the run ends "not activated" |

## Left out

- JSON parsing of the filter (`valid_json`, backup_config.py:37-46) is not modelled. Whether the text parses is a boolean input; `False` ends the run at the point of `sys.exit()`, whose exit status is not modelled.
- The IP Fabric SDK is not modelled. This covers client construction, authentication, environment variables and `.env` loading (backup_config.py:32, 121-126). The filtered inventory is given as a sequence of rows. `get_configuration` is given as a function of the serial and the `sanitized` flag, assumed deterministic. An exception from the inventory query is not modelled; only `get_configuration` can raise in the model.
- Real git is not modelled. The model records which git commands start, with their working directory and message. Its only effect on the filesystem is creating `.git`. What `git add`/`git commit` store, their exit codes (ignored by the script), and a missing `git` binary are not modelled.
- `ClassifyCommit`: the input is the text `str(git_commit.stdout)`. How Python renders bytes as that text is not modelled, so the model does not derive the shown text from the raw output bytes.
- The commit timestamp (`datetime.now().strftime`, backup_config.py:150-151) is an input string.
- Logging (loguru setup and every log message) and the typer command-line parsing (backup_config.py:78-119) are left out, as is the default folder's resolution from `sys.argv[0]` (backup_config.py:25-28).
- Filesystem details are left out: relative versus absolute paths, symbolic links, permissions, name-length limits, text encoding, and partially written files. Only the `mkdir` and `open(..., "w")` errors that follow from the directory structure are modelled.
- `BackupProperties.PersistUntouched`, `BackupProperties.PersistLastWriterWins`, `BackupProperties.RunBackupWritesConfigs`: file names are compared exactly, character for character, as on a case-sensitive filesystem. On a case-insensitive one (the default on macOS and Windows), `Core-sw1--AB12.txt` and `core-sw1--AB12.txt` are the same file, so a later device can overwrite a file these lemmas describe as untouched or as holding an earlier device's text.
