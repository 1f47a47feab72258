# mc-manager in Dafny

mc-manager sets up and maintains a Minecraft server directory. Its core has
four commands:

- **create** makes the management directory `.mc-manager`, writes
  `ManagerConfig.toml`, `start-server.sh` and `eula.txt`, then updates.
- **update** picks a version, resolves `release` and `snapshot` against
  Mojang's version manifest, and compares the result with the version in
  `.mc-manager/current_version.txt`. It downloads `minecraft_server.jar` only
  when the two differ, and then records the new version.
- **backup** writes the `world` directory, as a tar.gz archive, to
  `backup.tar.gz` in the backup directory.
- The **files** helpers write a file, read one, and load the configuration.

The model is one Dafny module per source file. Three more modules, in two
files, hold the parts of the standard library that the source relies on:

- `Paths` (`paths.dfy`): `Path::join`, `is_relative`, a path's parent, and
  the directories `create_dir_all` makes. Paths are strings.
- `Os` and `System` (`os.dfy`): the machine. A `Machine` value holds the file
  map, the directory set, and the paths where creating a file or directory is
  refused. It also logs every HTTP request sent. `Os` gives each primitive
  (`File::create`, `read_to_string`, `create_dir_all`, writing a file's
  contents, an HTTP GET) as a function from one machine to the next.
  `System.Host` is the same machine as a mutable object, whose methods
  perform those functions in place.
- `Files`, `MinecraftApi`, `Update`, `Create` and `Backup` follow `files.rs`,
  `minecraft_api.rs`, `update.rs`, `create.rs` and `backup.rs`.

Each command appears twice. Its specification is a function `…Run` from
the starting machine to a `Run`: the machine afterwards plus the
`Result`. It has a method of the source's own name (`Update`, `Create`,
`Backup`, `WriteFile`, `DownloadServer`, …), written step by step like the
Rust code on a `Host`. Each method ensures that its result and the host's
new state are exactly those of the function. The properties are lemmas
about the functions.

The outside world is passed in as parameters:

- The network is a `Network`: the decoded manifest, if fetching and decoding
  it succeed, and the response to each download URL. A response holds its
  `Content-Length` header, its body, and whether the body arrived whole.
- The `toml` crate is a `TomlCodec`, a pair of serialise and parse functions
  that may fail. Where a property depends on the crate reading back what it
  wrote, the lemma requires `RoundTrips(toml)`.

## Model

| member | source | states |
|---|---|---|
| `Paths.JoinShape` | src/update.rs:14 | `base.join(rel)` is `rel` when that is absolute; otherwise the base, then one separator unless the base is empty or ends in one, then `rel` |
| `Os.ReadToString` | src/files.rs:30-31 | Succeeds exactly when the path is a text file, and returns its exact text; every failure is an I/O error naming the path, `NotFound` when nothing is there |
| `Os.CreateFile` | src/files.rs:24 | Succeeds exactly when the path is not a directory, not refused, and its parent exists; then the file exists and is empty, and nothing else changes. On failure nothing changes |
| `Os.Fill` | src/files.rs:25 | Writing into an open file: the file holds exactly the new content and nothing else changes |
| `Os.Made` | src/backup.rs:30 | The directories a failing `create_dir_all` leaves behind are missing members of the chain, and none of them is refused |
| `Os.CreateDirAll` | src/create.rs:21 | Succeeds exactly for the empty path, an existing directory, or a directory none of whose chain is a file and none of whose missing members is refused; it then adds the directory and all its ancestors. A file in the chain fails it with no change; a refused missing member fails it after the shallower missing ones were made (`Made`). Files and the request log never change |
| `Files.WriteRun` | src/files.rs:23-26 | Succeeds exactly when the file can be created. Afterwards the file holds exactly the data and reads back as it, and no other file, directory or request changes. On failure nothing changes |
| `Files.WriteFile` | src/files.rs:23-26 | The host ends in the state `WriteRun` gives and returns its result |
| `Files.ReadFile` | src/files.rs:28-33 | Succeeds exactly when the path is a text file and returns its text; a missing path gives `NotFound`; the host is not changed |
| `Files.LoadConfig` | src/files.rs:35-44 | Succeeds exactly when `<server>/.mc-manager/ManagerConfig.toml` is a text file that parses; the result is that parse |
| `Files.GetConfig` | src/files.rs:35-44 | Returns what `LoadConfig` gives for the host's state |
| `Files.LoadConfigReadsOneFile` | src/files.rs:36-39 | Two machines that agree on the configuration file load the same configuration |
| `Files.LoadConfigOfSaved` | src/files.rs:40-43 | A configuration file holding the serialisation of `c` loads as `c` |
| `MinecraftApi.DownloadUrlShape` | src/minecraft_api.rs:26-28 | A download URL is the download root, then the version as a directory, and ends in that version's `.jar` file |
| `MinecraftApi.VersionOfUrl` | src/minecraft_api.rs:26-28 | Whatever version it recovers from a URL has exactly that URL as its download URL |
| `MinecraftApi.VersionOfDownloadUrl` | src/minecraft_api.rs:26-28 | Every version is recovered from its download URL: the URL template is invertible |
| `MinecraftApi.DownloadUrlInjective` | src/minecraft_api.rs:26-28 | Two versions share a download URL exactly when they are the same version |
| `MinecraftApi.DownloadUrlIsNotManifest` | src/minecraft_api.rs:20-28 | No download URL is the manifest URL, so the request log tells downloads and manifest fetches apart |
| `MinecraftApi.ManifestRun` | src/minecraft_api.rs:20-23 | Logs one request, to the manifest URL. Succeeds exactly when the manifest decodes, and returns that manifest |
| `MinecraftApi.VersionManifest` | src/minecraft_api.rs:20-23 | The host ends in the state `ManifestRun` gives and returns its result |
| `MinecraftApi.DownloadRun` | src/minecraft_api.rs:25-45 | Logs the version's URL. With no response or no `Content-Length`, it fails before the file is touched. It succeeds exactly when the length is present, the body arrives whole and the file can be created; then the file holds the body. No other file and no directory changes |
| `MinecraftApi.DownloadServer` | src/minecraft_api.rs:25-45 | The host ends in the state `DownloadRun` gives and returns its result |
| `Update.LayoutDistinct` | src/update.rs:28-45 | The configuration file, the marker and the jar are three different paths |
| `Update.ChooseVersion` | src/update.rs:17-20 | An explicit version is used as given; otherwise the configuration is loaded, and its `version` is used, or its failure is the result |
| `Update.ResolveRun` | src/update.rs:21-25 | `release` and `snapshot` cost one manifest fetch and give the manifest's `latest` field. Any other name is returned as it is, with no request and no change |
| `Update.ResolveIdempotent` | src/update.rs:21-25 | When the manifest names concrete versions, resolving a resolved version changes nothing |
| `Update.Installed` | src/update.rs:28-32 | A missing marker reads as `none`; an existing one is read as text |
| `Update.UpdateRun` | src/update.rs:13-49 | No directory changes; no file but the marker and the jar changes; requests are only appended |
| `Update.InstallRun` | src/update.rs:34-46 | Past the comparison: the same frame as `UpdateRun` |
| `Update.UpdateDependsOnChoiceOnly` | src/update.rs:17-20 | Two calls that choose the same version behave identically |
| `Update.UpdateFailsCleanBeforeGate` | src/update.rs:17-32 | A failure to load the configuration, fetch the manifest or read the marker changes no file, and sends at most the manifest request |
| `Update.InstallDownloadsIffOutdated` | src/update.rs:34-41 | Past the comparison, the only request is the download URL, sent exactly when the installed and target versions differ; when they are equal the jar is untouched |
| `Update.UpdateSentShape` | src/update.rs:21-41 | An update's requests are one manifest fetch, only for `release`/`snapshot`, and then at most the resolved version's download |
| `Update.UpdateFetchesManifestOnlyForSymbolicNames` | src/update.rs:21-25 | Among the requests, the manifest fetches are exactly `{0}` for `release`/`snapshot` and none for any other name |
| `Update.UpdateDownloadsIffOutdated` | src/update.rs:34-41 | The resolved version's URL is requested exactly when the installed version differs from it; when they are equal the jar is untouched |
| `Update.UpdateRecordsResolvedVersion` | src/update.rs:43-46 | After a successful update, the marker reads back as exactly the resolved version |
| `Update.UpdateKeepsMarkerWhenDownloadFails` | src/update.rs:36-46 | A failed download leaves the marker as it was and fails the update. A body cut short leaves a `Partial` jar |
| `Update.UpdateRunPastGate` | src/update.rs:34-46 | Once the version is resolved and the marker read, an update is exactly `InstallRun` |
| `Update.UpdateSucceeded` | src/update.rs:13-49 | A successful update implies the choice, the resolution and the marker read succeeded, and that the marker could be created |
| `Update.UpdateWhenSynced` | src/update.rs:34-46 | When the marker already holds the target and can be rewritten (not refused, its directory present), the update succeeds, changes no file or directory, and sends only manifest fetches |
| `Update.UpdateIsIdempotent` | src/update.rs:13-49 | Repeating a successful update succeeds without any download, and without any change to a file or directory |
| `Update.UpdatePreservesJarMatchesMarker` | src/update.rs:34-46 | A successful update keeps the jar holding the body served for the version in the marker, except for the `none` case below |
| `Update.NoneIsNeverDownloaded` | src/update.rs:29-34 | Asking for version `none` with no marker sends no request. On success it records `none` |
| `Update.Update` | src/update.rs:13-49 | The host ends in the state `UpdateRun` gives and returns its result |
| `Update.Resolve` | src/update.rs:21-25 | The host ends in the state `ResolveRun` gives and returns its result |
| `Update.Install` | src/update.rs:34-46 | The host ends in the state `InstallRun` gives and returns its result |
| `Create.StartScriptShape` | src/create.rs:42-44 | The start script is a `sh` script that runs, in `nogui` mode, the `minecraft_server.jar` that `update` installs, with `-Xms<xms>` before `-Xmx<xmx>` |
| `Create.CreateLayoutDistinct` | src/create.rs:37-54 | The configuration, start script, EULA, marker and jar are five different paths |
| `Create.CreateRun` | src/create.rs:10-58 | The refused paths are unchanged, and files and directories stay apart |
| `Create.SetUpRun` | src/create.rs:19-54 | The set-up sends no request |
| `Create.SetUpLayout` | src/create.rs:21-54 | After a successful set-up, the management directory exists. `ManagerConfig.toml` holds the serialised configuration of exactly the arguments. `start-server.sh` is the shell line with `-Xms<xms>` before `-Xmx<xmx>`. `eula.txt` is `eula=true`. The directories added are exactly the management directory and its missing ancestors; no other file changes and no request is sent |
| `Create.SetUpFrame` | src/create.rs:19-54 | Whatever happens, no file but the three it writes changes |
| `Create.CreateThenUpdatesToGivenVersion` | src/create.rs:27-57 | After the set-up, the configuration loads as the arguments. With a TOML crate that reads back what it writes, `create` is exactly an update asked for the `version` argument |
| `Create.CreateStopsAtFirstFailure` | src/create.rs:21-57 | A failed set-up step fails `create` without sending a request and without touching the jar or the marker. A failure to make the directory is the whole outcome: no file changes, and only the directories `create_dir_all` made remain |
| `Create.CreateWritesInOrder` | src/create.rs:21-54 | When the set-up fails, the files are exactly as the steps before the failing one left them: a failure to make the directory, serialise or write the configuration leaves every file as it was; a failed start-script write leaves only the configuration written; a failed EULA write leaves the configuration and start script written |
| `Create.CreateSucceeds` | src/create.rs:10-58 | A successful `create` leaves the configuration loading as the arguments, the start script and EULA exact, and the marker holding the resolved version |
| `Create.Create` | src/create.rs:10-58 | The host ends in the state `CreateRun` gives and returns its result |
| `Backup.ChooseBackupDir` | src/backup.rs:21-24 | An explicit directory is used as given; otherwise the configuration is loaded, and its `backup.dir` is used, or its failure is the result |
| `Backup.BackupDirFor` | src/backup.rs:25-29 | An absolute directory is used unchanged; a relative one goes under the server directory. Both agree with `server.join(dir)` |
| `Backup.SnapshotShape` | src/backup.rs:43-44 | Every entry of the archive lies inside `world`, and every file under the world directory is in it, under its renamed path, with its content |
| `Backup.RebaseInjective` | src/backup.rs:43-44 | Different paths under `world` get different entry names in the archive |
| `Backup.BackupRun` | src/backup.rs:17-50 | No request is sent and the refused paths are unchanged; files and directories stay apart |
| `Backup.OpenArchiveRun` | src/backup.rs:30-39 | Creates the backup directory, then the archive. When both succeed the archive is there and empty; when creating the directory fails, that failure is the whole outcome and no file changes. No file but the archive changes, and directories only grow within the backup directory's chain |
| `Backup.BackupDirReadyForArchive` | src/backup.rs:30-39 | Once the backup directory is created, the archive's parent exists. Creating the archive then fails only for a directory at its path or a refused path |
| `Backup.RebaseJoin` | src/backup.rs:33-44 | An entry taken from under `world` extracts, under the server directory, to exactly the path it came from |
| `Backup.BackupFilesRoundTrip` | src/backup.rs:33-47 | Extracting the archive into the server directory gives back every file under `world` with its content, and nothing else |
| `Backup.BackupDirsRoundTrip` | src/backup.rs:33-47 | Extracting the archive recreates `world` and exactly the directories under it |
| `Backup.BackupEffect` | src/backup.rs:30-49 | A backup succeeds exactly when the archive was created and `world` is a directory; the archive then holds the snapshot of `world`. A missing `world` leaves an empty archive and an error. No file but the archive changes |
| `Backup.BackupReplacesPrevious` | src/backup.rs:37-39 | Two backups into the same directory leave at most one archive, `backup.tar.gz`, and touch no other file |
| `Backup.BackupFailsCleanBeforeArchive` | src/backup.rs:21-30 | A failure to load the configuration changes nothing; a failure to create the directory is exactly `create_dir_all`'s outcome. Either way the backup fails and no file changes |
| `Backup.Backup` | src/backup.rs:17-50 | The host ends in the state `BackupRun` gives and returns its result |
| `Backup.OpenArchive` | src/backup.rs:30-39 | The host ends in the state `OpenArchiveRun` gives and returns its result |

## Behaviour of the code that the model keeps

The model follows the code in places where a stricter design would differ:

- **HTTP status is ignored.** `reqwest::get` does not fail on a 404 or 500
  (src/minecraft_api.rs:30). Any response with a `Content-Length` is written
  as the jar (`DownloadRun`), and the update records its version. An unknown
  version therefore "installs" the server's error page.
- **Missing length panics.** A response without `Content-Length` panics at
  src/minecraft_api.rs:32-34. The model treats this as `Abort`, before the
  jar file is created.
- **No temporary file.** The jar is written in place (src/minecraft_api.rs:37-40).
  A body cut short leaves a `Partial` jar, and the marker keeps the old
  version (`UpdateKeepsMarkerWhenDownloadFails`). A later update to that
  old version then finds the marker equal to the target and does not
  download again. `JarMatchesMarker` holds only for successful updates.
- **The `none` sentinel.** A missing marker reads as the string `none`
  (src/update.rs:31), which a real version name could equal. Asking for
  `none` on a fresh server downloads nothing and records `none`
  (`NoneIsNeverDownloaded`). That is why `UpdatePreservesJarMatchesMarker`
  excludes that one case.
- **Fixed archive name, no retention.** Every backup writes
  `<backup dir>/backup.tar.gz` (src/backup.rs:37), so each backup replaces
  the last one (`BackupReplacesPrevious`). The code has no timestamps, no
  retention and no temporary file. src/main.rs:151 passes a fourth argument
  (a maximum backup count) that `backup` (src/backup.rs:17) does not take.
  The model follows `backup.rs`.
- **A missing world destroys the previous backup.** The archive is created,
  which truncates it, before `world` is read (src/backup.rs:39-44). When
  `world` is missing, the tar builder and gzip encoder still finish the
  stream as they are dropped. The result is an empty archive in place of
  the previous backup, plus an error (`BackupEffect`).
- **Directory creation is not atomic.** `create_dir_all` (src/create.rs:21,
  src/backup.rs:30) makes missing directories one at a time, shallowest
  first. When one of them may not be created, the ones already made stay
  (`Os.Made`), so a failed `create` or `backup` can leave empty directories
  behind, though never a file.

## Left out

- Verbose output (`println!`) and the download progress bar (`pbr`,
  `broadcast`): they only print.
- The HTTP transport and the manifest's JSON decoding. The network is the
  `Network` parameter: a decoded manifest or nothing, and a response per
  URL.
- TOML serialisation: the `TomlCodec` parameter. That it reads back what it
  writes is a requirement of the lemmas that need it, not a proof.
- The tar and gzip formats. An archive is the `Archive` value holding its
  directory and file entries. A disk error inside `encoder.finish()` or in
  the middle of walking `world` is not modelled, and neither are symbolic
  links.
- A backup directory inside `world`: the snapshot then includes the freshly
  truncated archive as an empty file. The real tar would read a file that
  is being written.
- Path normalisation: paths are compared as strings, so `a/./b`, `a//b` and
  a trailing separator are different paths.
- Backup.BackupDirReadyForArchive: stated only for a backup directory
  written without a trailing separator, because of the path comparison
  above.
- File system failures other than a missing parent, a directory in the way,
  a refused path (the fixed `locked` set) and a missing file. A write that
  fails halfway through `write_all` (a full disk, say) is not modelled.
- `src/main.rs` (argument parsing and dispatch), `src/start.rs` (it launches
  `screen`, an external process) and `src/compression.rs` (unused: nothing
  calls it and its constructor is commented out) are not part of this model.
- Concurrent runs against the same server directory: the code has no
  locking, and the model runs one command at a time.
