/** `update.rs`: choose the version, resolve `release`/`snapshot` against the
    manifest, compare it with the installed-version marker, download the jar
    only when they differ, and record the version in the marker. */
module Update {
  import opened Paths
  import opened Os
  import opened System
  import opened Files
  import opened MinecraftApi

  const MARKER_FILE_NAME := "current_version.txt"

  const JAR_FILE_NAME := "minecraft_server.jar"

  /** What a missing marker reads as. */
  const NOT_INSTALLED := "none"

  /** `<server>/.mc-manager/current_version.txt`. */
  function MarkerPath(server: string): string {
    Join(ManagerDir(server), MARKER_FILE_NAME)
  }

  /** `<server>/minecraft_server.jar`. */
  function JarPath(server: string): string {
    Join(server, JAR_FILE_NAME)
  }

  /** The server's configuration file, its marker and its jar are three
      different files. */
  lemma LayoutDistinct(server: string)
    ensures ConfigPath(server) != MarkerPath(server)
    ensures ConfigPath(server) != JarPath(server)
    ensures MarkerPath(server) != JarPath(server)
  {
    InManagerDir(server, CONFIG_FILE_NAME);
    InManagerDir(server, MARKER_FILE_NAME);
    var config := MANAGER_DIR_NAME + "/" + CONFIG_FILE_NAME;
    var marker := MANAGER_DIR_NAME + "/" + MARKER_FILE_NAME;
    assert config[12] == 'M' && marker[12] == 'c';
    assert |config| == 30 && |marker| == 31 && |JAR_FILE_NAME| == 20;
    JoinDistinct(server, config, marker);
    JoinDistinct(server, config, JAR_FILE_NAME);
    JoinDistinct(server, marker, JAR_FILE_NAME);
  }

  /** The version asked for (lines 17-20): the argument when there is one;
      only without it is the configuration read. */
  function ChooseVersion(m: Machine, toml: TomlCodec, server: string, version: Option<string>): (r: Result<string>)
    ensures version.Some? ==> r == Ok(version.value)
    ensures version.None? ==> (r.Ok? <==> LoadConfig(m, toml, server).Ok?)
    ensures version.None? && r.Ok? ==> r.value == LoadConfig(m, toml, server).value.version
  {
    match version
    case Some(v) => Ok(v)
    case None =>
      var config :- LoadConfig(m, toml, server);
      Ok(config.version)
  }

  /** The concrete version (lines 21-25): `release` and `snapshot` are looked
      up in a freshly fetched manifest; any other name is already concrete
      and costs no request. */
  function ResolveRun(m: Machine, net: Network, version: string): (r: Run<string>)
    ensures version != "release" && version != "snapshot" ==> r == Run(m, Ok(version))
    ensures version == "release" || version == "snapshot" ==>
              r.after == Request(m, MANIFEST_URL) && (r.result.Ok? <==> net.manifest.Some?)
    ensures version == "release" && r.result.Ok? ==> r.result.value == net.manifest.value.latest.release
    ensures version == "snapshot" && r.result.Ok? ==> r.result.value == net.manifest.value.latest.snapshot
  {
    if version == "release" then
      var (m1, manifest) :- ManifestRun(m, net);
      Run(m1, Ok(manifest.latest.release))
    else if version == "snapshot" then
      var (m1, manifest) :- ManifestRun(m, net);
      Run(m1, Ok(manifest.latest.snapshot))
    else Run(m, Ok(version))
  }

  /** Resolution is idempotent as long as the manifest itself names concrete
      versions: resolving a resolved version changes nothing. */
  lemma ResolveIdempotent(m: Machine, net: Network, version: string)
    requires net.manifest.Some? ==>
               var latest := net.manifest.value.latest;
               latest.release !in {"release", "snapshot"} && latest.snapshot !in {"release", "snapshot"}
    requires ResolveRun(m, net, version).result.Ok?
    ensures var r := ResolveRun(m, net, version);
            ResolveRun(r.after, net, r.result.value) == r
  {
    var r := ResolveRun(m, net, version);
    if version == "release" || version == "snapshot" {
      assert net.manifest.Some?;
    }
  }

  /** The installed version (lines 28-32): the marker's exact text when it
      exists, `none` when it does not. */
  function Installed(m: Machine, server: string): (r: Result<string>)
    ensures !m.Exists(MarkerPath(server)) ==> r == Ok(NOT_INSTALLED)
    ensures m.Exists(MarkerPath(server)) ==> r == ReadToString(m, MarkerPath(server))
  {
    if m.Exists(MarkerPath(server)) then ReadToString(m, MarkerPath(server)) else Ok(NOT_INSTALLED)
  }

  /** `update(server, version)`. Whatever happens, no directory changes and
      no file other than the jar and the marker changes. */
  function UpdateRun(m: Machine, net: Network, toml: TomlCodec, server: string, version: Option<string>): (r: Run<()>)
    ensures r.after.dirs == m.dirs && r.after.locked == m.locked
    ensures forall p :: p != MarkerPath(server) && p != JarPath(server) ==> SameFile(m, r.after, p)
    ensures m.requests <= r.after.requests
    ensures m.Consistent() ==> r.after.Consistent()
  {
    var (_, chosen) :- Run(m, ChooseVersion(m, toml, server, version));
    var (m1, target) :- ResolveRun(m, net, chosen);
    var (_, current) :- Run(m1, Installed(m1, server));
    InstallRun(m1, net, server, current, target)
  }

  /** Lines 34-41, past the idempotency gate: download the jar only when the
      installed version differs from the target, then record the target. */
  function InstallRun(m: Machine, net: Network, server: string, current: string, target: string): (r: Run<()>)
    ensures r.after.dirs == m.dirs && r.after.locked == m.locked
    ensures forall p :: p != MarkerPath(server) && p != JarPath(server) ==> SameFile(m, r.after, p)
    ensures m.requests <= r.after.requests
    ensures m.Consistent() ==> r.after.Consistent()
  {
    var (m2, _) :-
      if current != target then DownloadRun(m, net, JarPath(server), target)
      else Run(m, Ok(()));
    WriteRun(m2, MarkerPath(server), target)
  }

  /** `update` looks at its `version` argument only through the version it
      chooses from it. */
  lemma UpdateDependsOnChoiceOnly(m: Machine, net: Network, toml: TomlCodec, server: string, v1: Option<string>, v2: Option<string>)
    requires ChooseVersion(m, toml, server, v1) == ChooseVersion(m, toml, server, v2)
    ensures UpdateRun(m, net, toml, server, v1) == UpdateRun(m, net, toml, server, v2)
  {
  }

  /** The requests an update sent, in order. */
  function Sent(m: Machine, r: Run<()>): seq<string>
    requires m.requests <= r.after.requests
  {
    r.after.requests[|m.requests|..]
  }

  /** Before the comparison nothing is written: a failure to load the
      configuration, fetch the manifest or read the marker leaves every file
      as it was and downloads nothing. */
  lemma UpdateFailsCleanBeforeGate(m: Machine, net: Network, toml: TomlCodec, server: string, version: Option<string>)
    requires
      || ChooseVersion(m, toml, server, version).Err?
      || ResolveRun(m, net, ChooseVersion(m, toml, server, version).value).result.Err?
      || Installed(m, server).Err?
    ensures var r := UpdateRun(m, net, toml, server, version);
            r.result.Err? && r.after.files == m.files && Sent(m, r) <= [MANIFEST_URL]
  {
    var r := UpdateRun(m, net, toml, server, version);
    var choice := ChooseVersion(m, toml, server, version);
    if choice.Ok? {
      var resolved := ResolveRun(m, net, choice.value);
      if resolved.result.Ok? {
        assert Installed(resolved.after, server) == Installed(m, server);
      }
    }
  }

  /** Past the gate the only request is the download, and it is sent
      exactly when the versions differ; when they are equal the jar is not
      touched. */
  lemma InstallDownloadsIffOutdated(m: Machine, net: Network, server: string, current: string, target: string)
    ensures var r := InstallRun(m, net, server, current, target);
            && m.requests <= r.after.requests
            && Sent(m, r) == (if current != target then [DownloadUrl(target)] else [])
            && (current == target ==> SameFile(m, r.after, JarPath(server)))
  {
    LayoutDistinct(server);
    var r := InstallRun(m, net, server, current, target);
    if current != target {
      var d := DownloadRun(m, net, JarPath(server), target);
      assert r.after.requests == d.after.requests;
    } else {
      assert r == WriteRun(m, MarkerPath(server), target);
    }
  }

  /** The requests of an update: a manifest fetch first when the chosen
      version is `release` or `snapshot`, then at most the download of the
      resolved version. */
  lemma UpdateSentShape(m: Machine, net: Network, toml: TomlCodec, server: string, version: Option<string>, chosen: string)
    requires ChooseVersion(m, toml, server, version) == Ok(chosen)
    ensures var s := Sent(m, UpdateRun(m, net, toml, server, version));
            var resolved := ResolveRun(m, net, chosen).result;
            var fetch := if chosen == "release" || chosen == "snapshot" then [MANIFEST_URL] else [];
            s == fetch || (resolved.Ok? && s == fetch + [DownloadUrl(resolved.value)])
  {
    var r := UpdateRun(m, net, toml, server, version);
    var resolved := ResolveRun(m, net, chosen);
    var m1 := resolved.after;
    var fetch := if chosen == "release" || chosen == "snapshot" then [MANIFEST_URL] else [];
    assert m1.requests == m.requests + fetch;
    assert Installed(m1, server) == Installed(m, server);
    if resolved.result.Err? || Installed(m, server).Err? {
      assert r.after == m1;
    } else {
      var target := resolved.result.value;
      var current := Installed(m, server).value;
      UpdateRunPastGate(m, net, toml, server, version, chosen, target, current);
      InstallDownloadsIffOutdated(m1, net, server, current, target);
      var tail := Sent(m1, r);
      assert r.after.requests == m.requests + fetch + tail;
    }
  }

  /** The manifest is consulted only when the version asked for is `release`
      or `snapshot`, and then once. */
  lemma UpdateFetchesManifestOnlyForSymbolicNames(m: Machine, net: Network, toml: TomlCodec, server: string, version: Option<string>, chosen: string)
    requires ChooseVersion(m, toml, server, version) == Ok(chosen)
    ensures var r := UpdateRun(m, net, toml, server, version);
            var fetches := set i | 0 <= i < |Sent(m, r)| && Sent(m, r)[i] == MANIFEST_URL;
            (chosen in {"release", "snapshot"} <==> fetches == {0}) && (chosen !in {"release", "snapshot"} <==> fetches == {})
  {
    var r := UpdateRun(m, net, toml, server, version);
    var s := Sent(m, r);
    UpdateSentShape(m, net, toml, server, version, chosen);
    var resolved := ResolveRun(m, net, chosen).result;
    if resolved.Ok? {
      DownloadUrlIsNotManifest(resolved.value);
    }
    var fetches := set i | 0 <= i < |s| && s[i] == MANIFEST_URL;
    if chosen in {"release", "snapshot"} {
      assert s[0] == MANIFEST_URL;
      assert fetches == {0};
    } else {
      assert fetches == {};
    }
  }

  /** The idempotency gate (line 34): the jar is downloaded, and its URL
      requested, exactly when the installed version differs from the
      resolved one; when they are equal the jar is not touched. */
  lemma UpdateDownloadsIffOutdated(
    m: Machine, net: Network, toml: TomlCodec, server: string, version: Option<string>,
    chosen: string, target: string, current: string)
    requires ChooseVersion(m, toml, server, version) == Ok(chosen)
    requires ResolveRun(m, net, chosen).result == Ok(target)
    requires Installed(m, server) == Ok(current)
    ensures var r := UpdateRun(m, net, toml, server, version);
            (DownloadUrl(target) in Sent(m, r) <==> current != target)
            && (current == target ==> SameFile(m, r.after, JarPath(server)))
  {
    var m1 := ResolveRun(m, net, chosen).after;
    var r := UpdateRun(m, net, toml, server, version);
    UpdateRunPastGate(m, net, toml, server, version, chosen, target, current);
    InstallDownloadsIffOutdated(m1, net, server, current, target);
    DownloadUrlIsNotManifest(target);
    var fetch := if chosen == "release" || chosen == "snapshot" then [MANIFEST_URL] else [];
    assert m1.requests == m.requests + fetch && m1.files == m.files;
    if current != target {
      assert Sent(m, r) == fetch + [DownloadUrl(target)];
      assert Sent(m, r)[|fetch|] == DownloadUrl(target);
    } else {
      assert Sent(m, r) == fetch;
    }
  }

  /** On success the marker holds exactly the resolved version, whether or
      not a download took place. */
  lemma UpdateRecordsResolvedVersion(
    m: Machine, net: Network, toml: TomlCodec, server: string, version: Option<string>,
    chosen: string, target: string)
    requires ChooseVersion(m, toml, server, version) == Ok(chosen)
    requires ResolveRun(m, net, chosen).result == Ok(target)
    requires UpdateRun(m, net, toml, server, version).result.Ok?
    ensures ReadToString(UpdateRun(m, net, toml, server, version).after, MarkerPath(server)) == Ok(target)
  {
  }

  /** The marker is written only after a download has fully succeeded: a
      download that fails leaves the marker as it was (and a body cut short
      leaves a partial jar behind it). */
  lemma UpdateKeepsMarkerWhenDownloadFails(
    m: Machine, net: Network, toml: TomlCodec, server: string, version: Option<string>,
    chosen: string, target: string, current: string)
    requires ChooseVersion(m, toml, server, version) == Ok(chosen)
    requires ResolveRun(m, net, chosen).result == Ok(target)
    requires Installed(m, server) == Ok(current)
    requires current != target
    requires DownloadRun(m, net, JarPath(server), target).result.Err?
    ensures var r := UpdateRun(m, net, toml, server, version);
            r.result.Err? && SameFile(m, r.after, MarkerPath(server))
    ensures var r := UpdateRun(m, net, toml, server, version);
            DownloadRun(m, net, JarPath(server), target).result.error == Http(DownloadUrl(target))
            && CreateFile(m, JarPath(server)).result.Ok? && DownloadUrl(target) in net.responses
            ==> JarPath(server) in r.after.files && r.after.files[JarPath(server)] == Partial
  {
    var m1 := ResolveRun(m, net, chosen).after;
    UpdateRunPastGate(m, net, toml, server, version, chosen, target, current);
    LayoutDistinct(server);
    var d := DownloadRun(m1, net, JarPath(server), target);
    assert m1.files == m.files && m1.dirs == m.dirs && m1.locked == m.locked;
    assert d.result == DownloadRun(m, net, JarPath(server), target).result;
    assert UpdateRun(m, net, toml, server, version) == Run(d.after, Err(d.result.error));
  }

  /** Once the comparison is reached, an update is the download (when the
      versions differ) followed by the marker write. */
  lemma UpdateRunPastGate(
    m: Machine, net: Network, toml: TomlCodec, server: string, version: Option<string>,
    chosen: string, target: string, current: string)
    requires ChooseVersion(m, toml, server, version) == Ok(chosen)
    requires ResolveRun(m, net, chosen).result == Ok(target)
    requires Installed(m, server) == Ok(current)
    ensures UpdateRun(m, net, toml, server, version) == InstallRun(ResolveRun(m, net, chosen).after, net, server, current, target)
  {
    var m1 := ResolveRun(m, net, chosen).after;
    assert Installed(m1, server) == Installed(m, server);
  }

  /** What a successful update tells about the machine it started from:
      every step before the comparison succeeded, and the marker could be
      written. */
  lemma UpdateSucceeded(m: Machine, net: Network, toml: TomlCodec, server: string, version: Option<string>)
    requires UpdateRun(m, net, toml, server, version).result.Ok?
    ensures ChooseVersion(m, toml, server, version).Ok?
    ensures ResolveRun(m, net, ChooseVersion(m, toml, server, version).value).result.Ok?
    ensures Installed(m, server).Ok?
    ensures MarkerPath(server) !in m.dirs && MarkerPath(server) !in m.locked && m.ParentExists(MarkerPath(server))
  {
    var choice := ChooseVersion(m, toml, server, version);
    if choice.Ok? {
      var resolved := ResolveRun(m, net, choice.value);
      if resolved.result.Ok? {
        assert Installed(resolved.after, server) == Installed(m, server);
        if Installed(m, server).Ok? {
          UpdateRunPastGate(m, net, toml, server, version, choice.value, resolved.result.value, Installed(m, server).value);
        }
      }
    }
  }

  /** An update whose target is already recorded in the marker changes no
      file or directory and sends no request but manifest fetches. */
  lemma UpdateWhenSynced(
    m: Machine, net: Network, toml: TomlCodec, server: string, version: Option<string>,
    chosen: string, target: string)
    requires m.Consistent()
    requires ChooseVersion(m, toml, server, version) == Ok(chosen)
    requires ResolveRun(m, net, chosen).result == Ok(target)
    requires MarkerPath(server) in m.files && m.files[MarkerPath(server)] == Text(target)
    requires MarkerPath(server) !in m.locked && m.ParentExists(MarkerPath(server))
    ensures var again := UpdateRun(m, net, toml, server, version);
            && again.result.Ok?
            && again.after.files == m.files
            && again.after.dirs == m.dirs
            && forall i :: 0 <= i < |Sent(m, again)| ==> Sent(m, again)[i] == MANIFEST_URL
  {
    var marker := MarkerPath(server);
    var mid := ResolveRun(m, net, chosen).after;
    UpdateRunPastGate(m, net, toml, server, version, chosen, target, target);
    var again := UpdateRun(m, net, toml, server, version);
    assert again == WriteRun(mid, marker, target);
    assert mid.requests == m.requests || mid.requests == m.requests + [MANIFEST_URL];
    assert again.after.files == m.files[marker := Text(target)];
    assert m.files[marker := Text(target)] == m.files;
    assert Sent(m, again) == [] || Sent(m, again) == [MANIFEST_URL];
  }

  /** Idempotence: right after a successful update, the same update succeeds
      again without downloading anything and without changing any file or
      directory; the only requests it sends are manifest fetches. */
  lemma UpdateIsIdempotent(m: Machine, net: Network, toml: TomlCodec, server: string, version: Option<string>)
    requires m.Consistent()
    requires UpdateRun(m, net, toml, server, version).result.Ok?
    ensures var m1 := UpdateRun(m, net, toml, server, version).after;
            var again := UpdateRun(m1, net, toml, server, version);
            && again.result.Ok?
            && again.after.files == m1.files
            && again.after.dirs == m1.dirs
            && forall i :: 0 <= i < |Sent(m1, again)| ==> Sent(m1, again)[i] == MANIFEST_URL
  {
    var m1 := UpdateRun(m, net, toml, server, version).after;
    LayoutDistinct(server);
    UpdateSucceeded(m, net, toml, server, version);
    var chosen := ChooseVersion(m, toml, server, version).value;
    LoadConfigReadsOneFile(m, m1, toml, server);
    var target := ResolveRun(m, net, chosen).result.value;
    UpdateRecordsResolvedVersion(m, net, toml, server, version, chosen, target);
    UpdateWhenSynced(m1, net, toml, server, version, chosen, target);
  }

  /** The jar matches the marker: if the marker names a version, the jar
      holds the body served for that version's URL. */
  ghost predicate JarMatchesMarker(m: Machine, net: Network, server: string) {
    MarkerPath(server) in m.files && m.files[MarkerPath(server)].Text? ==>
      var installed := m.files[MarkerPath(server)].text;
      && DownloadUrl(installed) in net.responses
      && JarPath(server) in m.files
      && m.files[JarPath(server)] == net.responses[DownloadUrl(installed)].body
  }

  /** A successful update keeps the jar matching the marker, unless the
      version it resolves to is the very name `none` that stands for "not
      installed" and no marker exists yet. */
  lemma UpdatePreservesJarMatchesMarker(
    m: Machine, net: Network, toml: TomlCodec, server: string, version: Option<string>,
    chosen: string, target: string)
    requires JarMatchesMarker(m, net, server)
    requires ChooseVersion(m, toml, server, version) == Ok(chosen)
    requires ResolveRun(m, net, chosen).result == Ok(target)
    requires m.Exists(MarkerPath(server)) || target != NOT_INSTALLED
    requires UpdateRun(m, net, toml, server, version).result.Ok?
    ensures JarMatchesMarker(UpdateRun(m, net, toml, server, version).after, net, server)
  {
    LayoutDistinct(server);
    var m1 := ResolveRun(m, net, chosen).after;
    assert Installed(m1, server) == Installed(m, server);
    var r := UpdateRun(m, net, toml, server, version);
    var current := Installed(m, server).value;
    if current != target {
      var m2 := DownloadRun(m1, net, JarPath(server), target).after;
      assert m2.files[JarPath(server)] == net.responses[DownloadUrl(target)].body;
      assert r.after.files[JarPath(server)] == m2.files[JarPath(server)];
    } else {
      assert MarkerPath(server) in m.files;
      assert r.after.files[JarPath(server)] == m.files[JarPath(server)];
    }
  }

  /** The name `none` collides with the "not installed" reading of a missing
      marker: asking for version `none` on a server without a marker sends
      no request at all and, on success, records `none` as installed. */
  lemma NoneIsNeverDownloaded(m: Machine, net: Network, toml: TomlCodec, server: string)
    requires !m.Exists(MarkerPath(server))
    ensures var r := UpdateRun(m, net, toml, server, Some(NOT_INSTALLED));
            && r.after.requests == m.requests
            && (r.result.Ok? ==> ReadToString(r.after, MarkerPath(server)) == Ok(NOT_INSTALLED))
  {
  }

  method Update(h: Host, net: Network, toml: TomlCodec, server: string, version: Option<string>) returns (r: Result<()>)
    requires h.Valid()
    modifies h
    ensures h.Valid()
    ensures h.State() == UpdateRun(old(h.State()), net, toml, server, version).after
    ensures r == UpdateRun(old(h.State()), net, toml, server, version).result
  {
    var chosen: string;
    match version {
      case Some(v) =>
        chosen := v;
      case None =>
        var config :- GetConfig(h, toml, server);
        chosen := config.version;
    }
    var target :- Resolve(h, net, chosen);

    var markerPath := Join(Join(server, MANAGER_DIR_NAME), MARKER_FILE_NAME);
    var current: string;
    if h.Exists(markerPath) {
      current :- ReadFile(h, markerPath);
    } else {
      current := NOT_INSTALLED;
    }

    r := Install(h, net, server, current, target);
  }

  /** Lines 21-25 of `update`. */
  method Resolve(h: Host, net: Network, version: string) returns (r: Result<string>)
    requires h.Valid()
    modifies h
    ensures h.Valid()
    ensures h.State() == ResolveRun(old(h.State()), net, version).after
    ensures r == ResolveRun(old(h.State()), net, version).result
  {
    if version == "release" {
      var manifest :- VersionManifest(h, net);
      r := Ok(manifest.latest.release);
    } else if version == "snapshot" {
      var manifest :- VersionManifest(h, net);
      r := Ok(manifest.latest.snapshot);
    } else {
      r := Ok(version);
    }
  }

  /** Lines 34-41 of `update`. */
  method Install(h: Host, net: Network, server: string, current: string, target: string) returns (r: Result<()>)
    requires h.Valid()
    modifies h
    ensures h.Valid()
    ensures h.State() == InstallRun(old(h.State()), net, server, current, target).after
    ensures r == InstallRun(old(h.State()), net, server, current, target).result
  {
    if current != target {
      var _ :- DownloadServer(h, net, Join(server, JAR_FILE_NAME), target);
    }
    r := WriteFile(h, Join(Join(server, MANAGER_DIR_NAME), MARKER_FILE_NAME), target);
  }
}
