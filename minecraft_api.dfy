/** `minecraft_api.rs`: the version manifest and the server-jar download,
    against a network given as an oracle. */
module MinecraftApi {
  import opened Os
  import opened System

  /** The only parts of the manifest JSON the manager decodes. */
  datatype Latest = Latest(snapshot: string, release: string)

  datatype Manifest = Manifest(latest: Latest)

  /** What a server sends back for a download URL: its `Content-Length`
      header, the body, and whether the body arrived whole. The HTTP status
      is not here because the manager never looks at it. */
  datatype Response = Response(contentLength: Option<nat>, body: Content, complete: bool)

  /** The network as the manager sees it: the manifest as it decodes (`None`
      when the request or the JSON decoding fails) and the answer to each
      download URL (a URL with no answer here fails to connect). */
  datatype Network = Network(manifest: Option<Manifest>, responses: map<string, Response>)

  const MANIFEST_URL := "https://launchermeta.mojang.com/mc/game/version_manifest.json"

  const DOWNLOAD_ROOT := "https://s3.amazonaws.com/Minecraft.Download/versions/"

  const JAR_STEM := "/minecraft_server."

  const JAR_EXTENSION := ".jar"

  const NO_CONTENT_LENGTH := "No content length provided"

  /** Where the jar of `version` is downloaded from: the version names both
      the directory and the file. */
  function DownloadUrl(version: string): string {
    DOWNLOAD_ROOT + version + JAR_STEM + version + JAR_EXTENSION
  }

  /** A download URL lies under the download root, names the version as its
      directory, and ends in the jar file of that version. */
  lemma DownloadUrlShape(version: string)
    ensures var r := DownloadUrl(version);
            && |r| == |DOWNLOAD_ROOT| + |JAR_STEM| + |JAR_EXTENSION| + 2 * |version|
            && r[..|DOWNLOAD_ROOT|] == DOWNLOAD_ROOT
            && r[|DOWNLOAD_ROOT|..|DOWNLOAD_ROOT| + |version|] == version
            && r[|r| - |version| - |JAR_EXTENSION|..] == version + JAR_EXTENSION
  {
  }

  /** The version a download URL is for, if the URL has the template's
      shape: the inverse of `DownloadUrl`. */
  function VersionOfUrl(url: string): (r: Option<string>)
    ensures r.Some? ==> DownloadUrl(r.value) == url
  {
    var fixed := |DOWNLOAD_ROOT| + |JAR_STEM| + |JAR_EXTENSION|;
    if |url| < fixed || (|url| - fixed) % 2 != 0 then None
    else
      var v := url[|DOWNLOAD_ROOT|..|DOWNLOAD_ROOT| + (|url| - fixed) / 2];
      if DownloadUrl(v) == url then Some(v) else None
  }

  /** Every version can be read back from its download URL. */
  lemma VersionOfDownloadUrl(version: string)
    ensures VersionOfUrl(DownloadUrl(version)) == Some(version)
  {
    var url := DownloadUrl(version);
    var fixed := |DOWNLOAD_ROOT| + |JAR_STEM| + |JAR_EXTENSION|;
    assert |url| == fixed + 2 * |version|;
    assert url[|DOWNLOAD_ROOT|..|DOWNLOAD_ROOT| + |version|] == version;
  }

  /** Distinct versions are downloaded from distinct URLs. */
  lemma DownloadUrlInjective(v: string, w: string)
    ensures DownloadUrl(v) == DownloadUrl(w) <==> v == w
  {
    VersionOfDownloadUrl(v);
    VersionOfDownloadUrl(w);
  }

  /** No download URL is the manifest URL, so the request log tells
      manifest fetches and downloads apart. */
  lemma DownloadUrlIsNotManifest(version: string)
    ensures DownloadUrl(version) != MANIFEST_URL
  {
    assert |DownloadUrl(version)| >= |DOWNLOAD_ROOT| + |JAR_STEM| > |MANIFEST_URL|;
  }

  /** `version_manifest()`: one request to the manifest URL. */
  function ManifestRun(m: Machine, net: Network): (r: Run<Manifest>)
    ensures r.after == Request(m, MANIFEST_URL)
    ensures r.result.Ok? <==> net.manifest.Some?
    ensures r.result.Ok? ==> r.result.value == net.manifest.value
  {
    var m1 := Request(m, MANIFEST_URL);
    match net.manifest
    case None => Run(m1, Err(Http(MANIFEST_URL)))
    case Some(manifest) => Run(m1, Ok(manifest))
  }

  /** `download_server(path, version)`. One request, to the version's URL.
      A failed request, or a response without `Content-Length` (a panic),
      ends it before the file is created, so an existing jar is untouched.
      Otherwise the file at `path` is created or truncated and receives the
      body; a body cut short leaves a partial file and an error. No other
      file changes in any case. */
  function DownloadRun(m: Machine, net: Network, path: string, version: string): (r: Run<()>)
    ensures r.after.requests == m.requests + [DownloadUrl(version)]
    ensures r.after.dirs == m.dirs && r.after.locked == m.locked
    ensures forall q :: q != path ==> SameFile(m, r.after, q)
    ensures DownloadUrl(version) !in net.responses ==> r.result == Err(Http(DownloadUrl(version))) && r.after.files == m.files
    ensures DownloadUrl(version) in net.responses && net.responses[DownloadUrl(version)].contentLength.None? ==>
              r.result == Err(Abort(NO_CONTENT_LENGTH)) && r.after.files == m.files
    ensures r.result.Ok? <==>
      && DownloadUrl(version) in net.responses
      && net.responses[DownloadUrl(version)].contentLength.Some?
      && net.responses[DownloadUrl(version)].complete
      && CreateFile(m, path).result.Ok?
    ensures r.result.Ok? ==> r.after.files == m.files[path := net.responses[DownloadUrl(version)].body]
    ensures m.Consistent() ==> r.after.Consistent()
  {
    var url := DownloadUrl(version);
    var m1 := Request(m, url);
    if url !in net.responses then Run(m1, Err(Http(url)))
    else
      var response := net.responses[url];
      if response.contentLength.None? then Run(m1, Err(Abort(NO_CONTENT_LENGTH)))
      else
        var (m2, _) :- CreateFile(m1, path);
        if response.complete then Run(Fill(m2, path, response.body), Ok(()))
        else Run(Fill(m2, path, Partial), Err(Http(url)))
  }

  method VersionManifest(h: Host, net: Network) returns (r: Result<Manifest>)
    requires h.Valid()
    modifies h
    ensures h.Valid()
    ensures h.State() == ManifestRun(old(h.State()), net).after
    ensures r == ManifestRun(old(h.State()), net).result
  {
    h.Request(MANIFEST_URL);
    match net.manifest
    case None => r := Err(Http(MANIFEST_URL));
    case Some(manifest) => r := Ok(manifest);
  }

  method DownloadServer(h: Host, net: Network, path: string, version: string) returns (r: Result<()>)
    requires h.Valid()
    modifies h
    ensures h.Valid()
    ensures h.State() == DownloadRun(old(h.State()), net, path, version).after
    ensures r == DownloadRun(old(h.State()), net, path, version).result
  {
    var url := DownloadUrl(version);
    h.Request(url);
    if url !in net.responses {
      return Err(Http(url));
    }
    var response := net.responses[url];
    if response.contentLength.None? {
      return Err(Abort(NO_CONTENT_LENGTH));
    }
    var _ :- h.CreateFile(path);
    if response.complete {
      h.Fill(path, response.body);
      r := Ok(());
    } else {
      h.Fill(path, Partial);
      r := Err(Http(url));
    }
  }
}
