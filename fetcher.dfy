/** `OciFetcher::fetch_path` and its two facades. `FetchPathSpec` states the
    whole decision sequence as a function of the policy, the environment, the
    reference and the filesystem; `FetchPath` runs the same steps in order on
    a `FileSystem` and is proved to agree with it. The lemmas state what the
    sequence guarantees. */
module Fetcher {

  import opened Wrappers
  import opened Utf8
  import opened Text
  import opened OciPaths
  import opened OciTypes
  import opened Transport
  import opened CacheStore

  /** The latest-tag rule, applied to the lowercased reference. */
  predicate RejectsLatest(f: OciFetcher, normalized: string) {
    !f.allowLatest && EndsWith(normalized, LatestTag)
  }

  /** `media_type.unwrap_or_default()`. */
  function ManifestMediaType(m: Manifest): string {
    match m.mediaType
    case None => ""
    case Some(t) => t
  }

  /** The artifact-shape rule: a manifest of the wasm type with more than one layer. */
  predicate IsInvalidArtifact(image: ImageData) {
    image.manifest.Some? && ManifestMediaType(image.manifest.value) == WasmManifestMediaType && |image.layers| > 1
  }

  /** `fetch_path`: normalize, apply the latest-tag rule, derive the two cache
      paths, parse, build the client configuration, then consult the registry. */
  function FetchPathSpec(f: OciFetcher, env: Environment, outputDir: string, img: string,
                         acceptedMediaTypes: seq<string>, cache: CacheUpdate,
                         files: map<string, seq<byte>>, readOnly: set<string>, unreadable: set<string>): Fetched<string>
  {
    var normalized := AsciiLowercase(img);
    if RejectsLatest(f, normalized) then Fetched(Failure(PolicyViolation), files, [])
    else
      var cacheFile := CacheFilePath(outputDir, normalized);
      var digestFile := DigestFilePath(outputDir, normalized);
      match env.parseReference(normalized)
      case None => Fetched(Failure(ParseError), files, [])
      case Some(reference) =>
        match ClientConfigFor(f, env, reference)
        case Failure(e) => Fetched(Failure(e), files, [])
        case Success(config) =>
          FetchWithClient(f.auth, env.registry, config, reference, cacheFile, digestFile,
                          acceptedMediaTypes, cache, files, readOnly, unreadable)
  }

  /** The registry part: a manifest-only request when the cache file exists,
      returning the cached path on a hit; otherwise a full pull. */
  function FetchWithClient(auth: RegistryAuth, registry: Registry, config: ClientConfig, reference: Reference,
                           cacheFile: string, digestFile: string, acceptedMediaTypes: seq<string>,
                           cache: CacheUpdate, files: map<string, seq<byte>>, readOnly: set<string>, unreadable: set<string>): Fetched<string>
  {
    if cacheFile in files then
      var manifestCall := PullManifest(config, reference, auth);
      match registry.pullManifest(config, reference, auth)
      case None => Fetched(Failure(ManifestError), files, [manifestCall])
      case Some(remote) =>
        if IsCacheHit(remote, StoredDigest(files, unreadable, digestFile)) then Fetched(Success(cacheFile), files, [manifestCall])
        else PullAndCache(auth, registry, config, reference, cacheFile, digestFile, acceptedMediaTypes,
                          cache, files, readOnly, [manifestCall])
    else
      PullAndCache(auth, registry, config, reference, cacheFile, digestFile, acceptedMediaTypes,
                   cache, files, readOnly, [])
  }

  /** The full pull, the artifact-shape rule and the optional cache write. */
  function PullAndCache(auth: RegistryAuth, registry: Registry, config: ClientConfig, reference: Reference,
                        cacheFile: string, digestFile: string, acceptedMediaTypes: seq<string>,
                        cache: CacheUpdate, files: map<string, seq<byte>>, readOnly: set<string>,
                        calls: seq<RegistryCall>): Fetched<string>
  {
    var trace := calls + [Pull(config, reference, auth, acceptedMediaTypes)];
    match registry.pull(config, reference, auth, acceptedMediaTypes)
    case None => Fetched(Failure(PullError), files, trace)
    case Some(image) =>
      if IsInvalidArtifact(image) then Fetched(Failure(InvalidArtifact(|image.layers|)), files, trace)
      else if cache == Ignore then Fetched(Success(cacheFile), files, trace)
      else
        var w := CacheImage(files, readOnly, image, cacheFile, digestFile);
        Fetched(if w.ok then Success(cacheFile) else Failure(IoError), w.files, trace)
  }

  /** `fetch_path` on a filesystem: the same steps, with early returns, a
      digest path that is derived and then given its extension, a trust-root
      list extended in place, and the registry requests recorded in `calls`. */
  method FetchPath(f: OciFetcher, env: Environment, fs: FileSystem, outputDir: string, img: string,
                   acceptedMediaTypes: seq<string>, cache: CacheUpdate)
    returns (r: Outcome<string>, calls: seq<RegistryCall>)
    modifies fs
    ensures Fetched(r, fs.files, calls) ==
            FetchPathSpec(f, env, outputDir, img, acceptedMediaTypes, cache, old(fs.files), fs.readOnly, fs.unreadable)
  {
    calls := [];
    var normalized := AsciiLowercase(img);
    if !f.allowLatest && EndsWith(normalized, LatestTag) {
      return Failure(PolicyViolation), calls;
    }
    var pruned := PruneFilepath(normalized);
    var cacheFile := Join(outputDir, pruned);
    var digestFile := Join(outputDir, pruned);
    digestFile := SetExtension(digestFile, DigestExtension);

    var parsed := env.parseReference(normalized);
    if parsed.None? {
      return Failure(ParseError), calls;
    }
    var reference := parsed.value;

    var protocol := if f.allowInsecure then HttpsExcept([reference.registry]) else Https;
    var certs := LoadTrustRoots(f, env);
    if certs.Failure? {
      return Failure(certs.error), calls;
    }
    var config := ClientConfig(protocol, certs.value);
    assert ClientConfigFor(f, env, reference) == Success(config);
    assert cacheFile == CacheFilePath(outputDir, normalized);
    assert digestFile == DigestFilePath(outputDir, normalized);

    r, calls := FetchFromRegistry(f.auth, env.registry, config, reference, fs, cacheFile, digestFile,
                                  acceptedMediaTypes, cache);
  }

  /** The registry part of `fetch_path`, from the cache-hit check on. */
  method FetchFromRegistry(auth: RegistryAuth, registry: Registry, config: ClientConfig, reference: Reference,
                           fs: FileSystem, cacheFile: string, digestFile: string,
                           acceptedMediaTypes: seq<string>, cache: CacheUpdate)
    returns (r: Outcome<string>, calls: seq<RegistryCall>)
    modifies fs
    ensures Fetched(r, fs.files, calls) ==
            FetchWithClient(auth, registry, config, reference, cacheFile, digestFile,
                            acceptedMediaTypes, cache, old(fs.files), fs.readOnly, fs.unreadable)
  {
    calls := [];
    if fs.Exists(cacheFile) {
      var remote := registry.pullManifest(config, reference, auth);
      calls := calls + [PullManifest(config, reference, auth)];
      if remote.None? {
        return Failure(ManifestError), calls;
      }
      var fileDigest := fs.ReadToStringOrEmpty(digestFile);
      if remote.value != "" && fileDigest != "" && fileDigest == remote.value {
        return Success(cacheFile), calls;
      }
    }

    var pulled := registry.pull(config, reference, auth, acceptedMediaTypes);
    calls := calls + [Pull(config, reference, auth, acceptedMediaTypes)];
    if pulled.None? {
      return Failure(PullError), calls;
    }
    var image := pulled.value;
    if IsInvalidArtifact(image) {
      return Failure(InvalidArtifact(|image.layers|)), calls;
    }
    if cache == Update {
      var ok := CacheOciImage(fs, image, cacheFile, digestFile);
      if !ok {
        return Failure(IoError), calls;
      }
    }
    return Success(cacheFile), calls;
  }

  /** `fetch_component`: `fetch_path` with the component media types and a
      cache update, then the cached file read back. */
  function FetchComponentSpec(f: OciFetcher, env: Environment, cacheDir: string, ociRef: string,
                              files: map<string, seq<byte>>, readOnly: set<string>, unreadable: set<string>): Fetched<seq<byte>>
  {
    var o := FetchPathSpec(f, env, cacheDir, ociRef, ComponentMediaTypes, Update, files, readOnly, unreadable);
    match o.result
    case Failure(e) => Fetched(Failure(e), o.files, o.calls)
    case Success(path) =>
      Fetched(if path in o.files && path !in unreadable then Success(o.files[path]) else Failure(IoError), o.files, o.calls)
  }

  method FetchComponent(f: OciFetcher, env: Environment, fs: FileSystem, cacheDir: string, ociRef: string)
    returns (r: Outcome<seq<byte>>, calls: seq<RegistryCall>)
    modifies fs
    ensures Fetched(r, fs.files, calls) == FetchComponentSpec(f, env, cacheDir, ociRef, old(fs.files), fs.readOnly, fs.unreadable)
  {
    var path;
    path, calls := FetchPath(f, env, fs, cacheDir, ociRef, ComponentMediaTypes, Update);
    if path.Failure? {
      return Failure(path.error), calls;
    }
    var bytes := fs.Read(path.value);
    if bytes.None? {
      return Failure(IoError), calls;
    }
    return Success(bytes.value), calls;
  }

  /** `fetch_provider` up to the hand-off of the resolved path to the
      provider-archive reader: `fetch_path` with the provider media types and
      a cache update. */
  function FetchProviderSpec(f: OciFetcher, env: Environment, cacheDir: string, ociRef: string,
                             files: map<string, seq<byte>>, readOnly: set<string>, unreadable: set<string>): Fetched<string>
  {
    FetchPathSpec(f, env, cacheDir, ociRef, ProviderMediaTypes, Update, files, readOnly, unreadable)
  }

  method FetchProvider(f: OciFetcher, env: Environment, fs: FileSystem, cacheDir: string, ociRef: string)
    returns (r: Outcome<string>, calls: seq<RegistryCall>)
    modifies fs
    ensures Fetched(r, fs.files, calls) == FetchProviderSpec(f, env, cacheDir, ociRef, old(fs.files), fs.readOnly, fs.unreadable)
  {
    r, calls := FetchPath(f, env, fs, cacheDir, ociRef, ProviderMediaTypes, Update);
  }
}
