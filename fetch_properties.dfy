/** What the fetch sequence guarantees, stated over `FetchPathSpec` and the
    facades for every policy, environment, reference and filesystem. */
module FetchProperties {

  import opened Wrappers
  import opened Utf8
  import opened Text
  import opened OciPaths
  import opened OciTypes
  import opened Transport
  import opened CacheStore
  import opened Fetcher

  /** The fetch got past the latest-tag rule, parsed the reference and built
      its client configuration. */
  predicate Resolved(f: OciFetcher, env: Environment, img: string, reference: Reference, config: ClientConfig) {
    && !RejectsLatest(f, AsciiLowercase(img))
    && env.parseReference(AsciiLowercase(img)) == Some(reference)
    && ClientConfigFor(f, env, reference) == Success(config)
  }

  /** A resolved fetch is its registry stage, on the two derived cache paths. */
  lemma ResolvedFetch(f: OciFetcher, env: Environment, dir: string, img: string, types: seq<string>,
                      cache: CacheUpdate, files: map<string, seq<byte>>, readOnly: set<string>, unreadable: set<string>,
                      reference: Reference, config: ClientConfig)
    requires Resolved(f, env, img, reference, config)
    ensures FetchPathSpec(f, env, dir, img, types, cache, files, readOnly, unreadable) ==
            FetchWithClient(f.auth, env.registry, config, reference, CacheFilePath(dir, AsciiLowercase(img)),
                            DigestFilePath(dir, AsciiLowercase(img)), types, cache, files, readOnly, unreadable)
  {
  }

  /** The registry stage makes a full pull exactly when the cache file is
      missing, or the manifest-only request succeeded without a hit; once it
      pulls, its result and files are those of the pull-and-cache step. */
  lemma StagePullsIff(auth: RegistryAuth, registry: Registry, config: ClientConfig, reference: Reference,
                      cacheFile: string, digestFile: string, types: seq<string>, cache: CacheUpdate,
                      files: map<string, seq<byte>>, readOnly: set<string>, unreadable: set<string>)
    ensures var o := FetchWithClient(auth, registry, config, reference, cacheFile, digestFile, types, cache, files, readOnly, unreadable);
      var remote := registry.pullManifest(config, reference, auth);
      var p := PullAndCache(auth, registry, config, reference, cacheFile, digestFile, types, cache, files, readOnly, []);
      && (PulledIn(o.calls) <==>
          cacheFile !in files || (remote.Some? && !IsCacheHit(remote.value, StoredDigest(files, unreadable, digestFile))))
      && (PulledIn(o.calls) ==> o.result == p.result && o.files == p.files)
      && (!PulledIn(o.calls) ==>
            && o.files == files && o.calls == [PullManifest(config, reference, auth)]
            && (o.result.Success? <==> remote.Some?)
            && (o.result.Success? ==> o.result.value == cacheFile)
            && (o.result.Failure? ==> o.result.error == ManifestError))
      && (cacheFile !in files ==> forall i :: 0 <= i < |o.calls| ==> o.calls[i].Pull?)
  {
    var o := FetchWithClient(auth, registry, config, reference, cacheFile, digestFile, types, cache, files, readOnly, unreadable);
    var pullCall := Pull(config, reference, auth, types);
    if cacheFile in files {
      var manifestCall := PullManifest(config, reference, auth);
      var remote := registry.pullManifest(config, reference, auth);
      if remote.None? || IsCacheHit(remote.value, StoredDigest(files, unreadable, digestFile)) {
        assert o.calls == [manifestCall];
      } else {
        assert o.calls == [manifestCall, pullCall];
        assert o.calls[1].Pull?;
      }
    } else {
      assert o.calls == [pullCall];
      assert o.calls[0].Pull?;
    }
  }

  /** Every request of the registry stage uses its configuration, reference
      and credentials, and every full pull the caller's media types. */
  lemma StageRequests(auth: RegistryAuth, registry: Registry, config: ClientConfig, reference: Reference,
                      cacheFile: string, digestFile: string, types: seq<string>, cache: CacheUpdate,
                      files: map<string, seq<byte>>, readOnly: set<string>, unreadable: set<string>)
    ensures var o := FetchWithClient(auth, registry, config, reference, cacheFile, digestFile, types, cache, files, readOnly, unreadable);
      forall i :: 0 <= i < |o.calls| ==>
        o.calls[i].config == config && o.calls[i].reference == reference && o.calls[i].auth == auth &&
        (o.calls[i].Pull? ==> o.calls[i].mediaTypes == types)
  {
    var o := FetchWithClient(auth, registry, config, reference, cacheFile, digestFile, types, cache, files, readOnly, unreadable);
    var pre := if cacheFile in files then [PullManifest(config, reference, auth)] else [];
    PullAndCacheCalls(auth, registry, config, reference, cacheFile, digestFile, types, cache, files, readOnly, pre);
  }

  /** The pull-and-cache step adds exactly one full pull to the trace. */
  lemma PullAndCacheCalls(auth: RegistryAuth, registry: Registry, config: ClientConfig, reference: Reference,
                          cacheFile: string, digestFile: string, types: seq<string>, cache: CacheUpdate,
                          files: map<string, seq<byte>>, readOnly: set<string>, calls: seq<RegistryCall>)
    ensures PullAndCache(auth, registry, config, reference, cacheFile, digestFile, types, cache, files, readOnly, calls).calls ==
            calls + [Pull(config, reference, auth, types)]
  {
  }

  /** The registry stage never reports a policy, parse or certificate error,
      and it changes files only through a cache write, never with `Ignore`. */
  lemma StageInvariants(auth: RegistryAuth, registry: Registry, config: ClientConfig, reference: Reference,
                        cacheFile: string, digestFile: string, types: seq<string>, cache: CacheUpdate,
                        files: map<string, seq<byte>>, readOnly: set<string>, unreadable: set<string>)
    ensures var o := FetchWithClient(auth, registry, config, reference, cacheFile, digestFile, types, cache, files, readOnly, unreadable);
      && (o.result.Failure? ==> o.result.error != PolicyViolation && o.result.error != ParseError &&
                                o.result.error != CertError)
      && (o.result.Failure? && o.result.error != IoError ==> o.files == files)
      && (cache == Ignore ==> o.files == files)
  {
  }

  /** The registry stage touches no file but the cache and digest files, and
      a failed cache write leaves every file but the cache file as it was. */
  lemma StageFrame(auth: RegistryAuth, registry: Registry, config: ClientConfig, reference: Reference,
                   cacheFile: string, digestFile: string, types: seq<string>, cache: CacheUpdate,
                   files: map<string, seq<byte>>, readOnly: set<string>, unreadable: set<string>)
    ensures var o := FetchWithClient(auth, registry, config, reference, cacheFile, digestFile, types, cache, files, readOnly, unreadable);
      && UnchangedExcept(files, o.files, {cacheFile, digestFile})
      && (o.result == Failure(IoError) ==> UnchangedExcept(files, o.files, {cacheFile}))
  {
    var calls := if cacheFile in files then [PullManifest(config, reference, auth)] else [];
    PullFrame(auth, registry, config, reference, cacheFile, digestFile, types, cache, files, readOnly, calls);
  }

  /** The pull step likewise touches only the cache and digest files. */
  lemma PullFrame(auth: RegistryAuth, registry: Registry, config: ClientConfig, reference: Reference,
                  cacheFile: string, digestFile: string, types: seq<string>, cache: CacheUpdate,
                  files: map<string, seq<byte>>, readOnly: set<string>, calls: seq<RegistryCall>)
    ensures var p := PullAndCache(auth, registry, config, reference, cacheFile, digestFile, types, cache, files, readOnly, calls);
      && UnchangedExcept(files, p.files, {cacheFile, digestFile})
      && (p.result == Failure(IoError) ==> UnchangedExcept(files, p.files, {cacheFile}))
  {
    match registry.pull(config, reference, auth, types)
    case None =>
    case Some(image) =>
      var w := CacheImage(files, readOnly, image, cacheFile, digestFile);
      assert UnchangedExcept(files, w.files, {cacheFile, digestFile});
      assert !w.ok ==> UnchangedExcept(files, w.files, {cacheFile});
  }

  /** The pull-and-cache step for a pulled image: the shape rule refuses
      exactly the invalid artifacts and writes nothing for them; a valid one
      is returned as is with `Ignore` and written with `Update`. */
  lemma PullStageOutcome(auth: RegistryAuth, registry: Registry, config: ClientConfig, reference: Reference,
                         cacheFile: string, digestFile: string, types: seq<string>, cache: CacheUpdate,
                         files: map<string, seq<byte>>, readOnly: set<string>, image: ImageData)
    requires registry.pull(config, reference, auth, types) == Some(image)
    ensures var p := PullAndCache(auth, registry, config, reference, cacheFile, digestFile, types, cache, files, readOnly, []);
      && (p.result.Failure? && p.result.error.InvalidArtifact? <==> IsInvalidArtifact(image))
      && (IsInvalidArtifact(image) ==> p.result == Failure(InvalidArtifact(|image.layers|)) && p.files == files)
      && (!IsInvalidArtifact(image) && cache == Ignore ==> p.result == Success(cacheFile) && p.files == files)
      && (!IsInvalidArtifact(image) && cache == Update ==>
            var w := CacheImage(files, readOnly, image, cacheFile, digestFile);
            p.result == (if w.ok then Success(cacheFile) else Failure(IoError)) && p.files == w.files)
  {
  }

  /** With `Update`, a successful registry stage returns the cache path and
      leaves the cache file present: found on a hit, written after a pull. */
  lemma StageSuccessLeavesCacheFile(auth: RegistryAuth, registry: Registry, config: ClientConfig,
                                    reference: Reference, cacheFile: string, digestFile: string, types: seq<string>,
                                    files: map<string, seq<byte>>, readOnly: set<string>, unreadable: set<string>)
    ensures var o := FetchWithClient(auth, registry, config, reference, cacheFile, digestFile, types, Update,
                                     files, readOnly, unreadable);
      o.result.Success? ==> o.result.value == cacheFile && cacheFile in o.files
  {
    var o := FetchWithClient(auth, registry, config, reference, cacheFile, digestFile, types, Update,
                             files, readOnly, unreadable);
    StagePullsIff(auth, registry, config, reference, cacheFile, digestFile, types, Update, files, readOnly, unreadable);
    if o.result.Success? && PulledIn(o.calls) {
      assert registry.pull(config, reference, auth, types).Some?;
      var image := registry.pull(config, reference, auth, types).value;
      PullStageOutcome(auth, registry, config, reference, cacheFile, digestFile, types, Update, files, readOnly, image);
    }
  }

  /** After a successful registry stage with `Update`, for a pulled image
      whose digest the registry reports, the cache file is present and a
      readable digest file holds that digest: found so on a hit, written so
      after a pull. */
  lemma StageSuccessStoresDigest(auth: RegistryAuth, registry: Registry, config: ClientConfig,
                                 reference: Reference, cacheFile: string, digestFile: string, types: seq<string>,
                                 files: map<string, seq<byte>>, readOnly: set<string>, unreadable: set<string>,
                                 image: ImageData, digest: string)
    requires registry.pull(config, reference, auth, types) == Some(image)
    requires image.digest == Some(digest) && digest != ""
    requires registry.pullManifest(config, reference, auth) == Some(digest)
    requires digestFile !in unreadable
    requires FetchWithClient(auth, registry, config, reference, cacheFile, digestFile, types, Update,
                             files, readOnly, unreadable).result.Success?
    ensures var o := FetchWithClient(auth, registry, config, reference, cacheFile, digestFile, types, Update,
                                     files, readOnly, unreadable);
      cacheFile in o.files && StoredDigest(o.files, unreadable, digestFile) == digest
  {
    var o := FetchWithClient(auth, registry, config, reference, cacheFile, digestFile, types, Update,
                             files, readOnly, unreadable);
    StagePullsIff(auth, registry, config, reference, cacheFile, digestFile, types, Update, files, readOnly, unreadable);
    if PulledIn(o.calls) {
      PullStageOutcome(auth, registry, config, reference, cacheFile, digestFile, types, Update, files, readOnly, image);
      var w := CacheImage(files, readOnly, image, cacheFile, digestFile);
      assert w.ok && o.files == w.files;
      DecodeEncode(digest);
      assert w.files[digestFile] == Encode(digest);
    }
  }

  /** The registry stage repeated on the files a successful `Update` left
      behind is a cache hit, as long as the registry reports the pulled
      image's non-empty digest and the digest file is readable. */
  lemma StageSecondHit(auth: RegistryAuth, registry: Registry, config: ClientConfig,
                       reference: Reference, cacheFile: string, digestFile: string, types: seq<string>,
                       files: map<string, seq<byte>>, readOnly: set<string>, unreadable: set<string>,
                       image: ImageData, digest: string)
    requires registry.pull(config, reference, auth, types) == Some(image)
    requires image.digest == Some(digest) && digest != ""
    requires registry.pullManifest(config, reference, auth) == Some(digest)
    requires digestFile !in unreadable
    requires FetchWithClient(auth, registry, config, reference, cacheFile, digestFile, types, Update,
                             files, readOnly, unreadable).result.Success?
    ensures var first := FetchWithClient(auth, registry, config, reference, cacheFile, digestFile, types, Update,
                                         files, readOnly, unreadable);
      var second := FetchWithClient(auth, registry, config, reference, cacheFile, digestFile, types, Update,
                                    first.files, readOnly, unreadable);
      && second.result == first.result
      && second.files == first.files
      && second.calls == [PullManifest(config, reference, auth)]
      && !PulledIn(second.calls)
  {
    var first := FetchWithClient(auth, registry, config, reference, cacheFile, digestFile, types, Update,
                                 files, readOnly, unreadable);
    StageSuccessStoresDigest(auth, registry, config, reference, cacheFile, digestFile, types,
                             files, readOnly, unreadable, image, digest);
    StageSuccessLeavesCacheFile(auth, registry, config, reference, cacheFile, digestFile, types,
                                files, readOnly, unreadable);
    StagePullsIff(auth, registry, config, reference, cacheFile, digestFile, types, Update,
                  first.files, readOnly, unreadable);
  }

  /** Every fetch either stops before the registry (policy, parse or
      certificate error, no request, no file changed) or is resolved and
      continues with its registry stage. */
  lemma EarlyExitOrResolved(f: OciFetcher, env: Environment, dir: string, img: string, types: seq<string>,
                            cache: CacheUpdate, files: map<string, seq<byte>>, readOnly: set<string>, unreadable: set<string>)
    ensures var o := FetchPathSpec(f, env, dir, img, types, cache, files, readOnly, unreadable);
      var n := AsciiLowercase(img);
      || (o.calls == [] && o.files == files && o.result.Failure? &&
          (o.result.error == PolicyViolation || o.result.error == ParseError || o.result.error == CertError))
      || (&& env.parseReference(n).Some?
          && ClientConfigFor(f, env, env.parseReference(n).value).Success?
          && Resolved(f, env, img, env.parseReference(n).value, ClientConfigFor(f, env, env.parseReference(n).value).value))
  {
    var n := AsciiLowercase(img);
    if !RejectsLatest(f, n) && env.parseReference(n).Some? {
      var reference := env.parseReference(n).value;
      if ClientConfigFor(f, env, reference).Failure? {
        assert TrustRoots(f, env).Failure?;
      }
    }
  }

  /** A reference tagged `latest` is refused under a policy that forbids it,
      before any parse, any registry request or any file access. */
  lemma LatestRejectedFirst(f: OciFetcher, env: Environment, dir: string, img: string, types: seq<string>,
                            cache: CacheUpdate, files: map<string, seq<byte>>, readOnly: set<string>, unreadable: set<string>)
    requires !f.allowLatest && EndsWith(AsciiLowercase(img), LatestTag)
    ensures FetchPathSpec(f, env, dir, img, types, cache, files, readOnly, unreadable) == Fetched(Failure(PolicyViolation), files, [])
  {
  }

  /** `:LATEST` lowercases to the latest tag. */
  lemma UpperLatestLowercases()
    ensures AsciiLowercase(":LATEST") == LatestTag
  {
    var low := AsciiLowercase(":LATEST");
    assert low[0] == ':' && low[1] == 'l' && low[2] == 'a' && low[3] == 't';
    assert low[4] == 'e' && low[5] == 's' && low[6] == 't';
  }

  /** `:LATEST` in any case is the latest tag: it is refused too. */
  lemma UppercaseLatestRejected(f: OciFetcher, env: Environment, dir: string, prefix: string, types: seq<string>,
                                cache: CacheUpdate, files: map<string, seq<byte>>, readOnly: set<string>, unreadable: set<string>)
    requires !f.allowLatest
    ensures FetchPathSpec(f, env, dir, prefix + ":LATEST", types, cache, files, readOnly, unreadable) ==
            Fetched(Failure(PolicyViolation), files, [])
  {
    var upper := ":LATEST";
    LowercaseAppend(prefix, upper);
    UpperLatestLowercases();
    var whole := AsciiLowercase(prefix + upper);
    assert whole[|whole| - |LatestTag|..] == AsciiLowercase(upper);
    LatestRejectedFirst(f, env, dir, prefix + upper, types, cache, files, readOnly, unreadable);
  }

  /** The policy violation happens exactly when the policy forbids the latest
      tag and the lowercased reference ends with it. */
  lemma PolicyViolationIff(f: OciFetcher, env: Environment, dir: string, img: string, types: seq<string>,
                           cache: CacheUpdate, files: map<string, seq<byte>>, readOnly: set<string>, unreadable: set<string>)
    ensures FetchPathSpec(f, env, dir, img, types, cache, files, readOnly, unreadable).result == Failure(PolicyViolation) <==>
            !f.allowLatest && EndsWith(AsciiLowercase(img), LatestTag)
  {
    EarlyExitOrResolved(f, env, dir, img, types, cache, files, readOnly, unreadable);
    var n := AsciiLowercase(img);
    if !RejectsLatest(f, n) && env.parseReference(n).Some? {
      var reference := env.parseReference(n).value;
      if ClientConfigFor(f, env, reference).Success? {
        var config := ClientConfigFor(f, env, reference).value;
        ResolvedFetch(f, env, dir, img, types, cache, files, readOnly, unreadable, reference, config);
        StageInvariants(f.auth, env.registry, config, reference, CacheFilePath(dir, n), DigestFilePath(dir, n),
                        types, cache, files, readOnly, unreadable);
      }
    }
  }

  /** For a reference that is not tagged `latest`, the latest-tag policy makes no difference at all. */
  lemma LatestPolicyIrrelevantOtherwise(f: OciFetcher, env: Environment, dir: string, img: string, types: seq<string>,
                                        cache: CacheUpdate, files: map<string, seq<byte>>, readOnly: set<string>, unreadable: set<string>)
    requires !EndsWith(AsciiLowercase(img), LatestTag)
    ensures FetchPathSpec(f.(allowLatest := true), env, dir, img, types, cache, files, readOnly, unreadable) ==
            FetchPathSpec(f.(allowLatest := false), env, dir, img, types, cache, files, readOnly, unreadable)
  {
    var n := AsciiLowercase(img);
    if env.parseReference(n).Some? {
      var reference := env.parseReference(n).value;
      assert ClientConfigFor(f.(allowLatest := true), env, reference) ==
             ClientConfigFor(f.(allowLatest := false), env, reference);
    }
  }

  /** The default fetcher refuses every reference tagged `latest`, in any case,
      trusts the native roots only, and never allows plain HTTP to any host. */
  lemma DefaultFetcherIsRestrictive(env: Environment, dir: string, img: string, types: seq<string>,
                                    cache: CacheUpdate, files: map<string, seq<byte>>, readOnly: set<string>, unreadable: set<string>,
                                    reference: Reference, host: string)
    ensures EndsWith(AsciiLowercase(img), LatestTag) ==>
            FetchPathSpec(DefaultFetcher(), env, dir, img, types, cache, files, readOnly, unreadable).result == Failure(PolicyViolation)
    ensures ClientConfigFor(DefaultFetcher(), env, reference) == Success(ClientConfig(Https, env.nativeRoots))
    ensures !AllowsPlainHttp(ClientConfigFor(DefaultFetcher(), env, reference).value.protocol, host)
  {
  }

  /** A failure to load the extra CA certificates fails the whole fetch
      before any registry request or file access. */
  lemma CertFailureIsFatal(f: OciFetcher, env: Environment, dir: string, img: string, types: seq<string>,
                           cache: CacheUpdate, files: map<string, seq<byte>>, readOnly: set<string>, unreadable: set<string>,
                           reference: Reference)
    requires !RejectsLatest(f, AsciiLowercase(img))
    requires env.parseReference(AsciiLowercase(img)) == Some(reference)
    requires f.additionalCaPaths != [] && env.loadCertsFromPaths(f.additionalCaPaths).None?
    ensures FetchPathSpec(f, env, dir, img, types, cache, files, readOnly, unreadable) == Fetched(Failure(CertError), files, [])
  {
  }

  /** Every registry request uses the configuration built for this reference
      (plain HTTP for its own registry only, and only when allowed), the
      fetcher's credentials, and for a full pull the caller's media types. */
  lemma RequestsUseScopedConfig(f: OciFetcher, env: Environment, dir: string, img: string,
                                types: seq<string>, cache: CacheUpdate,
                                files: map<string, seq<byte>>, readOnly: set<string>, unreadable: set<string>,
                                reference: Reference, config: ClientConfig, host: string)
    requires Resolved(f, env, img, reference, config)
    ensures var calls := FetchPathSpec(f, env, dir, img, types, cache, files, readOnly, unreadable).calls;
      forall i :: 0 <= i < |calls| ==>
        && calls[i].config == config && calls[i].reference == reference && calls[i].auth == f.auth
        && (calls[i].Pull? ==> calls[i].mediaTypes == types)
        && (AllowsPlainHttp(calls[i].config.protocol, host) <==> f.allowInsecure && host == reference.registry)
  {
    var n := AsciiLowercase(img);
    ResolvedFetch(f, env, dir, img, types, cache, files, readOnly, unreadable, reference, config);
    StageRequests(f.auth, env.registry, config, reference, CacheFilePath(dir, n), DigestFilePath(dir, n),
                  types, cache, files, readOnly, unreadable);
    TransportScoping(f, env, reference, host);
  }

  /** Every full pull of any fetch asks for the caller's media types. */
  lemma PullsUseCallerMediaTypes(f: OciFetcher, env: Environment, dir: string, img: string,
                                 types: seq<string>, cache: CacheUpdate,
                                 files: map<string, seq<byte>>, readOnly: set<string>, unreadable: set<string>)
    ensures var calls := FetchPathSpec(f, env, dir, img, types, cache, files, readOnly, unreadable).calls;
      forall i :: 0 <= i < |calls| && calls[i].Pull? ==> calls[i].mediaTypes == types
  {
    EarlyExitOrResolved(f, env, dir, img, types, cache, files, readOnly, unreadable);
    var n := AsciiLowercase(img);
    if !RejectsLatest(f, n) && env.parseReference(n).Some? {
      var reference := env.parseReference(n).value;
      if ClientConfigFor(f, env, reference).Success? {
        var config := ClientConfigFor(f, env, reference).value;
        ResolvedFetch(f, env, dir, img, types, cache, files, readOnly, unreadable, reference, config);
        StageRequests(f.auth, env.registry, config, reference, CacheFilePath(dir, n), DigestFilePath(dir, n),
                      types, cache, files, readOnly, unreadable);
      }
    }
  }

  /** The cache-hit rule: with the fetch resolved, it succeeds without a full
      pull exactly when the cache file exists, the registry reports a manifest
      digest, and that digest and the stored one are non-empty and equal; a
      hit returns the cache path, writes nothing and makes one manifest-only
      request. Without a cache file no manifest-only request is made. */
  lemma CacheHitIff(f: OciFetcher, env: Environment, dir: string, img: string, types: seq<string>,
                    cache: CacheUpdate, files: map<string, seq<byte>>, readOnly: set<string>, unreadable: set<string>,
                    reference: Reference, config: ClientConfig)
    requires Resolved(f, env, img, reference, config)
    ensures var o := FetchPathSpec(f, env, dir, img, types, cache, files, readOnly, unreadable);
      var cacheFile := CacheFilePath(dir, AsciiLowercase(img));
      var remote := env.registry.pullManifest(config, reference, f.auth);
      && (o.result.Success? && !PulledIn(o.calls) <==>
          cacheFile in files && remote.Some? && remote.value != "" &&
          StoredDigest(files, unreadable, DigestFilePath(dir, AsciiLowercase(img))) == remote.value)
      && (o.result.Success? && !PulledIn(o.calls) ==>
          o.result.value == cacheFile && o.files == files && o.calls == [PullManifest(config, reference, f.auth)])
      && (cacheFile !in files ==> forall i :: 0 <= i < |o.calls| ==> o.calls[i].Pull?)
  {
    var n := AsciiLowercase(img);
    ResolvedFetch(f, env, dir, img, types, cache, files, readOnly, unreadable, reference, config);
    StagePullsIff(f.auth, env.registry, config, reference, CacheFilePath(dir, n), DigestFilePath(dir, n),
                  types, cache, files, readOnly, unreadable);
  }

  /** A pulled artifact is refused exactly when its manifest is present, has
      the wasm manifest media type, and lists more than one layer; a refused
      artifact leaves the filesystem as it was. */
  lemma ValidationIff(f: OciFetcher, env: Environment, dir: string, img: string, types: seq<string>,
                      cache: CacheUpdate, files: map<string, seq<byte>>, readOnly: set<string>, unreadable: set<string>,
                      reference: Reference, config: ClientConfig, image: ImageData)
    requires Resolved(f, env, img, reference, config)
    requires env.registry.pull(config, reference, f.auth, types) == Some(image)
    requires PulledIn(FetchPathSpec(f, env, dir, img, types, cache, files, readOnly, unreadable).calls)
    ensures var o := FetchPathSpec(f, env, dir, img, types, cache, files, readOnly, unreadable);
      && ((o.result.Failure? && o.result.error.InvalidArtifact?) <==>
          image.manifest.Some? && ManifestMediaType(image.manifest.value) == WasmManifestMediaType &&
          |image.layers| > 1)
      && (o.result.Failure? && o.result.error.InvalidArtifact? ==>
          o.files == files && o.result.error.layerCount == |image.layers|)
  {
    var n := AsciiLowercase(img);
    var cacheFile, digestFile := CacheFilePath(dir, n), DigestFilePath(dir, n);
    ResolvedFetch(f, env, dir, img, types, cache, files, readOnly, unreadable, reference, config);
    StagePullsIff(f.auth, env.registry, config, reference, cacheFile, digestFile, types, cache, files, readOnly, unreadable);
    PullStageOutcome(f.auth, env.registry, config, reference, cacheFile, digestFile, types, cache, files, readOnly, image);
  }

  /** After an accepted pull: with `Ignore` the filesystem is untouched; with
      `Update` the fetch succeeds exactly when both files could be created,
      and then the cache file holds the layers' bytes, the digest file holds
      the bytes of the image's digest when it has one (and reads back as that
      digest when it is readable), and the digest file is left exactly as it
      was, present or absent, when the image has none. No file other than
      these two changes. */
  lemma CacheWriteAfterPull(f: OciFetcher, env: Environment, dir: string, img: string, types: seq<string>,
                            cache: CacheUpdate, files: map<string, seq<byte>>, readOnly: set<string>, unreadable: set<string>,
                            reference: Reference, config: ClientConfig, image: ImageData)
    requires RejectsEmptyReference(env)
    requires Resolved(f, env, img, reference, config)
    requires env.registry.pull(config, reference, f.auth, types) == Some(image)
    requires !IsInvalidArtifact(image)
    requires PulledIn(FetchPathSpec(f, env, dir, img, types, cache, files, readOnly, unreadable).calls)
    ensures var o := FetchPathSpec(f, env, dir, img, types, cache, files, readOnly, unreadable);
      var cacheFile := CacheFilePath(dir, AsciiLowercase(img));
      var digestFile := DigestFilePath(dir, AsciiLowercase(img));
      && (cache == Ignore ==> o.result == Success(cacheFile) && o.files == files)
      && (cache == Update ==>
           (o.result.Success? <==> cacheFile !in readOnly && (image.digest.Some? ==> digestFile !in readOnly)))
      && (cache == Update && o.result.Success? ==>
           && o.result.value == cacheFile
           && cacheFile in o.files && o.files[cacheFile] == LayerBytes(image.layers)
           && (image.digest.Some? ==>
                 && digestFile in o.files && o.files[digestFile] == Encode(image.digest.value)
                 && (digestFile !in unreadable ==> StoredDigest(o.files, unreadable, digestFile) == image.digest.value))
           && (image.digest.None? ==>
                 && (digestFile in o.files <==> digestFile in files)
                 && (digestFile in files ==> o.files[digestFile] == files[digestFile])))
      && UnchangedExcept(files, o.files, {cacheFile, digestFile})
  {
    var n := AsciiLowercase(img);
    var cacheFile, digestFile := CacheFilePath(dir, n), DigestFilePath(dir, n);
    ResolvedFetch(f, env, dir, img, types, cache, files, readOnly, unreadable, reference, config);
    StagePullsIff(f.auth, env.registry, config, reference, cacheFile, digestFile, types, cache, files, readOnly, unreadable);
    PullStageOutcome(f.auth, env.registry, config, reference, cacheFile, digestFile, types, cache, files, readOnly, image);
    CacheAndDigestFilesNeverAlias(dir, n, n);
    CacheImageContents(files, readOnly, image, cacheFile, digestFile);
  }

  /** A fetch touches no file but its own cache and digest files. A failed
      fetch changes no file, except a failed cache write, which may leave a
      new cache file beside the digest file as it was. With `Ignore` no
      fetch changes any file. */
  lemma OnlyCacheWritesChangeFiles(f: OciFetcher, env: Environment, dir: string, img: string, types: seq<string>,
                                   cache: CacheUpdate, files: map<string, seq<byte>>, readOnly: set<string>, unreadable: set<string>)
    ensures var o := FetchPathSpec(f, env, dir, img, types, cache, files, readOnly, unreadable);
      var cacheFile := CacheFilePath(dir, AsciiLowercase(img));
      var digestFile := DigestFilePath(dir, AsciiLowercase(img));
      && UnchangedExcept(files, o.files, {cacheFile, digestFile})
      && (o.result.Failure? && o.result.error != IoError ==> o.files == files)
      && (o.result == Failure(IoError) ==> UnchangedExcept(files, o.files, {cacheFile}))
      && (cache == Ignore ==> o.files == files)
  {
    EarlyExitOrResolved(f, env, dir, img, types, cache, files, readOnly, unreadable);
    var n := AsciiLowercase(img);
    if !RejectsLatest(f, n) && env.parseReference(n).Some? {
      var reference := env.parseReference(n).value;
      if ClientConfigFor(f, env, reference).Success? {
        var config := ClientConfigFor(f, env, reference).value;
        ResolvedFetch(f, env, dir, img, types, cache, files, readOnly, unreadable, reference, config);
        StageInvariants(f.auth, env.registry, config, reference, CacheFilePath(dir, n), DigestFilePath(dir, n),
                        types, cache, files, readOnly, unreadable);
        StageFrame(f.auth, env.registry, config, reference, CacheFilePath(dir, n), DigestFilePath(dir, n),
                   types, cache, files, readOnly, unreadable);
      }
    }
  }

  /** Idempotence: once a fetch with `Update` has succeeded, a second identical
      fetch, with the registry still reporting the pulled image's non-empty
      digest and the digest file readable, is a cache hit: same path, no file
      changed, one manifest-only request and no full pull. */
  lemma SecondFetchHitsCache(f: OciFetcher, env: Environment, dir: string, img: string, types: seq<string>,
                             files: map<string, seq<byte>>, readOnly: set<string>, unreadable: set<string>,
                             reference: Reference, config: ClientConfig, image: ImageData, digest: string)
    requires Resolved(f, env, img, reference, config)
    requires env.registry.pull(config, reference, f.auth, types) == Some(image)
    requires image.digest == Some(digest) && digest != ""
    requires env.registry.pullManifest(config, reference, f.auth) == Some(digest)
    requires DigestFilePath(dir, AsciiLowercase(img)) !in unreadable
    requires FetchPathSpec(f, env, dir, img, types, Update, files, readOnly, unreadable).result.Success?
    ensures var first := FetchPathSpec(f, env, dir, img, types, Update, files, readOnly, unreadable);
      var second := FetchPathSpec(f, env, dir, img, types, Update, first.files, readOnly, unreadable);
      && second.result == first.result
      && second.files == first.files
      && second.calls == [PullManifest(config, reference, f.auth)]
      && !PulledIn(second.calls)
  {
    var n := AsciiLowercase(img);
    var cacheFile, digestFile := CacheFilePath(dir, n), DigestFilePath(dir, n);
    var first := FetchPathSpec(f, env, dir, img, types, Update, files, readOnly, unreadable);
    ResolvedFetch(f, env, dir, img, types, Update, files, readOnly, unreadable, reference, config);
    ResolvedFetch(f, env, dir, img, types, Update, first.files, readOnly, unreadable, reference, config);
    StageSecondHit(f.auth, env.registry, config, reference, cacheFile, digestFile, types,
                   files, readOnly, unreadable, image, digest);
  }

  /** A successful fetch with `Update` returns the cache path, and the cache
      file is then present: found on a cache hit, written after a pull. */
  lemma SuccessLeavesCacheFile(f: OciFetcher, env: Environment, dir: string, img: string, types: seq<string>,
                               files: map<string, seq<byte>>, readOnly: set<string>, unreadable: set<string>)
    ensures var o := FetchPathSpec(f, env, dir, img, types, Update, files, readOnly, unreadable);
      var cacheFile := CacheFilePath(dir, AsciiLowercase(img));
      o.result.Success? ==> o.result.value == cacheFile && cacheFile in o.files
  {
    EarlyExitOrResolved(f, env, dir, img, types, Update, files, readOnly, unreadable);
    var n := AsciiLowercase(img);
    if !RejectsLatest(f, n) && env.parseReference(n).Some? {
      var reference := env.parseReference(n).value;
      if ClientConfigFor(f, env, reference).Success? {
        var config := ClientConfigFor(f, env, reference).value;
        ResolvedFetch(f, env, dir, img, types, Update, files, readOnly, unreadable, reference, config);
        StageSuccessLeavesCacheFile(f.auth, env.registry, config, reference, CacheFilePath(dir, n),
                                    DigestFilePath(dir, n), types, files, readOnly, unreadable);
      }
    }
  }

  /** `fetch_component` succeeds exactly when `fetch_path` does and the cache
      file it returns can then be read, and returns that file's bytes; it
      passes on `fetch_path`'s error, and a failed read is an I/O error. */
  lemma ComponentReadOutcome(f: OciFetcher, env: Environment, cacheDir: string, ociRef: string,
                             files: map<string, seq<byte>>, readOnly: set<string>, unreadable: set<string>)
    ensures var o := FetchPathSpec(f, env, cacheDir, ociRef, ComponentMediaTypes, Update, files, readOnly, unreadable);
      var c := FetchComponentSpec(f, env, cacheDir, ociRef, files, readOnly, unreadable);
      var cacheFile := CacheFilePath(cacheDir, AsciiLowercase(ociRef));
      && (c.result.Success? <==> o.result.Success? && cacheFile !in unreadable)
      && (c.result.Success? ==> cacheFile in o.files && c.result.value == o.files[cacheFile])
      && (o.result.Failure? ==> c.result == Failure(o.result.error))
      && (o.result.Success? && cacheFile in unreadable ==> c.result == Failure(IoError))
      && c.files == o.files && c.calls == o.calls
  {
    SuccessLeavesCacheFile(f, env, cacheDir, ociRef, ComponentMediaTypes, files, readOnly, unreadable);
  }

  /** Round trip: the bytes `fetch_component` returns after pulling are the
      layers' bytes in order; for a wasm-manifest artifact, which has at most
      one layer, they are that one layer's bytes. */
  lemma ComponentBytesAreLayers(f: OciFetcher, env: Environment, cacheDir: string, ociRef: string,
                                files: map<string, seq<byte>>, readOnly: set<string>, unreadable: set<string>,
                                reference: Reference, config: ClientConfig, image: ImageData)
    requires RejectsEmptyReference(env)
    requires Resolved(f, env, ociRef, reference, config)
    requires env.registry.pull(config, reference, f.auth, ComponentMediaTypes) == Some(image)
    requires PulledIn(FetchComponentSpec(f, env, cacheDir, ociRef, files, readOnly, unreadable).calls)
    requires FetchComponentSpec(f, env, cacheDir, ociRef, files, readOnly, unreadable).result.Success?
    ensures var bytes := FetchComponentSpec(f, env, cacheDir, ociRef, files, readOnly, unreadable).result.value;
      && bytes == LayerBytes(image.layers)
      && ((image.manifest.Some? && ManifestMediaType(image.manifest.value) == WasmManifestMediaType &&
           |image.layers| == 1) ==> bytes == image.layers[0].data)
  {
    ComponentReadOutcome(f, env, cacheDir, ociRef, files, readOnly, unreadable);
    ValidationIff(f, env, cacheDir, ociRef, ComponentMediaTypes, Update, files, readOnly, unreadable, reference, config, image);
    CacheWriteAfterPull(f, env, cacheDir, ociRef, ComponentMediaTypes, Update, files, readOnly, unreadable,
                        reference, config, image);
    if |image.layers| == 1 {
      assert image.layers == [image.layers[0]];
      SingleLayerBytes(image.layers[0]);
    }
  }

  /** The facades differ only in their media-type lists: every full pull of
      `fetch_component` asks for the component types and every full pull of
      `fetch_provider` for the provider types. */
  lemma FacadesUseFixedMediaTypes(f: OciFetcher, env: Environment, cacheDir: string, ociRef: string,
                                  files: map<string, seq<byte>>, readOnly: set<string>, unreadable: set<string>)
    ensures var c := FetchComponentSpec(f, env, cacheDir, ociRef, files, readOnly, unreadable).calls;
      forall i :: 0 <= i < |c| && c[i].Pull? ==> c[i].mediaTypes == ComponentMediaTypes
    ensures var p := FetchProviderSpec(f, env, cacheDir, ociRef, files, readOnly, unreadable).calls;
      forall i :: 0 <= i < |p| && p[i].Pull? ==> p[i].mediaTypes == ProviderMediaTypes
  {
    PullsUseCallerMediaTypes(f, env, cacheDir, ociRef, ComponentMediaTypes, Update, files, readOnly, unreadable);
    PullsUseCallerMediaTypes(f, env, cacheDir, ociRef, ProviderMediaTypes, Update, files, readOnly, unreadable);
  }
}
