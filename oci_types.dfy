/** The values the fetcher works with: its policy, the registry's replies,
    the client configuration, the errors, the media types, and the external
    collaborators (reference parser, certificate loader, registry) given as
    function values. */
module OciTypes {

  import opened Wrappers
  import opened Utf8

  /** The layer media types the fetcher names itself. */
  const ProviderArchiveMediaType := "application/vnd.wasmcloud.provider.archive.layer.v1+par"
  const WasmMediaType := "application/vnd.module.wasm.content.layer.v1+wasm"
  const OciMediaType := "application/vnd.oci.image.layer.v1.tar"

  /** The two media types imported from the oci-wasm crate. */
  const WasmLayerMediaType := "application/wasm"
  const WasmManifestMediaType := "application/vnd.oci.image.manifest.v1+json"

  /** The accepted-media-type lists of the two facades. */
  const ComponentMediaTypes := [WasmMediaType, OciMediaType, WasmLayerMediaType]
  const ProviderMediaTypes := [ProviderArchiveMediaType, OciMediaType]

  /** The tag the policy may forbid, as it appears after lowercasing. */
  const LatestTag := ":latest"

  /** `OciArtifactCacheUpdate`; its default is `Ignore`. */
  datatype CacheUpdate = Ignore | Update

  /** Registry credentials handed to every registry request. */
  datatype RegistryAuth = Anonymous | Basic(username: string, password: string) | Bearer(token: string)

  /** The policy part of the host's registry configuration. */
  datatype RegistryConfig = RegistryConfig(
    auth: RegistryAuth,
    allowLatest: bool,
    allowInsecure: bool,
    additionalCaPaths: seq<string>)

  /** `OciFetcher`: an immutable fetch policy. */
  datatype OciFetcher = OciFetcher(
    additionalCaPaths: seq<string>,
    allowLatest: bool,
    allowInsecure: bool,
    auth: RegistryAuth)
  {
    /** `with_additional_ca_paths`: the path list is replaced, not extended. */
    function WithAdditionalCaPaths(paths: seq<string>): (f: OciFetcher)
      ensures f.additionalCaPaths == paths
      ensures f.allowLatest == allowLatest && f.allowInsecure == allowInsecure && f.auth == auth
    {
      this.(additionalCaPaths := paths)
    }
  }

  /** `OciFetcher::default`: the most restrictive policy. */
  function DefaultFetcher(): (f: OciFetcher)
    ensures !f.allowLatest && !f.allowInsecure
    ensures f.additionalCaPaths == [] && f.auth == Anonymous
  {
    OciFetcher([], false, false, Anonymous)
  }

  /** `OciFetcher::from(RegistryConfig)`, by reference or by value: the four
      policy fields are copied and every other configuration field is ignored. */
  function FromConfig(config: RegistryConfig): (f: OciFetcher)
    ensures f.allowLatest == config.allowLatest && f.allowInsecure == config.allowInsecure
    ensures f.additionalCaPaths == config.additionalCaPaths && f.auth == config.auth
  {
    OciFetcher(config.additionalCaPaths, config.allowLatest, config.allowInsecure, config.auth)
  }

  /** A parsed reference; only its registry host matters to the fetcher. */
  datatype Reference = Reference(registry: string, repository: string, tag: Option<string>, digest: Option<string>)

  /** `ClientProtocol`: plain HTTP, HTTPS, or HTTPS except for the listed hosts. */
  datatype ClientProtocol = Http | Https | HttpsExcept(hosts: seq<string>)

  datatype CertificateEncoding = Der | Pem

  datatype Certificate = Certificate(encoding: CertificateEncoding, data: seq<byte>)

  /** The part of the registry client's configuration the fetcher sets. */
  datatype ClientConfig = ClientConfig(protocol: ClientProtocol, extraRootCertificates: seq<Certificate>)

  datatype ImageLayer = ImageLayer(data: seq<byte>, mediaType: string)

  datatype Manifest = Manifest(mediaType: Option<string>)

  /** What a full pull returns. */
  datatype ImageData = ImageData(layers: seq<ImageLayer>, digest: Option<string>, manifest: Option<Manifest>)

  /** The registry, seen as an oracle: a manifest-only request yields the
      manifest digest, a full pull yields the image; None is a failure. */
  datatype Registry = Registry(
    pullManifest: (ClientConfig, Reference, RegistryAuth) -> Option<string>,
    pull: (ClientConfig, Reference, RegistryAuth, seq<string>) -> Option<ImageData>)

  /** Everything outside the fetcher: the reference grammar, the platform's
      root certificates, the certificate loader and the registry. */
  datatype Environment = Environment(
    parseReference: string -> Option<Reference>,
    nativeRoots: seq<Certificate>,
    loadCertsFromPaths: seq<string> -> Option<seq<seq<byte>>>,
    registry: Registry)

  /** The reference grammar has no empty reference, so the parser refuses "". */
  predicate RejectsEmptyReference(env: Environment) {
    env.parseReference("") == None
  }

  /** One request made to the registry, as recorded in a fetch's trace. */
  datatype RegistryCall =
    | PullManifest(config: ClientConfig, reference: Reference, auth: RegistryAuth)
    | Pull(config: ClientConfig, reference: Reference, auth: RegistryAuth, mediaTypes: seq<string>)

  /** The ways a fetch fails. */
  datatype FetchError =
    | PolicyViolation
    | ParseError
    | CertError
    | ManifestError
    | PullError
    | InvalidArtifact(layerCount: nat)
    | IoError

  type Outcome<T> = Result<T, FetchError>

  /** A fetch's result, the filesystem after it, and the registry requests it made. */
  datatype Fetched<T> = Fetched(result: Outcome<T>, files: map<string, seq<byte>>, calls: seq<RegistryCall>)

  /** True when some request of the trace was a full pull. */
  predicate PulledIn(calls: seq<RegistryCall>) {
    exists i :: 0 <= i < |calls| && calls[i].Pull?
  }

  /** `with_additional_ca_paths` twice keeps only the second list. */
  lemma WithAdditionalCaPathsReplaces(f: OciFetcher, a: seq<string>, b: seq<string>)
    ensures f.WithAdditionalCaPaths(a).WithAdditionalCaPaths(b) == f.WithAdditionalCaPaths(b)
  {
  }
}
