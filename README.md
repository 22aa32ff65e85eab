# OCI artifact fetch-and-cache, modelled in Dafny

This project models how a wasmCloud host fetches OCI artifacts (components and
capability providers) and caches them on disk. The code lives in
`crates/core/src/oci.rs`. `OciFetcher::fetch_path` makes a fixed sequence of
decisions:

1. It lowercases the reference.
2. It refuses `:latest` unless the policy allows it.
3. It derives a cache file name (`prune_filepath`) and a sibling `.digest` file.
4. It parses the reference.
5. It builds the client configuration. Plain HTTP is allowed for the parsed registry only, and the trust roots are the native roots followed by extra DER certificates.
6. If the cache file exists, it asks the registry for the manifest digest and compares it with the stored digest.
7. Otherwise it pulls the artifact and refuses multi-layer wasm-manifest artifacts.
8. If asked, it writes the concatenated layers and the digest (`cache_oci_image`).

`fetch_component` and `fetch_provider` are thin facades over `fetch_path`.

The modules are:

- `Wrappers`: `Option` and `Result`.
- `Utf8`: the bytes of a digest file, as written by `as_bytes` and read by `read_to_string`, with the round trip proved.
- `Text`: ASCII lowercasing, `ends_with`, one-character `replace`.
- `OciPaths`: `prune_filepath`, `Path::join`, `PathBuf::set_extension`, and the cache and digest paths.
- `OciTypes`: the constants, the cache-update mode, the fetcher policy with its constructors, the registry data, and the error kinds.
- `Transport`: the protocol choice and the trust roots. The in-place extension of the certificate list is a loop.
- `CacheStore`: a `FileSystem` class whose `files` map the operations update, the cache-hit rule, and `cache_oci_image`. A `readOnly` set holds the paths where `File::create` fails, and an `unreadable` set the paths where reading fails.
- `Fetcher`: `FetchPathSpec` states the decision sequence as a function. The methods `FetchPath`, `FetchComponent` and `FetchProvider` run the steps on a `FileSystem` and are proved equal to it.
- `FetchProperties`: what the decision sequence guarantees.

Collaborators outside the core are the fields of an `Environment` value:

- the reference parser (`RejectsEmptyReference` states that it refuses the empty string, as the reference grammar does);
- the native roots;
- the CA-certificate loader;
- the registry, with one function for the manifest request and one for the full pull.

Every registry request a fetch makes is returned in a trace of calls. This lets a lemma say that no request or no full pull happened.

## Model

| member | source | states |
|---|---|---|
| OciPaths.PruneFilepath | crates/core/src/oci.rs:122-127 | The result has the input's length. Each `:`, `/` and `.` becomes `_`, and every other character is kept. |
| OciPaths.PrunedHasNoSeparator | crates/core/src/oci.rs:122-127 | A pruned name has no `:`, `/` or `.` left. |
| OciPaths.PruneIdempotent | crates/core/src/oci.rs:122-127 | Pruning a pruned name changes nothing. |
| OciPaths.PruneCollidesIff | crates/core/src/oci.rs:122-127 | Two references get the same cache name exactly when they have the same length and agree once `:`, `/` and `.` are read as `_`. |
| OciPaths.PruneCollision | crates/core/src/oci.rs:122-127 | Pruning is lossy: swapping a `:` for `/`, `.` or `_` gives a different reference with the same cache name. |
| OciPaths.Join | crates/core/src/oci.rs:144 | `output_dir.join(name)` for a relative name: the directory, a `/` unless it is empty or already ends in one, then the name. `JoinInjective` states what the fetcher relies on. |
| OciPaths.FileStem | crates/core/src/oci.rs:146 | The stem `set_extension` keeps: the name before its last `.`, or the whole name when the only dot is the first character or there is none. Its contract states that the stem is a prefix of the name. |
| OciPaths.SetExtension | crates/core/src/oci.rs:146 | `set_extension` as modelled: the file name after the last `/` keeps its stem and gets `.ext`. A path whose file name is empty, `.` or `..` is returned unchanged by the model. `SetExtensionAppends` states the case the fetcher uses. |
| OciPaths.CacheFilePath | crates/core/src/oci.rs:143-144 | The cache file: the cache directory joined with the pruned reference. `CacheAndDigestFilesNeverAlias` and `JoinInjective` state how cache paths relate. |
| OciPaths.DigestFilePath | crates/core/src/oci.rs:143-146 | The digest file: the same join, then `set_extension("digest")`. `DigestFileAppendsSuffix` states that it is the cache path plus `.digest`. |
| OciPaths.JoinInjective | crates/core/src/oci.rs:144 | Joining one directory with two names gives the same path exactly when the names are equal. |
| OciPaths.SetExtensionAppends | crates/core/src/oci.rs:145-146 | For a non-empty name with no `/` or `.`, `set_extension` appends `.ext` and never replaces part of the name. |
| OciPaths.DigestFileAppendsSuffix | crates/core/src/oci.rs:143-146 | The digest file is the cache file path with `.digest` appended. |
| OciPaths.CacheAndDigestFilesNeverAlias | crates/core/src/oci.rs:143-146 | No digest file equals any reference's cache file in the same directory. |
| Text.AsciiLowercase | crates/core/src/oci.rs:139 | Lowercasing keeps the length and lowers each ASCII capital in place. |
| Text.LowercaseHasNoUpper | crates/core/src/oci.rs:139 | After lowercasing, the reference holds no ASCII capital, as the reference grammar expects. |
| Text.LowercaseIdempotent | crates/core/src/oci.rs:139 | Lowercasing an already lowercased reference changes nothing. |
| Text.ReplaceChar | crates/core/src/oci.rs:123-125 | `replace` of one character keeps the length, swaps each occurrence and keeps every other character. |
| Text.EndsWith | crates/core/src/oci.rs:140 | `ends_with`: the suffix is no longer than the string and equals its tail. `PolicyViolationIff` states the latest-tag rule built on it. |
| Utf8.Encode | crates/core/src/oci.rs:116 | `as_bytes`: each character as its shortest UTF-8 sequence, in order. The contract states that the encoding is never shorter than the string and is empty exactly for the empty string. |
| Utf8.Decode | crates/core/src/oci.rs:180 | The decoding inside `read_to_string`: the string, or nothing on a malformed byte sequence (overlong forms, surrogates and values above U+10FFFF are refused). `EncodeDecode` states that every accepted byte sequence is the encoding of its result, and `DecodeEncode` that every encoding is accepted. |
| Utf8.DecodeEncode | crates/core/src/oci.rs:116 | A digest written as UTF-8 reads back as the same string. |
| Utf8.DecodeFirstIsEncodeChar | crates/core/src/oci.rs:180 | The bytes the decoder takes for one character are exactly that character's shortest UTF-8 encoding. |
| Utf8.EncodeDecode | crates/core/src/oci.rs:180 | Any bytes that decode are exactly the encoding of the decoded string. A file that is not such an encoding therefore reads as nothing, and the digest is empty. |
| Utf8.DecodeSplit | crates/core/src/oci.rs:180 | A successful decode takes the encoding of its first character and then decodes the remaining bytes on their own. |
| Utf8.EncodeCons | crates/core/src/oci.rs:116 | The bytes written for a string start with the encoding of its first character, followed by those of the rest. |
| Utf8.EncodeInjective | crates/core/src/oci.rs:116 | Different digests are written as different bytes. |
| OciTypes.DefaultFetcher | crates/core/src/oci.rs:42-51 | The default policy forbids `latest` and plain HTTP, has no extra CA paths and uses anonymous auth. |
| OciTypes.FromConfig | crates/core/src/oci.rs:53-89 | Construction from a registry configuration copies exactly its auth, latest, insecure and CA-path fields. |
| OciTypes.OciFetcher.WithAdditionalCaPaths | crates/core/src/oci.rs:258-261 | The CA path list becomes exactly the given list. Every other field is unchanged. |
| OciTypes.WithAdditionalCaPathsReplaces | crates/core/src/oci.rs:258-261 | Setting the paths twice leaves only the second list: it replaces, never appends. |
| Transport.ProtocolFor | crates/core/src/oci.rs:150-154 | `HttpsExcept` of the reference's registry when insecure access is allowed, otherwise `Https`. `InsecureScopedToRegistry` states which hosts then get plain HTTP. |
| Transport.InsecureScopedToRegistry | crates/core/src/oci.rs:150-154 | Plain HTTP to a host is allowed exactly when insecure access is on and the host is the parsed registry. |
| Transport.DerCertificates | crates/core/src/oci.rs:161-164 | Each loaded certificate tagged DER, in order, one for one. |
| Transport.TrustRoots | crates/core/src/oci.rs:155-166 | The trust roots as a function: native roots alone, or native roots plus the loaded certificates, or a certificate error. `TrustRootsExtendNative` states its properties and `LoadTrustRoots` is proved equal to it. |
| Transport.ExtendWithDer | crates/core/src/oci.rs:157-165 | The in-place extension keeps the existing roots as a prefix and appends each loaded certificate, in order, tagged DER. |
| Transport.ExtendedIsConcatenation | crates/core/src/oci.rs:155-166 | The extended list is the native roots followed by the DER certificates. |
| Transport.LoadTrustRoots | crates/core/src/oci.rs:155-166 | Building the trust roots step by step gives exactly `TrustRoots`. |
| Transport.TrustRootsExtendNative | crates/core/src/oci.rs:155-166 | The roots fail to build exactly when extra paths are configured and loading them fails, and the error is a certificate error. With no extra paths the roots are exactly the native roots. Otherwise they are the native roots followed by every loaded certificate, in order, tagged DER. |
| Transport.ClientConfigFor | crates/core/src/oci.rs:167-171 | The client configuration: the protocol for the reference's registry and the trust roots, or the certificate error. `TransportScoping` states its properties. |
| Transport.TransportScoping | crates/core/src/oci.rs:150-171 | The client built for a reference allows plain HTTP exactly to that reference's registry, and only under the insecure policy. |
| CacheStore.FileSystem.Exists | crates/core/src/oci.rs:174 | `fs::metadata(...).is_ok()`: the cache file is present. `CacheHitIff` states how the fetch uses it. |
| CacheStore.FileSystem.Read | crates/core/src/oci.rs:228-230 | A read succeeds exactly when the file exists and can be read, and returns its bytes. |
| CacheStore.FileSystem.ReadToStringOrEmpty | crates/core/src/oci.rs:180 | Reading the digest file gives its UTF-8 text, or the empty string when it is missing, unreadable or malformed. |
| CacheStore.FileSystem.CreateAndWrite | crates/core/src/oci.rs:106-117 | Create-and-write succeeds exactly on a writable path. The file then holds exactly the data, and nothing else changes. |
| CacheStore.StoredDigest | crates/core/src/oci.rs:180 | The digest read from the digest file: its UTF-8 text, or the empty string when the file is missing, unreadable or malformed. `ReadToStringOrEmpty` is proved equal to it and `UnreadableDigestMisses` states that it is empty for a missing, unreadable or malformed file. |
| CacheStore.IsCacheHit | crates/core/src/oci.rs:181 | The cache-hit rule: both digests non-empty and equal. `CacheHitIff` states what a hit gives the fetch. |
| CacheStore.UnreadableDigestMisses | crates/core/src/oci.rs:179-183 | A missing, unreadable or undecodable digest file reads as the empty string and so never yields a cache hit. |
| CacheStore.LayerBytes | crates/core/src/oci.rs:107-111 | `flat_map` over the layers' data: the layers' bytes, concatenated in order. `LayerBytesAppend` and `SingleLayerBytes` state its properties. |
| CacheStore.LayerBytesAppend | crates/core/src/oci.rs:107-111 | The cached bytes of a layer list are those of each part, concatenated in order. |
| CacheStore.SingleLayerBytes | crates/core/src/oci.rs:107-111 | A one-layer artifact is cached as exactly that layer's bytes. |
| CacheStore.CacheImage | crates/core/src/oci.rs:101-120 | `cache_oci_image` as a function of the files: create and fill the cache file, then the digest file when there is a digest. `CacheImageContents` states its outcome and `CacheOciImage` is proved equal to it. |
| CacheStore.CacheImageContents | crates/core/src/oci.rs:101-120 | See the note below the table. |
| CacheStore.CacheOciImage | crates/core/src/oci.rs:101-120 | Writing the cache file and then the optional digest file gives exactly `CacheImage`'s success flag and files. |
| Fetcher.RejectsLatest | crates/core/src/oci.rs:140 | The latest-tag rule: `latest` is forbidden and the lowercased reference ends with `:latest`. `PolicyViolationIff` states both directions. |
| Fetcher.ManifestMediaType | crates/core/src/oci.rs:194 | The manifest's media type, or the empty string when it has none. |
| Fetcher.IsInvalidArtifact | crates/core/src/oci.rs:191-196 | The shape rule: a manifest is present, its media type is the wasm manifest type, and there is more than one layer. `ValidationIff` states both directions. |
| Fetcher.FetchPathSpec | crates/core/src/oci.rs:131-211 | The decision sequence of `fetch_path` as a function: result, files after, and registry requests. `FetchPath` is proved equal to it, and the `FetchProperties` lemmas state what it guarantees. |
| Fetcher.FetchWithClient | crates/core/src/oci.rs:173-210 | The registry stage: manifest request and digest comparison when the cache file exists, otherwise or on a miss the pull. The `Stage` lemmas state its properties. |
| Fetcher.PullAndCache | crates/core/src/oci.rs:186-210 | The pull, the shape rule and the optional cache write. `PullStageOutcome` and `PullFrame` state its properties. |
| Fetcher.FetchPath | crates/core/src/oci.rs:131-211 | Running the steps in order, with early returns, a digest path given its extension after the join, and trust roots built in place, gives exactly `FetchPathSpec`'s result, files and registry requests. |
| Fetcher.FetchFromRegistry | crates/core/src/oci.rs:173-210 | The registry stage (cache check, pull, shape check, optional cache write) run on the filesystem gives exactly `FetchWithClient`. |
| Fetcher.FetchComponentSpec | crates/core/src/oci.rs:218-231 | `fetch_component` as a function: a fetch with the component types and `Update`, then a read of the returned path that fails as an I/O error. `ComponentReadOutcome` states its properties. |
| Fetcher.FetchComponent | crates/core/src/oci.rs:218-231 | `fetch_component` on the filesystem gives exactly `FetchComponentSpec`: a fetch with the component types and `Update`, then a read of the returned path. |
| Fetcher.FetchProviderSpec | crates/core/src/oci.rs:243-251 | `fetch_provider` up to the archive reader: a fetch with the provider types and `Update`. `FacadesUseFixedMediaTypes` states its properties. |
| Fetcher.FetchProvider | crates/core/src/oci.rs:238-251 | `fetch_provider` up to the archive reader gives exactly a fetch with the provider types and `Update`. |
| FetchProperties.StagePullsIff | crates/core/src/oci.rs:173-189 | A full pull happens exactly when there is no cache file or the manifest digest does not match. Without a pull, the result is the cached path or a manifest error, and no file changes. |
| FetchProperties.StageRequests | crates/core/src/oci.rs:173-189 | Every registry request uses the given configuration, reference and auth, and every full pull uses the given types. |
| FetchProperties.StageInvariants | crates/core/src/oci.rs:173-210 | The registry stage never raises a policy, parse or certificate error. Among failures, only a failed cache write changes files. With `Ignore`, nothing changes. |
| FetchProperties.StageFrame | crates/core/src/oci.rs:173-210 | The registry stage changes no file but the cache and digest files. When the cache write fails, every file but the cache file is as it was. |
| FetchProperties.PullFrame | crates/core/src/oci.rs:186-210 | The pull step changes no file but the cache and digest files. When the cache write fails, every file but the cache file is as it was. |
| FetchProperties.StageSuccessLeavesCacheFile | crates/core/src/oci.rs:174-210 | A successful registry stage with `Update` returns the cache path, and the cache file is present afterwards. |
| FetchProperties.StageSuccessStoresDigest | crates/core/src/oci.rs:174-208 | After a successful registry stage with `Update`, for a pulled image whose digest the registry reports, the cache file is present and a readable digest file holds that digest. |
| FetchProperties.StageSecondHit | crates/core/src/oci.rs:174-208 | Repeating a successful registry stage with `Update` on the files it left is a cache hit with the same result and files and one manifest request, while the registry reports the same non-empty digest and the digest file is readable. |
| FetchProperties.PullStageOutcome | crates/core/src/oci.rs:190-208 | A pulled image is refused exactly when it is invalid, and then nothing is written. A valid image is returned with `Ignore` and written with `Update`. |
| FetchProperties.EarlyExitOrResolved | crates/core/src/oci.rs:139-171 | Every fetch either stops early with a policy, parse or certificate error (no request, no file change) or reaches the registry with a parsed reference and a built client configuration. |
| FetchProperties.LatestRejectedFirst | crates/core/src/oci.rs:139-142 | Under a policy that forbids `latest`, a reference ending in `:latest` after lowercasing is refused. No request is made and no file changes. |
| FetchProperties.UppercaseLatestRejected | crates/core/src/oci.rs:139-142 | A reference ending in `:LATEST` is refused just the same. |
| FetchProperties.PolicyViolationIff | crates/core/src/oci.rs:140-142 | The policy error happens exactly when `latest` is forbidden and the lowercased reference ends with `:latest`. |
| FetchProperties.LatestPolicyIrrelevantOtherwise | crates/core/src/oci.rs:140-142 | For a reference without the `latest` tag, allowing or forbidding `latest` gives the same fetch. |
| FetchProperties.DefaultFetcherIsRestrictive | crates/core/src/oci.rs:42-51 | The default fetcher refuses `latest`, trusts only the native roots over HTTPS, and allows plain HTTP to no host. |
| FetchProperties.CertFailureIsFatal | crates/core/src/oci.rs:155-166 | A failed load of the extra CA certificates fails the fetch with a certificate error. No request is made and no file changes. |
| FetchProperties.RequestsUseScopedConfig | crates/core/src/oci.rs:150-189 | Every request of a resolved fetch uses that reference's configuration and the fetcher's auth, and every full pull uses the caller's types. Plain HTTP is allowed to the reference's registry only, and only under the insecure policy. |
| FetchProperties.PullsUseCallerMediaTypes | crates/core/src/oci.rs:186-189 | Every full pull of any fetch asks for the caller's media types. |
| FetchProperties.CacheHitIff | crates/core/src/oci.rs:174-184 | A fetch succeeds without a full pull exactly when the cache file exists and the remote and stored digests are non-empty and equal. An unreadable digest file counts as empty. It then returns the cache path, changes no file and makes one manifest request. Without a cache file, no manifest request is made. |
| FetchProperties.ValidationIff | crates/core/src/oci.rs:190-202 | A pulled artifact is refused exactly when its manifest is present, has the wasm manifest type and lists more than one layer. The error carries the layer count and no file changes. |
| FetchProperties.CacheWriteAfterPull | crates/core/src/oci.rs:204-208 | See the note below the table. |
| FetchProperties.OnlyCacheWritesChangeFiles | crates/core/src/oci.rs:131-211 | A fetch changes no file but its own cache and digest files. A failed fetch changes no file unless the cache write failed, and then every file but the cache file is as it was. With `Ignore`, no fetch changes any file. |
| FetchProperties.SecondFetchHitsCache | crates/core/src/oci.rs:174-208 | Once a fetch with `Update` has succeeded, repeating it while the registry reports the same non-empty digest and the digest file is readable is a cache hit. The result and files are the same, one manifest request is made and nothing is pulled. |
| FetchProperties.SuccessLeavesCacheFile | crates/core/src/oci.rs:204-210 | A successful fetch with `Update` returns the cache path, and that file exists afterwards. |
| FetchProperties.ComponentReadOutcome | crates/core/src/oci.rs:217-231 | `fetch_component` succeeds exactly when its `fetch_path` does and the returned cache file can be read, and then returns that file's bytes. It passes on the fetch's error, a failed read is an I/O error, and files and requests are those of the fetch. |
| FetchProperties.ComponentBytesAreLayers | crates/core/src/oci.rs:218-231 | After a pull, the component bytes are the layers' bytes in order. For a one-layer wasm-manifest artifact they are that layer's data. |
| FetchProperties.FacadesUseFixedMediaTypes | crates/core/src/oci.rs:218-248 | Every full pull of `fetch_component` asks for the component media types, and every full pull of `fetch_provider` for the provider ones. |

`CacheStore.CacheImageContents` states, for two distinct paths:

- The write succeeds exactly when the cache file, and the digest file when there is a digest, can be created.
- After success, the cache file holds the layers' bytes.
- After success with a digest, the digest file exists and holds the digest's UTF-8 bytes, which decode back to the digest.
- With no digest, the digest file is untouched: present with the same bytes, or absent, exactly as before.
- A failed write changes nothing, or leaves a new cache file beside a stale digest file.
- Every other file is unchanged.

`FetchProperties.CacheWriteAfterPull` states, after an accepted pull:

- With `Ignore`, the fetch returns the cache path and changes no file.
- With `Update`, it succeeds exactly when both files can be created.
- The cache file then holds the layers' bytes.
- When the image has a digest, the digest file exists and holds the digest's UTF-8 bytes. When that file is readable, it reads back as the digest.
- When the image has no digest, the digest file is exactly as before, present with the same bytes or absent.
- Every file other than the cache and digest files is exactly as before.

## Left out

- The registry client (`pull_manifest`, `pull`), HTTP and TLS are left out. They are function-valued oracles, so the accepted-media-type filtering inside the client is the oracle's business.
- `Reference::from_str` is left out. It is an oracle; only the registry host of a reference is used.
- `tls::load_certs_from_paths` and `tls::NATIVE_ROOTS_OCI` are left out. They are oracles that may fail, and DER decoding is not modelled.
- `crate::par::read` is left out. `FetchProvider` stops at the resolved path, because archive and JWT handling are not part of this model.
- `oci_cache_dir` is left out (the temporary directory and its creation). The cache directory is a parameter.
- The async runtime, `flush` and partial writes are left out. A write either succeeds in full or fails at `File::create`, and the `readOnly` set of the `FileSystem` decides which.
- Concurrent fetches are left out. Each fetch runs alone on the filesystem.
- Error message text and `anyhow` context strings are left out. Errors are a datatype of kinds.
- Text.AsciiLowercase: lowers ASCII capitals only. Unicode `to_lowercase` is not modelled.
- OciTypes.FromConfig: the auth conversion `into()` is the identity on the modelled auth kinds.
- `WASM_LAYER_MEDIA_TYPE` and `WASM_MANIFEST_MEDIA_TYPE` come from the `oci-wasm` crate, which is not part of this model. Their values here are that crate's published strings, and no proof depends on them.
- OciPaths.SetExtension: follows `set_extension` for names without a trailing separator. A path whose file name is empty, `.` or `..` is left unchanged by the model, while Rust first resolves the components (it drops a trailing `.`, so `a/.` becomes `a.digest`). The fetcher only passes a non-empty pruned name, which never reaches these cases.
- OciPaths.DigestFileAppendsSuffix: requires a non-empty reference. For the empty one, the cache path is the directory itself, which the reference parser rejects anyway.
- OciPaths.CacheAndDigestFilesNeverAlias: requires the digest file's reference to be non-empty, for the same reason.
- CacheStore.FileSystem.Exists: `fs::metadata` succeeds on every present file, including one whose contents cannot be read. Metadata errors are not modelled.
- Which paths cannot be created or read is a parameter of the filesystem. Why they fail (permissions, directories, I/O errors) is not modelled.
