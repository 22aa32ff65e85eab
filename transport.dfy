/** The registry client's configuration as `fetch_path` builds it: the
    protocol (an HTTP exception for the reference's own registry only) and the
    trust roots (the platform's roots, then every extra certificate). */
module Transport {

  import opened Wrappers
  import opened Utf8
  import opened OciTypes

  /** `HttpsExcept` of the reference's registry when insecure access is allowed, else `Https`. */
  function ProtocolFor(allowInsecure: bool, registryHost: string): ClientProtocol {
    if allowInsecure then HttpsExcept([registryHost]) else Https
  }

  /** True when the protocol lets the client talk plain HTTP to `host`. */
  predicate AllowsPlainHttp(protocol: ClientProtocol, host: string) {
    match protocol
    case Http => true
    case Https => false
    case HttpsExcept(hosts) => host in hosts
  }

  /** Insecure access reaches exactly one host, the reference's own registry,
      and only when the policy allows it. */
  lemma InsecureScopedToRegistry(allowInsecure: bool, registryHost: string, host: string)
    ensures AllowsPlainHttp(ProtocolFor(allowInsecure, registryHost), host) <==>
            allowInsecure && host == registryHost
  {
  }

  /** The loaded certificates, each tagged as DER. */
  function DerCertificates(ders: seq<seq<byte>>): (r: seq<Certificate>)
    ensures |r| == |ders|
    ensures forall i :: 0 <= i < |ders| ==> r[i] == Certificate(Der, ders[i])
  {
    seq(|ders|, i requires 0 <= i < |ders| => Certificate(Der, ders[i]))
  }

  /** `certs.extend(...)`: appends each loaded certificate as DER, in order. */
  method ExtendWithDer(certs: seq<Certificate>, ders: seq<seq<byte>>) returns (r: seq<Certificate>)
    ensures |r| == |certs| + |ders|
    ensures r[..|certs|] == certs
    ensures forall i :: 0 <= i < |ders| ==> r[|certs| + i] == Certificate(Der, ders[i])
  {
    r := certs;
    var i := 0;
    while i < |ders|
      invariant 0 <= i <= |ders|
      invariant |r| == |certs| + i
      invariant r[..|certs|] == certs
      invariant forall j :: 0 <= j < i ==> r[|certs| + j] == Certificate(Der, ders[j])
    {
      r := r + [Certificate(Der, ders[i])];
      i := i + 1;
    }
  }

  /** The result of `ExtendWithDer`, as one sequence. */
  lemma ExtendedIsConcatenation(certs: seq<Certificate>, ders: seq<seq<byte>>, r: seq<Certificate>)
    requires |r| == |certs| + |ders|
    requires r[..|certs|] == certs
    requires forall i :: 0 <= i < |ders| ==> r[|certs| + i] == Certificate(Der, ders[i])
    ensures r == certs + DerCertificates(ders)
  {
    var e := certs + DerCertificates(ders);
    forall k | 0 <= k < |r| ensures r[k] == e[k] {
      if k < |certs| {
        assert r[k] == r[..|certs|][k];
      } else {
        assert r[|certs| + (k - |certs|)] == Certificate(Der, ders[k - |certs|]);
      }
    }
  }

  /** The trust roots: the native roots alone when no extra path is configured;
      otherwise the native roots followed by every loaded certificate, and a
      `CertError` when loading fails. */
  function TrustRoots(f: OciFetcher, env: Environment): Outcome<seq<Certificate>> {
    if f.additionalCaPaths == [] then Success(env.nativeRoots)
    else
      match env.loadCertsFromPaths(f.additionalCaPaths)
      case None => Failure(CertError)
      case Some(ders) => Success(env.nativeRoots + DerCertificates(ders))
  }

  /** The trust roots as `fetch_path` builds them: a copy of the native roots,
      extended in place with the loaded certificates tagged DER. */
  method LoadTrustRoots(f: OciFetcher, env: Environment) returns (r: Outcome<seq<Certificate>>)
    ensures r == TrustRoots(f, env)
  {
    var certs := env.nativeRoots;
    if f.additionalCaPaths != [] {
      var loaded := env.loadCertsFromPaths(f.additionalCaPaths);
      if loaded.None? {
        return Failure(CertError);
      }
      certs := ExtendWithDer(certs, loaded.value);
      ExtendedIsConcatenation(env.nativeRoots, loaded.value, certs);
    }
    return Success(certs);
  }

  /** The client configuration for a parsed reference. */
  function ClientConfigFor(f: OciFetcher, env: Environment, reference: Reference): Outcome<ClientConfig> {
    match TrustRoots(f, env)
    case Failure(e) => Failure(e)
    case Success(certs) => Success(ClientConfig(ProtocolFor(f.allowInsecure, reference.registry), certs))
  }

  /** The trust roots always start with the native roots, and every further
      root is a DER certificate loaded from the configured paths, in order;
      a failed load fails the whole configuration. */
  lemma TrustRootsExtendNative(f: OciFetcher, env: Environment)
    ensures TrustRoots(f, env).Failure? <==>
            f.additionalCaPaths != [] && env.loadCertsFromPaths(f.additionalCaPaths).None?
    ensures TrustRoots(f, env).Failure? ==> TrustRoots(f, env).error == CertError
    ensures f.additionalCaPaths == [] ==> TrustRoots(f, env) == Success(env.nativeRoots)
    ensures f.additionalCaPaths != [] && TrustRoots(f, env).Success? ==>
            var loaded := env.loadCertsFromPaths(f.additionalCaPaths).value;
            var roots := TrustRoots(f, env).value;
            && roots == env.nativeRoots + DerCertificates(loaded)
            && |roots| == |env.nativeRoots| + |loaded|
            && (forall i :: |env.nativeRoots| <= i < |roots| ==>
                  roots[i] == Certificate(Der, loaded[i - |env.nativeRoots|]))
  {
  }

  /** The configuration built for a reference whose registry is `b` never
      lets plain HTTP reach a different host `a`. */
  lemma TransportScoping(f: OciFetcher, env: Environment, reference: Reference, host: string)
    requires ClientConfigFor(f, env, reference).Success?
    ensures AllowsPlainHttp(ClientConfigFor(f, env, reference).value.protocol, host) <==>
            f.allowInsecure && host == reference.registry
  {
    InsecureScopedToRegistry(f.allowInsecure, reference.registry, host);
  }
}
