/** The on-disk cache: a filesystem holding the cache and digest files, the
    cache-hit rule, and `cache_oci_image`, which writes both files. */
module CacheStore {

  import opened Wrappers
  import opened Utf8
  import opened OciTypes

  /** The files the fetcher sees. `File::create` fails on a path in
      `readOnly`; reading fails on a path in `unreadable` (a permission or
      I/O error), whether or not the file exists. */
  class FileSystem {
    var files: map<string, seq<byte>>
    const readOnly: set<string>
    const unreadable: set<string>

    constructor (initial: map<string, seq<byte>>, readOnlyPaths: set<string>, unreadablePaths: set<string>)
      ensures files == initial && readOnly == readOnlyPaths && unreadable == unreadablePaths
    {
      files := initial;
      readOnly := readOnlyPaths;
      unreadable := unreadablePaths;
    }

    /** `fs::metadata(path).is_ok()`. */
    predicate Exists(path: string)
      reads this
    {
      path in files
    }

    /** `fs::read`: the bytes of the file, or None when it is missing or cannot be read. */
    method Read(path: string) returns (r: Option<seq<byte>>)
      ensures r.Some? <==> path in files && path !in unreadable
      ensures r.Some? ==> r.value == files[path]
    {
      if path in files && path !in unreadable {
        r := Some(files[path]);
      } else {
        r := None;
      }
    }

    /** `fs::read_to_string(path).unwrap_or_default()`. */
    method ReadToStringOrEmpty(path: string) returns (s: string)
      ensures s == StoredDigest(files, unreadable, path)
    {
      var bytes := Read(path);
      s := "";
      if bytes.Some? {
        var text := Decode(bytes.value);
        if text.Some? {
          s := text.value;
        }
      }
    }

    /** `File::create` followed by `write_all`: the file is created or
        truncated and holds exactly `data`; nothing changes when creation fails. */
    method CreateAndWrite(path: string, data: seq<byte>) returns (ok: bool)
      modifies this
      ensures ok == (path !in readOnly)
      ensures files == if ok then old(files)[path := data] else old(files)
    {
      ok := path !in readOnly;
      if ok {
        files := files[path := data];
      }
    }
  }

  /** The digest stored in the digest file: its UTF-8 text, or the empty
      string when the file is missing, cannot be read or is not valid UTF-8. */
  function StoredDigest(files: map<string, seq<byte>>, unreadable: set<string>, digestFile: string): string {
    if digestFile !in files || digestFile in unreadable then ""
    else
      match Decode(files[digestFile])
      case None => ""
      case Some(s) => s
  }

  /** Every file outside `touched` is in `after` exactly when it is in
      `before`, with the same bytes. */
  ghost predicate UnchangedExcept(before: map<string, seq<byte>>, after: map<string, seq<byte>>, touched: set<string>) {
    forall q :: q !in touched ==> (q in after <==> q in before) && (q in before ==> after[q] == before[q])
  }

  /** The cache-hit rule for an existing cache file: both digests non-empty and equal. */
  predicate IsCacheHit(remoteDigest: string, storedDigest: string) {
    remoteDigest != "" && storedDigest != "" && storedDigest == remoteDigest
  }

  /** A missing, unreadable or malformed digest file reads as the empty
      string, so it can never give a hit, whatever the registry says. */
  lemma UnreadableDigestMisses(files: map<string, seq<byte>>, unreadable: set<string>, digestFile: string,
                                remoteDigest: string)
    requires digestFile !in files || digestFile in unreadable || Decode(files[digestFile]).None?
    ensures StoredDigest(files, unreadable, digestFile) == ""
    ensures !IsCacheHit(remoteDigest, StoredDigest(files, unreadable, digestFile))
  {
  }

  /** The concatenation of the layers' bytes, in order (`flat_map(|l| l.data)`). */
  function LayerBytes(layers: seq<ImageLayer>): seq<byte> {
    if layers == [] then [] else layers[0].data + LayerBytes(layers[1..])
  }

  /** Each layer's bytes sit, in order, right after those of the layers before it. */
  lemma {:induction false} LayerBytesAppend(a: seq<ImageLayer>, b: seq<ImageLayer>)
    ensures LayerBytes(a + b) == LayerBytes(a) + LayerBytes(b)
  {
    if a == [] {
      assert a + b == b;
    } else {
      assert (a + b)[0] == a[0] && (a + b)[1..] == a[1..] + b;
      LayerBytesAppend(a[1..], b);
    }
  }

  /** A single-layer artifact is cached as exactly that layer's bytes. */
  lemma SingleLayerBytes(layer: ImageLayer)
    ensures LayerBytes([layer]) == layer.data
  {
    assert [layer][1..] == [];
  }

  /** Whether the write succeeded, and the files afterwards. */
  datatype Written = Written(ok: bool, files: map<string, seq<byte>>)

  /** `cache_oci_image`: the cache file is created and receives the layers'
      bytes; then, only when the image carries a digest, the digest file is
      created and receives the digest. The two writes are independent, so a
      failure on the digest file leaves the new cache file in place. */
  function CacheImage(files: map<string, seq<byte>>, readOnly: set<string>, image: ImageData,
                      cacheFile: string, digestFile: string): Written
  {
    if cacheFile in readOnly then Written(false, files)
    else
      var withContent := files[cacheFile := LayerBytes(image.layers)];
      match image.digest
      case None => Written(true, withContent)
      case Some(d) =>
        if digestFile in readOnly then Written(false, withContent)
        else Written(true, withContent[digestFile := Encode(d)])
  }

  /** After a successful cache write the cache file holds the layers' bytes
      and, when the image has a digest, the digest file exists and holds its
      UTF-8 bytes, which read back as the digest. When the image has no
      digest the digest file is untouched: present with the same bytes, or
      absent, as before. A failed write leaves either nothing changed (the
      cache file could not be created) or a new cache file beside a stale
      digest file. Every other file is unchanged. */
  lemma {:induction false} CacheImageContents(files: map<string, seq<byte>>, readOnly: set<string>, image: ImageData,
                                              cacheFile: string, digestFile: string)
    requires cacheFile != digestFile
    ensures var w := CacheImage(files, readOnly, image, cacheFile, digestFile);
      && (w.ok <==> cacheFile !in readOnly && (image.digest.Some? ==> digestFile !in readOnly))
      && (w.ok ==> cacheFile in w.files && w.files[cacheFile] == LayerBytes(image.layers))
      && (w.ok && image.digest.Some? ==>
            && digestFile in w.files && w.files[digestFile] == Encode(image.digest.value)
            && Decode(w.files[digestFile]) == Some(image.digest.value))
      && (image.digest.None? ==>
            && (digestFile in w.files <==> digestFile in files)
            && (digestFile in files ==> w.files[digestFile] == files[digestFile]))
      && (cacheFile in readOnly ==> w.files == files)
      && (!w.ok && cacheFile !in readOnly ==> w.files == files[cacheFile := LayerBytes(image.layers)])
      && (forall p :: p != cacheFile && p != digestFile ==> (p in w.files <==> p in files))
      && (forall p :: p != cacheFile && p != digestFile && p in files ==> w.files[p] == files[p])
  {
    match image.digest
    case None =>
    case Some(d) => DecodeEncode(d);
  }

  /** `cache_oci_image` on the filesystem. */
  method CacheOciImage(fs: FileSystem, image: ImageData, cacheFile: string, digestFile: string) returns (ok: bool)
    modifies fs
    ensures var w := CacheImage(old(fs.files), fs.readOnly, image, cacheFile, digestFile);
      ok == w.ok && fs.files == w.files
  {
    var content := LayerBytes(image.layers);
    ok := fs.CreateAndWrite(cacheFile, content);
    if !ok {
      return;
    }
    match image.digest {
      case None =>
      case Some(d) =>
        ok := fs.CreateAndWrite(digestFile, Encode(d));
    }
  }
}
