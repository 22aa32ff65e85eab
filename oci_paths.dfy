/** The cache-file naming of the fetcher: `prune_filepath`, `Path::join` of a
    relative name and `PathBuf::set_extension`, and the two paths derived
    from a normalized reference. Paths are strings with `/` as separator. */
module OciPaths {

  import opened Text

  /** The three characters `prune_filepath` rewrites. */
  predicate IsPruned(c: char) {
    c == ':' || c == '/' || c == '.'
  }

  /** What one character of a reference becomes in its cache-file name. */
  function PruneChar(c: char): char {
    if IsPruned(c) then '_' else c
  }

  /** `prune_filepath`: `:`, then `/`, then `.` are each replaced by `_`. */
  function PruneFilepath(img: string): (r: string)
    ensures |r| == |img|
    ensures forall i :: 0 <= i < |img| ==> r[i] == PruneChar(img[i])
  {
    ReplaceChar(ReplaceChar(ReplaceChar(img, ':', '_'), '/', '_'), '.', '_')
  }

  /** The pruned name has no separator, no `:` and no `.` left in it. */
  lemma PrunedHasNoSeparator(img: string)
    ensures forall i :: 0 <= i < |PruneFilepath(img)| ==> !IsPruned(PruneFilepath(img)[i])
  {
  }

  /** Pruning a pruned name changes nothing. */
  lemma PruneIdempotent(img: string)
    ensures PruneFilepath(PruneFilepath(img)) == PruneFilepath(img)
  {
  }

  /** Exactly which references share a cache-file name: those of the same
      length that agree once `:`, `/` and `.` are all read as `_`. */
  lemma PruneCollidesIff(x: string, y: string)
    ensures PruneFilepath(x) == PruneFilepath(y) <==>
            |x| == |y| && forall i :: 0 <= i < |x| ==> PruneChar(x[i]) == PruneChar(y[i])
  {
    if PruneFilepath(x) == PruneFilepath(y) {
      forall i | 0 <= i < |x| ensures PruneChar(x[i]) == PruneChar(y[i]) {
        assert PruneFilepath(x)[i] == PruneFilepath(y)[i];
      }
    }
  }

  /** The substitution is lossy: a reference with a `:` and the same
      reference with a `/`, a `.` or a `_` in its place share one cache name. */
  lemma PruneCollision(pre: string, post: string, sep: char)
    requires sep == '/' || sep == '.' || sep == '_'
    ensures pre + [':'] + post != pre + [sep] + post
    ensures PruneFilepath(pre + [':'] + post) == PruneFilepath(pre + [sep] + post)
  {
    var x, y := pre + [':'] + post, pre + [sep] + post;
    assert x[|pre|] != y[|pre|];
    forall i | 0 <= i < |x| ensures PruneChar(x[i]) == PruneChar(y[i]) {
      if i != |pre| {
        assert x[i] == y[i];
      }
    }
    PruneCollidesIff(x, y);
  }

  /** What `Path::join` puts before a relative name: the directory and a
      separator unless the directory is empty or already ends in one. */
  function JoinPrefix(dir: string): (r: string)
    ensures r == [] || r[|r| - 1] == '/'
  {
    if dir == [] then [] else if dir[|dir| - 1] == '/' then dir else dir + "/"
  }

  /** `Path::join` of a directory and a relative name. An absolute name,
      which `Path::join` would put in place of the directory, is outside this
      model; the fetcher only joins pruned names, which hold no `/`. */
  function Join(dir: string, name: string): string {
    JoinPrefix(dir) + name
  }

  /** The part of `name` that `Path::file_stem` keeps: everything before the
      last `.`, unless that dot is the first character or there is none. */
  function FileStem(name: string): (r: string)
    ensures |r| <= |name| && r == name[..|r|]
  {
    var dot := LastIndexOf(name, '.');
    if dot <= 0 then name else name[..dot]
  }

  /** `PathBuf::set_extension`: the file name (the part after the last `/`)
      keeps its stem and gets `.ext`; a path without a file name is left as it is. */
  function SetExtension(path: string, ext: string): string {
    var start := LastIndexOf(path, '/') + 1;
    var name := path[start..];
    if name == "" || name == "." || name == ".." then path
    else path[..start] + FileStem(name) + (if ext == "" then "" else "." + ext)
  }

  /** The extension `set_extension` gives the digest file. */
  const DigestExtension := "digest"

  /** `output_dir.join(pruned)`. */
  function CacheFilePath(dir: string, img: string): string {
    Join(dir, PruneFilepath(img))
  }

  /** `output_dir.join(pruned)` followed by `set_extension("digest")`. */
  function DigestFilePath(dir: string, img: string): string {
    SetExtension(CacheFilePath(dir, img), DigestExtension)
  }

  /** Joining the same directory with two names gives the same path only for the same name. */
  lemma JoinInjective(dir: string, a: string, b: string)
    ensures Join(dir, a) == Join(dir, b) <==> a == b
  {
    var p := JoinPrefix(dir);
    assert a == Join(dir, a)[|p|..] && b == Join(dir, b)[|p|..];
  }

  /** For a non-empty name without `/` and `.`, `set_extension` appends and never replaces. */
  lemma {:induction false} SetExtensionAppends(dir: string, name: string, ext: string)
    requires name != [] && ext != []
    requires forall i :: 0 <= i < |name| ==> name[i] != '/' && name[i] != '.'
    ensures SetExtension(Join(dir, name), ext) == Join(dir, name) + "." + ext
  {
    var p := JoinPrefix(dir);
    var path := p + name;
    LastSlashOfJoin(dir, name);
    NoDotMeansWholeStem(name);
    assert path[|p|..] == name;
    assert path[..|p|] == p;
  }

  lemma LastSlashOfJoin(dir: string, name: string)
    requires forall i :: 0 <= i < |name| ==> name[i] != '/'
    ensures LastIndexOf(Join(dir, name), '/') == |JoinPrefix(dir)| - 1
  {
    var p := JoinPrefix(dir);
    var path := p + name;
    var r := LastIndexOf(path, '/');
    if p != [] {
      assert path[|p| - 1] == '/';
    }
  }

  lemma NoDotMeansWholeStem(name: string)
    requires forall i :: 0 <= i < |name| ==> name[i] != '.'
    ensures FileStem(name) == name
  {
  }

  /** The digest file is the cache file with `.digest` appended, for every
      reference that is not empty. */
  lemma DigestFileAppendsSuffix(dir: string, img: string)
    requires img != []
    ensures DigestFilePath(dir, img) == CacheFilePath(dir, img) + "." + DigestExtension
  {
    var name := PruneFilepath(img);
    PrunedHasNoSeparator(img);
    assert forall i :: 0 <= i < |name| ==> name[i] != '/' && name[i] != '.';
    SetExtensionAppends(dir, name, DigestExtension);
  }

  /** A name without a dot, joined to a directory, never equals a name with
      a dotted extension joined to the same directory. */
  lemma JoinNeverAliasesSuffixed(dir: string, plain: string, stem: string, ext: string)
    requires forall i :: 0 <= i < |plain| ==> plain[i] != '.'
    ensures Join(dir, plain) != Join(dir, stem) + "." + ext
  {
    var d := stem + "." + ext;
    assert Join(dir, stem) + "." + ext == Join(dir, d);
    assert d[|stem|] == '.';
    if |plain| == |d| {
      assert plain[|stem|] != d[|stem|];
    }
    JoinInjective(dir, plain, d);
  }

  /** A digest file never coincides with any cache file in the same directory,
      whatever the two references are. */
  lemma CacheAndDigestFilesNeverAlias(dir: string, img1: string, img2: string)
    requires img2 != []
    ensures CacheFilePath(dir, img1) != DigestFilePath(dir, img2)
  {
    DigestFileAppendsSuffix(dir, img2);
    PrunedHasNoSeparator(img1);
    JoinNeverAliasesSuffixed(dir, PruneFilepath(img1), PruneFilepath(img2), DigestExtension);
  }
}
