/** The pure helpers of src/utils/file-utils.ts: the content identifier of a
    file, the upload directory, and the metadata projection. */
module FileUtils {
  import opened Outcomes
  import opened FileModel

  predicate IsLowerHex(c: char)
  {
    '0' <= c <= '9' || 'a' <= c <= 'f'
  }

  predicate IsHexDigest(s: string)
  {
    |s| == 40 && forall i :: 0 <= i < |s| ==> IsLowerHex(s[i])
  }

  /** A SHA-1 digest written as 40 lower-case hexadecimal characters, the form
      `createHash('sha1').update(s).digest('hex')` produces (FIPS 180-4). */
  type Digest = s: string | IsHexDigest(s) witness "0000000000000000000000000000000000000000"

  /** `getHash(s)` with its default algorithm and encoding; SHA-1 itself is the
      parameter `sha1`, any function from strings to digests. */
  function GetHash(sha1: string -> Digest, s: string): (d: Digest)
    ensures |d| == 40 && forall i :: 0 <= i < |d| ==> IsLowerHex(d[i])
    ensures d == sha1(s)
  {
    sha1(s)
  }

  /** Index of the last occurrence of `c` in `s`, or -1. */
  function LastIndexOf(s: string, c: char): (i: int)
    ensures -1 <= i < |s|
    ensures i >= 0 ==> s[i] == c && forall j :: i < j < |s| ==> s[j] != c
    ensures i == -1 ==> c !in s
    decreases |s|
  {
    if |s| == 0 then -1
    else if s[|s| - 1] == c then |s| - 1
    else LastIndexOf(s[..|s| - 1], c)
  }

  function TrimTrailingSlashes(path: string): (t: string)
    ensures |t| <= |path| && t == path[..|t|]
    ensures |t| == 0 || t[|t| - 1] != '/'
    decreases |path|
  {
    if |path| > 0 && path[|path| - 1] == '/' then TrimTrailingSlashes(path[..|path| - 1])
    else path
  }

  /** The last segment of a path, trailing slashes ignored. */
  function LastSegment(path: string): (seg: string)
    ensures '/' !in seg
  {
    var t := TrimTrailingSlashes(path);
    t[LastIndexOf(t, '/') + 1..]
  }

  /** Node's `path.extname` (POSIX flavour): the last segment from its last "."
      on; empty when the segment has no ".", when that "." is the segment's
      first character, and for the segment "..". */
  function ExtName(path: string): string
  {
    var seg := LastSegment(path);
    var dot := LastIndexOf(seg, '.');
    if dot <= 0 || seg == ".." then "" else seg[dot..]
  }

  /** What an extension looks like: empty, or a "." followed by characters that
      are neither "." nor "/". */
  lemma ExtNameShape(path: string)
    ensures var ext := ExtName(path);
      ext == "" || (ext[0] == '.' && '/' !in ext && '.' !in ext[1..])
  {
    var seg := LastSegment(path);
    var dot := LastIndexOf(seg, '.');
    if 0 < dot && seg != ".." {
      var ext := seg[dot..];
      forall j | 1 <= j < |ext| ensures ext[j] != '.' {
        assert ext[j] == seg[dot + j];
      }
    }
  }

  /** The last occurrence is the one with no further occurrence after it. */
  lemma LastIndexOfIs(s: string, c: char, i: nat)
    requires i < |s| && s[i] == c && c !in s[i + 1..]
    ensures LastIndexOf(s, c) == i
  {
    forall k | i < k < |s| ensures s[k] != c {
      assert s[i + 1..][k - i - 1] == s[k];
    }
  }

  /** A name without "." has no extension. */
  lemma ExtNameWithoutDot(path: string)
    requires '.' !in path
    ensures ExtName(path) == ""
  {
    var t := TrimTrailingSlashes(path);
    var start := LastIndexOf(t, '/') + 1;
    var seg := t[start..];
    assert seg == LastSegment(path);
    forall k | 0 <= k < |seg| ensures seg[k] != '.' {
      assert seg[k] == path[start + k];
    }
  }

  /** For a plain file name (no "/"), the extension is the suffix from the last
      "." whenever that "." is not the first character. */
  lemma ExtNameOfPlainName(name: string, dot: nat)
    requires '/' !in name && name != ".."
    requires 0 < dot < |name| && name[dot] == '.' && '.' !in name[dot + 1..]
    ensures ExtName(name) == name[dot..]
  {
    assert TrimTrailingSlashes(name) == name;
    assert LastIndexOf(name, '/') == -1;
    assert LastSegment(name) == name;
    LastIndexOfIs(name, '.', dot);
  }

  /** `getHashedFileName(file)` for a file whose `originalname` is `originalname`.
      The identifier splits into the 40-character digest of the name and the
      name's extension; both can be read back from it. */
  function HashedFileName(sha1: string -> Digest, originalname: string): (id: string)
    ensures |id| == 40 + |ExtName(originalname)|
    ensures IsHexDigest(id[..40]) && id[..40] == sha1(originalname)
    ensures id[40..] == ExtName(originalname)
  {
    GetHash(sha1, originalname) + ExtName(originalname)
  }

  /** Equal identifiers come only from names with equal digests and extensions. */
  lemma HashedFileNameDetermines(sha1: string -> Digest, a: string, b: string)
    requires HashedFileName(sha1, a) == HashedFileName(sha1, b)
    ensures sha1(a) == sha1(b) && ExtName(a) == ExtName(b)
  {
  }

  /** Without an extension the identifier is the digest alone. */
  lemma HashedFileNameWithoutExtension(sha1: string -> Digest, originalname: string)
    requires '.' !in originalname
    ensures HashedFileName(sha1, originalname) == sha1(originalname)
  {
    ExtNameWithoutDot(originalname);
  }

  /** The identifier of a plain name with an extension keeps that extension
      (for "report.pdf", the digest followed by ".pdf"). */
  lemma HashedFileNameKeepsExtension(sha1: string -> Digest, originalname: string, dot: nat)
    requires '/' !in originalname && originalname != ".."
    requires 0 < dot < |originalname| && originalname[dot] == '.' && '.' !in originalname[dot + 1..]
    ensures HashedFileName(sha1, originalname) == sha1(originalname) + originalname[dot..]
  {
    ExtNameOfPlainName(originalname, dot);
  }

  const DefaultRootDirectory: string := "tmp_files"
  const DefaultFallbackDestination: string := "unknown"

  /** `getFilePath(destination, rootDirectory, fallbackDestination)`, with the
      process's working directory `cwd` as a parameter; a missing destination
      is the empty string. */
  function GetFilePath(cwd: string, destination: string,
                       rootDirectory: string, fallbackDestination: string): (p: string)
    ensures var prefix := cwd + "/" + rootDirectory + "/";
      && |prefix| <= |p| && p[..|prefix|] == prefix
      && (destination != "" ==> p[|prefix|..] == destination)
      && (destination == "" ==> p[|prefix|..] == fallbackDestination)
  {
    cwd + "/" + rootDirectory + "/" + (if destination != "" then destination else fallbackDestination)
  }

  /** The directory is `cwd/rootDirectory/` followed by the destination, or by
      the fallback when the destination is empty; a separator-free destination
      is the path's last segment. */
  lemma FilePathLayout(cwd: string, destination: string, rootDirectory: string, fallbackDestination: string)
    requires '/' !in destination && '/' !in fallbackDestination
    requires fallbackDestination != ""
    ensures var p := GetFilePath(cwd, destination, rootDirectory, fallbackDestination);
      var prefix := cwd + "/" + rootDirectory + "/";
      && |prefix| <= |p| && p[..|prefix|] == prefix
      && LastSegment(p) == (if destination != "" then destination else fallbackDestination)
  {
    var d := if destination != "" then destination else fallbackDestination;
    var p := GetFilePath(cwd, destination, rootDirectory, fallbackDestination);
    var prefix := cwd + "/" + rootDirectory + "/";
    assert p == prefix + d;
    assert TrimTrailingSlashes(p) == p;
    assert p[|prefix| - 1] == '/';
    forall k | |prefix| <= k < |p| ensures p[k] != '/' {
      assert p[k] == d[k - |prefix|];
    }
    assert '/' !in p[|prefix|..];
    LastIndexOfIs(p, '/', |prefix| - 1);
    assert p[|prefix|..] == d;
  }

  /** With the defaults, a request without destination lands in `cwd/tmp_files/unknown`. */
  lemma DefaultFilePath(cwd: string)
    ensures GetFilePath(cwd, "", DefaultRootDirectory, DefaultFallbackDestination)
         == cwd + "/tmp_files/unknown"
  {
  }

  /** `getOriginalFileMetadata(file)`: the descriptive fields of an upload, with
      `originalname` renamed to `name`, and no `id` or `updatedAt`. */
  function GetOriginalFileMetadata(file: BufferedFile): (m: StoredFileMetadata)
    ensures m.encoding == file.encoding && m.mimetype == file.mimetype && m.size == file.size
    ensures m.name == file.originalname
    ensures m.id.None? && m.updatedAt.None? && m.fileSrc.None?
  {
    StoredFileMetadata(None, file.originalname, file.encoding, file.mimetype, file.size, None, None)
  }

  /** The arguments a Node-style callback receives. */
  datatype CallbackArgs = CallbackArgs(error: Option<string>, value: string)

  /** `setHashName(req, file, cb)`: what it passes to the callback. */
  function SetHashName(sha1: string -> Digest, file: BufferedFile): (args: CallbackArgs)
    ensures args.error.None?
    ensures args.value == HashedFileName(sha1, file.originalname)
  {
    CallbackArgs(None, HashedFileName(sha1, file.originalname))
  }
}
