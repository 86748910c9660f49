/** The file-name and path checks of FileSystemUtil
    (src/utils/FileSystemUtil.ts). */
module FileSystem {
  import opened Common

  const UploadBasePath: string := "uploads"
  const DangerousExtensions: seq<string> := [".exe", ".bat", ".cmd", ".scr", ".vbs", ".js"]
  const AllowedMimeTypes: seq<string> := [
    "image/png", "image/jpeg", "image/jpg", "application/json", "text/json",
    "application/vnd.openxmlformats-officedocument.wordprocessingml.document",
    "application/msword", "text/plain", "application/pdf"]
  const DangerousPatterns: seq<string> := ["../", "..\\", "~/", "/etc/", "/root/", "C:\\"]

  // ---------------------------------------------------------------------
  // sanitizeFileName

  /** The characters of `[<>:"|?*\\]`. */
  predicate IsForbiddenChar(c: char)
  {
    c == '<' || c == '>' || c == ':' || c == '"' || c == '|' || c == '?' || c == '*' || c == '\\'
  }

  /** `replace(/[<>:"|?*\\]/g, '_')`. */
  function ReplaceForbidden(s: string): (r: string)
    ensures |r| == |s|
    ensures forall i | 0 <= i < |s| :: r[i] == if IsForbiddenChar(s[i]) then '_' else s[i]
  {
    if s == [] then [] else [if IsForbiddenChar(s[0]) then '_' else s[0]] + ReplaceForbidden(s[1..])
  }

  /** `replace(/\s+/g, '_')`: every run of white space becomes one
      underscore; `inRun` says the text before `s` ended in white space. */
  function CollapseSpaces(s: string, inRun: bool): (r: string)
    ensures |r| <= |s|
    ensures forall c | c in r :: !IsJsSpace(c) && (c in s || c == '_')
  {
    if s == [] then []
    else if IsJsSpace(s[0]) then (if inRun then [] else "_") + CollapseSpaces(s[1..], true)
    else [s[0]] + CollapseSpaces(s[1..], false)
  }

  /** sanitizeFileName. */
  function SanitizeFileName(fileName: string): (r: string)
  {
    JsTrim(SqueezeUnderscores(CollapseSpaces(ReplaceForbidden(fileName), false), false))
  }

  /** A safe file name: no forbidden character, no white space, no "__". */
  predicate SafeFileName(s: string)
  {
    (forall i | 0 <= i < |s| :: !IsForbiddenChar(s[i]) && !IsJsSpace(s[i])) && !Contains(s, "__")
  }

  /** A text without white space has nothing to trim. */
  lemma TrimWithoutSpace(s: string)
    requires forall c | c in s :: !IsJsSpace(c)
    ensures JsTrim(s) == s
  {
    if s != [] {
      assert s[0] in s && s[|s| - 1] in s;
    }
  }

  /** sanitizeFileName yields a safe name. */
  lemma SanitizedIsSafe(fileName: string)
    ensures SafeFileName(SanitizeFileName(fileName))
  {
    var replaced := ReplaceForbidden(fileName);
    var collapsed := CollapseSpaces(replaced, false);
    var squeezed := SqueezeUnderscores(collapsed, false);
    forall c | c in replaced
      ensures !IsForbiddenChar(c)
    {
      var i :| 0 <= i < |replaced| && replaced[i] == c;
    }
    TrimWithoutSpace(squeezed);
    NoDoubleIffNotContains(squeezed);
  }

  /** A safe name passes through every step unchanged. */
  lemma SafeNameKept(s: string)
    requires SafeFileName(s)
    ensures SanitizeFileName(s) == s
  {
    assert ReplaceForbidden(s) == s;
    NoSpacesKept(s, false);
    NoDoubleIffNotContains(s);
    SqueezeKeeps(s, false);
    TrimWithoutSpace(s);
  }

  lemma {:induction false} NoSpacesKept(s: string, inRun: bool)
    requires forall i | 0 <= i < |s| :: !IsJsSpace(s[i])
    ensures CollapseSpaces(s, inRun) == s
  {
    if s != [] {
      NoSpacesKept(s[1..], false);
    }
  }

  /** Sanitizing twice is sanitizing once. */
  lemma SanitizeIdempotent(fileName: string)
    ensures SanitizeFileName(SanitizeFileName(fileName)) == SanitizeFileName(fileName)
  {
    SanitizedIsSafe(fileName);
    SafeNameKept(SanitizeFileName(fileName));
  }

  // ---------------------------------------------------------------------
  // getFileExtension, validateFileExtension, validateMimeType

  /** `s.lastIndexOf(c)`, None for -1. */
  function LastIndexOf(s: string, c: char): (r: Option<nat>)
    ensures r.Some? ==> r.value < |s| && s[r.value] == c && c !in s[r.value + 1..]
    ensures r.None? ==> c !in s
  {
    if s == [] then None
    else if s[|s| - 1] == c then Some(|s| - 1)
    else
      var r := LastIndexOf(s[..|s| - 1], c);
      assert s == s[..|s| - 1] + [s[|s| - 1]];
      if r.Some? then assert s[r.value + 1..] == s[..|s| - 1][r.value + 1..] + [s[|s| - 1]]; r
      else r
  }

  /** getFileExtension: from the last dot on, when that dot is not the
      first character. */
  function GetFileExtension(fileName: string): (r: string)
    ensures r != [] ==> r[0] == '.' && '.' !in r[1..] && |r| < |fileName| && EndsWith(fileName, r)
    ensures r != [] <==> exists i | 0 < i < |fileName| :: fileName[i] == '.'
  {
    match LastIndexOf(fileName, '.')
    case Some(i) =>
      if i > 0 then
        assert fileName[i..][1..] == fileName[i + 1..];
        fileName[i..]
      else
        assert forall j | 0 < j < |fileName| :: fileName[j] != '.' by {
          forall j | 0 < j < |fileName| ensures fileName[j] != '.' {
            assert fileName[j] == fileName[1..][j - 1];
          }
        }
        []
    case None => []
  }

  /** validateFileExtension: the lower-cased extension is not one of the
      dangerous ones. */
  function ValidateFileExtension(fileName: string): (r: bool)
    ensures r <==> AsciiLowerString(GetFileExtension(fileName)) !in DangerousExtensions
  {
    var extension := AsciiLowerString(GetFileExtension(fileName));
    IndexIn(extension, DangerousExtensions) == |DangerousExtensions|
  }

  /** `xs.indexOf(x)`, or |xs| when absent (`includes` is the index being
      below |xs|). */
  function IndexIn(x: string, xs: seq<string>): (r: nat)
    ensures r <= |xs| && (r < |xs| <==> x in xs) && (r < |xs| ==> xs[r] == x)
  {
    if xs == [] then 0 else if xs[0] == x then 0 else 1 + IndexIn(x, xs[1..])
  }

  /** An extension as the list writes it: a dot, no further dot, no
      upper-case ASCII letter. */
  predicate LowerExtension(e: string)
  {
    e != [] && e[0] == '.' && '.' !in e[1..] && forall i | 0 <= i < |e| :: !('A' <= e[i] <= 'Z')
  }

  lemma DangerousAreLower(k: nat)
    requires k < |DangerousExtensions|
    ensures LowerExtension(DangerousExtensions[k])
  {
  }

  /** A dangerous extension is refused after any name, in lower or upper
      case. */
  lemma DangerousRefused(base: string, k: nat)
    requires base != [] && k < |DangerousExtensions|
    ensures !ValidateFileExtension(base + DangerousExtensions[k])
    ensures !ValidateFileExtension(base + AsciiUpperString(DangerousExtensions[k]))
  {
    var e := DangerousExtensions[k];
    DangerousAreLower(k);
    LowerKeeps(e);
    ExtensionOfSuffix(base, e);
    UpperRoundTrip(e);
    ExtensionOfSuffix(base, AsciiUpperString(e));
  }

  lemma LowerKeeps(e: string)
    requires LowerExtension(e)
    ensures AsciiLowerString(e) == e
  {
  }

  /** Upper-casing an extension keeps its dots where they are, and
      lower-casing it again gives it back. */
  lemma UpperRoundTrip(e: string)
    requires LowerExtension(e)
    ensures var u := AsciiUpperString(e);
            u[0] == '.' && '.' !in u[1..] && AsciiLowerString(u) == e
  {
    var u := AsciiUpperString(e);
    forall i | 1 <= i < |u|
      ensures u[i] != '.'
    {
      assert e[i] == e[1..][i - 1];
    }
  }

  /** The extension of a name ending in a dot-led, dot-free suffix is that suffix. */
  lemma ExtensionOfSuffix(base: string, e: string)
    requires base != [] && e != [] && e[0] == '.' && '.' !in e[1..]
    ensures GetFileExtension(base + e) == e
  {
    var s := base + e;
    assert s[|base|] == '.';
    assert s[|base|..] == e;
  }

  /** A name with no dot after its first character has no extension and
      passes. */
  lemma NoExtensionPasses(fileName: string)
    requires forall i | 0 < i < |fileName| :: fileName[i] != '.'
    ensures GetFileExtension(fileName) == [] && ValidateFileExtension(fileName)
  {
  }

  /** validateMimeType. */
  function ValidateMimeType(mimeType: string): (r: bool)
    ensures r <==> mimeType in AllowedMimeTypes
  {
    IndexIn(mimeType, AllowedMimeTypes) < |AllowedMimeTypes|
  }

  // ---------------------------------------------------------------------
  // generateFilePath, validateFilePath

  /** A project id as generateFilePath receives it: a number or a string. */
  datatype ProjectId = NumberId(n: nat) | TextId(s: string)

  function ProjectIdText(projectId: ProjectId): string
  {
    match projectId
    case NumberId(n) => NatToString(n)
    case TextId(s) => s
  }

  /** generateFilePath: `uploads/project_<id>/<name>`. */
  function GenerateFilePath(projectId: ProjectId, uniqueFileName: string): (r: string)
    ensures StartsWith(r, "uploads/project_") && EndsWith(r, "/" + uniqueFileName)
  {
    UploadBasePath + "/project_" + ProjectIdText(projectId) + "/" + uniqueFileName
  }

  /** What validateFilePath accepts: no dangerous pattern, and under
      uploads/ once backslashes read as slashes. */
  predicate IsSafePath(filePath: string)
  {
    (forall k | 0 <= k < |DangerousPatterns| :: !Contains(filePath, DangerousPatterns[k]))
    && StartsWith(ReplaceChar(filePath, '\\', "/"), UploadBasePath + "/")
  }

  /** validateFilePath. */
  method ValidateFilePath(filePath: string) returns (ok: bool)
    ensures ok == IsSafePath(filePath)
  {
    for k := 0 to |DangerousPatterns|
      invariant forall j | 0 <= j < k :: !Contains(filePath, DangerousPatterns[j])
    {
      var pattern := DangerousPatterns[k];
      ContainsIffIndexOf(filePath, pattern);
      if IndexOfFrom(filePath, pattern, 0).Some? {
        return false;
      }
    }
    var normalizedPath := ReplaceChar(filePath, '\\', "/");
    ok := StartsWith(normalizedPath, UploadBasePath + "/");
  }

  /** The fixed head of every generated path. */
  const PathHead: string := "uploads/project_"

  lemma PathHeadShape()
    ensures |PathHead| == 16 && PathHead[6] == 's' && '\\' !in PathHead
    ensures forall j | 0 <= j < 16 && PathHead[j] == '/' :: j == 7
    ensures StartsWith(PathHead, UploadBasePath + "/")
  {
  }

  /** The shape of a generated path with a numeric id and a name without
      slashes or backslashes: its only slashes are the two the template
      writes, each preceded by a letter or a digit, and it has no
      backslash. */
  lemma GeneratedShape(n: nat, name: string)
    requires '/' !in name && '\\' !in name
    ensures var id := NatToString(n);
            var path := GenerateFilePath(NumberId(n), name);
            && |path| == 17 + |id| + |name|
            && (forall j | 0 <= j < |path| && path[j] == '/' :: j == 7 || j == 16 + |id|)
            && '\\' !in path
            && path[6] == 's' && IsAsciiDigit(path[15 + |id|])
            && StartsWith(path, UploadBasePath + "/")
  {
    var id := NatToString(n);
    var path := GenerateFilePath(NumberId(n), name);
    PathHeadShape();
    assert path == PathHead + id + "/" + name;
    assert forall j | 0 <= j < 16 :: path[j] == PathHead[j];
    assert forall j | 16 <= j < 16 + |id| :: path[j] == id[j - 16];
    assert forall j | 16 + |id| < j < |path| :: path[j] == name[j - 17 - |id|];
  }

  /** A path generated for a numeric project id and a name without slashes
      or backslashes passes validateFilePath. */
  lemma GeneratedPathSafe(n: nat, name: string)
    requires '/' !in name && '\\' !in name
    ensures IsSafePath(GenerateFilePath(NumberId(n), name))
  {
    var id := NatToString(n);
    var path := GenerateFilePath(NumberId(n), name);
    GeneratedShape(n, name);
    forall k, i | 0 <= k < |DangerousPatterns| && 0 <= i <= |path| - |DangerousPatterns[k]|
      ensures !OccursAt(path, DangerousPatterns[k], i)
    {
      var p := DangerousPatterns[k];
      var last := i + |p| - 1;
      assert path[i..i + |p|][|p| - 1] == path[last];
      if k == 1 || k == 5 {
        assert path[last] != p[|p| - 1];
      } else if k == 3 || k == 4 {
        assert path[i..i + |p|][0] == path[i];
        assert path[i] != '/' || path[last] != '/';
      } else {
        assert path[i..i + |p|][|p| - 2] == path[last - 1];
        assert path[last] != '/' || path[last - 1] != p[|p| - 2];
      }
    }
    ReplaceCharAbsent(path, '\\', "/");
  }
}
