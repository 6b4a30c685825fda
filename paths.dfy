/** The file names `generate_csv_endpoint` derives from the upload name: the temp upload path,
    the output base name (`os.path.splitext`) and the two artifact paths. Paths follow POSIX
    `os.path`, whose separator is "/". */
module Paths {
  import opened PyStr

  const UploadFolder := "./uploads"
  const OutputFolder := "./output"

  // ---------------------------------------------------------------------------------------
  // os.path.splitext

  /** No "/" in `p[i..j]`. */
  predicate NoSlash(p: string, i: int, j: int)
    requires 0 <= i <= j <= |p|
  {
    forall k :: i <= k < j ==> p[k] != '/'
  }

  /** `p[i]` is a character other than "." in the same path component as index `d`. */
  predicate NonDotBefore(p: string, i: int, d: int)
    requires 0 <= i < d <= |p|
  {
    p[i] != '.' && NoSlash(p, i, d)
  }

  /** The extension starts at `d`: the last "." of the last path component, preceded in that
      component by something other than dots (so ".bashrc" and "..." have no extension). */
  predicate ExtAt(p: string, d: int) {
    && 0 <= d < |p| && p[d] == '.'
    && (forall k :: d < k < |p| ==> p[k] != '.' && p[k] != '/')
    && (exists i :: 0 <= i < d && NonDotBefore(p, i, d))
  }

  /** The root `os.path.splitext` returns: `p` up to the last ".", when that dot lies after the
      last "/" and something other than a dot comes between them; otherwise all of `p`. */
  function Root(p: string): (root: string)
    ensures |root| <= |p| && root == p[..|root|]
  {
    var sep := RFind(p, '/');
    var dot := RFind(p, '.');
    if dot > sep && exists i :: sep < i < dot && p[i] != '.' then p[..dot] else p
  }

  /** `Root` cuts `p` exactly at its extension, and leaves `p` whole exactly when it has none. */
  lemma RootCutsAtExtension(p: string)
    ensures |Root(p)| < |p| ==> ExtAt(p, |Root(p)|)
    ensures |Root(p)| == |p| ==> forall d :: !ExtAt(p, d)
  {
    var sep := RFind(p, '/');
    var dot := RFind(p, '.');
    if dot > sep && exists i :: sep < i < dot && p[i] != '.' {
      var i :| sep < i < dot && p[i] != '.';
      assert NonDotBefore(p, i, dot);
    } else {
      forall d | 0 <= d < |p| && p[d] == '.' && (forall k :: d < k < |p| ==> p[k] != '.' && p[k] != '/')
        ensures forall i :: 0 <= i < d ==> !NonDotBefore(p, i, d)
      {
        assert d == dot;
        forall i | 0 <= i < d && p[i] != '.' ensures !NoSlash(p, i, d) {
          assert i <= sep;
          assert p[sep] == '/';
        }
      }
    }
  }

  /** `os.path.splitext(p)`, as `genericpath._splitext` computes it: find the last "/" and the
      last "."; when the dot comes later, skip the dots that open the file name and cut at the
      last dot unless only dots precede it. */
  method SplitExt(p: string) returns (root: string, ext: string)
    ensures root + ext == p
    ensures root == Root(p)
  {
    var sepIndex := RFind(p, '/');
    var dotIndex := RFind(p, '.');
    if dotIndex > sepIndex {
      var filenameIndex := sepIndex + 1;
      while filenameIndex < dotIndex
        invariant sepIndex + 1 <= filenameIndex <= dotIndex
        invariant forall j :: sepIndex < j < filenameIndex ==> p[j] == '.'
      {
        if p[filenameIndex..filenameIndex + 1] != "." {
          assert p[filenameIndex..filenameIndex + 1] == [p[filenameIndex]];
          return p[..dotIndex], p[dotIndex..];
        }
        filenameIndex := filenameIndex + 1;
      }
    }
    return p, "";
  }

  /** The extension `splitext` splits off: empty, or a "." followed by neither "." nor "/". */
  lemma ExtensionShape(p: string)
    ensures var ext := p[|Root(p)|..];
      ext == [] || (ext[0] == '.' && forall k :: 0 < k < |ext| ==> ext[k] != '.' && ext[k] != '/')
  {
    RootCutsAtExtension(p);
  }

  // ---------------------------------------------------------------------------------------
  // os.path.join and basename

  /** `os.path.join(a, b)`: an absolute `b` replaces `a`; otherwise a "/" is put between them
      unless `a` is empty or already ends with one. The ensures pin `p` down completely: `b`
      itself when absolute, else `a`, then the separator when one is needed, then `b`. */
  function PathJoin(a: string, b: string): (p: string)
    ensures |b| <= |p| && p[|p| - |b|..] == b
    ensures |b| > 0 && b[0] == '/' ==> p == b
    ensures !(|b| > 0 && b[0] == '/') ==>
      var needsSep := |a| > 0 && a[|a| - 1] != '/';
      && |p| == |a| + (if needsSep then 1 else 0) + |b|
      && p[..|a|] == a
      && (needsSep ==> p[|a|] == '/')
  {
    if |b| > 0 && b[0] == '/' then b
    else if |a| == 0 || a[|a| - 1] == '/' then a + b
    else a + "/" + b
  }

  /** `os.path.basename(p)`: what follows the last "/". */
  function Basename(p: string): (name: string)
    ensures '/' !in name
    ensures |name| <= |p| && name == p[|p| - |name|..]
    ensures |name| == |p| || p[|p| - |name| - 1] == '/'
  {
    p[RFind(p, '/') + 1..]
  }

  /** The temp upload is saved as "<session>_<filename>" in the upload folder. */
  function TempUploadPath(session: string, filename: string): string {
    PathJoin(UploadFolder, session + "_" + filename)
  }

  function CleanedName(base: string): string {
    base + "_cleaned.csv"
  }

  function SuggestionsName(base: string): string {
    base + "_suggestions.txt"
  }

  /** Where the cleaned CSV is saved for an upload called `filename`. */
  function CleanedPath(filename: string): string {
    PathJoin(OutputFolder, CleanedName(Root(filename)))
  }

  /** Where the suggestions file is saved for an upload called `filename`. */
  function SuggestionsPath(filename: string): string {
    PathJoin(OutputFolder, SuggestionsName(Root(filename)))
  }

  /** The file name handed back to the client is the last component of the saved path exactly
      when the base name holds no "/". */
  lemma ReturnedNameIsSavedName(base: string)
    ensures Basename(PathJoin(OutputFolder, CleanedName(base))) == CleanedName(base) <==> '/' !in base
  {
    var name := CleanedName(base);
    if '/' !in base {
      var p := OutputFolder + "/" + name;
      assert '/' !in name;
      assert PathJoin(OutputFolder, name) == p;
      assert p[8] == '/';
      assert RFind(p, '/') == 8;
      assert p[9..] == name;
    } else {
      var k :| 0 <= k < |base| && base[k] == '/';
      assert name[k] == '/';
    }
  }

  /** The text `str(uuid.uuid4())`: 36 characters, lower-case hex digits and dashes. */
  predicate IsUuidText(s: string) {
    |s| == 36 && forall k :: 0 <= k < |s| ==> ('0' <= s[k] <= '9' || 'a' <= s[k] <= 'f' || s[k] == '-')
  }

  /** Two requests with different session ids never share a temp upload, while two uploads
      with the same base name share both output paths. */
  lemma SessionsSeparateUploadsNotOutputs(s1: string, s2: string, f1: string, f2: string)
    requires IsUuidText(s1) && IsUuidText(s2) && s1 != s2
    ensures TempUploadPath(s1, f1) != TempUploadPath(s2, f2)
    ensures Root(f1) == Root(f2) ==>
      CleanedPath(f1) == CleanedPath(f2) && SuggestionsPath(f1) == SuggestionsPath(f2)
  {
    var n1 := s1 + "_" + f1;
    var n2 := s2 + "_" + f2;
    assert n1[0] == s1[0] && n2[0] == s2[0];
    var p1 := UploadFolder + "/" + n1;
    var p2 := UploadFolder + "/" + n2;
    assert TempUploadPath(s1, f1) == p1 && TempUploadPath(s2, f2) == p2;
    var k :| 0 <= k < 36 && s1[k] != s2[k];
    assert p1[10 + k] == s1[k] && p2[10 + k] == s2[k];
  }
}
