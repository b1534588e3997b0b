/** Paths in the component form `std::path::Path` compares them in: a root (a drive
    prefix and/or root separator such as `C:\`, `C:` or `\`, or "" for a relative
    path) followed by the normal components. */
module Paths {
  import opened Wrappers
  import opened Text

  datatype Path = Path(root: string, parts: seq<string>)

  /** `std::path::Component` on Windows, without `.` and `..` handling: a drive
      prefix, the root separator, or a normal name. */
  datatype Component = Prefix(text: string) | RootDir | Normal(name: string)

  /** The parsed prefix: a drive prefix (`Prefix::Disk`) keeps its letter upper-cased,
      so `c:` and `C:` are the same drive; any other prefix is kept as written. */
  function PrefixComponent(text: string): Component {
    if |text| == 2 && text[1] == ':' && IsAsciiLetter(text[0]) then Prefix([UpperChar(text[0]), ':'])
    else Prefix(text)
  }

  /** The components a root spells: `C:\` is a prefix and a root separator, `C:` a
      prefix alone, `\` a root separator alone, and "" nothing at all. */
  function RootComponents(root: string): seq<Component> {
    if root == "" then []
    else if root[|root| - 1] != '\\' then [PrefixComponent(root)]
    else if |root| == 1 then [RootDir]
    else [PrefixComponent(root[..|root| - 1]), RootDir]
  }

  /** `Path::components`. */
  function Components(p: Path): seq<Component> {
    RootComponents(p.root) + seq(|p.parts|, i requires 0 <= i < |p.parts| => Normal(p.parts[i]))
  }

  /** `PathBuf::join` with a single plain name. */
  function Join(p: Path, name: string): Path {
    Path(p.root, p.parts + [name])
  }

  /** `Path::starts_with`: the base's components are a prefix of the path's, so a
      base with no components at all is a prefix of every path. */
  predicate StartsWith(p: Path, base: Path) {
    var c, b := Components(p), Components(base);
    |b| <= |c| && c[..|b|] == b
  }

  /** A path starts with a base exactly when its components are the base's followed by
      some more. */
  lemma StartsWithMeansPrefix(p: Path, base: Path)
    ensures StartsWith(p, base) <==> exists rest :: Components(p) == Components(base) + rest
  {
    var c, b := Components(p), Components(base);
    if StartsWith(p, base) {
      assert c == b + c[|b|..];
    }
  }

  /** `Path::parent`: none for a bare root or an empty path. */
  function Parent(p: Path): Option<Path> {
    if |p.parts| == 0 then None else Some(Path(p.root, p.parts[..|p.parts| - 1]))
  }

  /** `Path::file_name`: the last component, unless the path ends in `..` or has none. */
  function FileName(p: Path): Option<string> {
    if |p.parts| == 0 || p.parts[|p.parts| - 1] == ".." then None
    else Some(p.parts[|p.parts| - 1])
  }

  /** Position of the last '.' in a name. */
  function LastDot(name: string): (r: Option<nat>)
    ensures r.Some? ==> r.value < |name| && name[r.value] == '.'
    ensures r.Some? ==> forall k :: r.value < k < |name| ==> name[k] != '.'
    ensures r.None? ==> forall k :: 0 <= k < |name| ==> name[k] != '.'
    decreases |name|
  {
    if |name| == 0 then None
    else if name[|name| - 1] == '.' then Some(|name| - 1)
    else LastDot(name[..|name| - 1])
  }

  /** The stem/extension split behind `Path::file_stem` and `Path::extension`: a name is
      split at its last dot, except that a name without a dot, or whose only dot is its
      first character (`.dat`), has no extension at all; nor has `..`. */
  function SplitExtension(name: string): (r: (string, Option<string>))
    ensures r.1.None? ==> r.0 == name && (name == ".." || forall k :: 0 < k < |name| ==> name[k] != '.')
    ensures r.1.Some? ==> && name != ".." && |r.0| > 0 && r.0 + "." + r.1.value == name
                          && forall k :: 0 <= k < |r.1.value| ==> r.1.value[k] != '.'
  {
    if name == ".." then (name, None)
    else match LastDot(name)
    case None => (name, None)
    case Some(i) => if i == 0 then (name, None) else (name[..i], Some(name[i + 1..]))
  }

  function Extension(p: Path): Option<string> {
    match FileName(p)
    case None => None
    case Some(n) => SplitExtension(n).1
  }

  function JoinParts(parts: seq<string>): string
    decreases |parts|
  {
    if |parts| == 0 then ""
    else if |parts| == 1 then parts[0]
    else parts[0] + "\\" + JoinParts(parts[1..])
  }

  /** The text of a path with Windows separators. */
  function Render(p: Path): string {
    p.root + JoinParts(p.parts)
  }

  /** A base without components, the empty path, is a prefix of every path. */
  lemma EmptyBasePrefixesEverything(p: Path)
    ensures StartsWith(p, Path("", []))
  {
    assert Components(Path("", [])) == [];
  }

  /** A bare drive is a prefix of an absolute path on that drive, but a drive's root is
      not a prefix of a drive-relative path, and another drive is a prefix of neither. */
  lemma DrivePrefixExamples()
    ensures StartsWith(Path("C:\\", ["Games"]), Path("C:", []))
    ensures !StartsWith(Path("C:", ["Games"]), Path("C:\\", []))
    ensures !StartsWith(Path("C:\\", ["Games"]), Path("D:\\", []))
  {
    assert "C:\\"[..2] == "C:" && "D:\\"[..2] == "D:";
    assert Components(Path("C:\\", ["Games"])) == [Prefix("C:"), RootDir, Normal("Games")];
    assert Components(Path("C:", ["Games"])) == [Prefix("C:"), Normal("Games")];
    assert Components(Path("C:", ["Games"]))[..2][1] == Normal("Games");
    assert Components(Path("C:", [])) == [Prefix("C:")];
    assert Components(Path("C:\\", [])) == [Prefix("C:"), RootDir];
    assert Components(Path("D:\\", [])) == [Prefix("D:"), RootDir];
  }

  /** The case of a drive letter does not matter: a drive root (`C:`, or `C:\` with
      the separator) spelled with a lower-case letter has the same components as with
      the upper-case one. */
  lemma DriveLetterCaseIgnored(d: char, withSep: bool)
    requires 'A' <= d <= 'Z'
    ensures var sep := if withSep then "\\" else "";
            RootComponents([LowerChar(d), ':'] + sep) == RootComponents([d, ':'] + sep)
  {
    var sep := if withSep then "\\" else "";
    var low, up := [LowerChar(d), ':'] + sep, [d, ':'] + sep;
    assert UpperChar(LowerChar(d)) == d && UpperChar(d) == d;
    if withSep {
      assert low[..2] == [LowerChar(d), ':'] && up[..2] == [d, ':'];
    }
  }

  /** The drive letter compares up to case, normal names exactly: `c:\Games\x.dat`
      starts with `C:\Games`, but `C:\games\x.dat` does not. */
  lemma MixedCaseDriveExamples()
    ensures StartsWith(Path("c:\\", ["Games", "x.dat"]), Path("C:\\", ["Games"]))
    ensures !StartsWith(Path("C:\\", ["games", "x.dat"]), Path("C:\\", ["Games"]))
  {
    assert "c:\\"[..2] == "c:" && "C:\\"[..2] == "C:";
    assert Components(Path("c:\\", ["Games", "x.dat"])) == [Prefix("C:"), RootDir, Normal("Games"), Normal("x.dat")];
    assert Components(Path("C:\\", ["Games"])) == [Prefix("C:"), RootDir, Normal("Games")];
    assert Components(Path("C:\\", ["games", "x.dat"]))[2] == Normal("games");
    assert "games" != "Games";
  }

  /** A name built as stem, dot, dot-free extension splits back into the two. */
  lemma SplitJoined(stem: string, ext: string)
    requires |stem| > 0 && stem + "." + ext != ".."
    requires forall k :: 0 <= k < |ext| ==> ext[k] != '.'
    ensures SplitExtension(stem + "." + ext) == (stem, Some(ext))
  {
    var n := stem + "." + ext;
    assert forall k :: |stem| < k < |n| ==> n[k] == ext[k - |stem| - 1];
    LastDotAt(n, |stem|);
    assert n[..|stem|] == stem && n[|stem| + 1..] == ext;
  }

  /** `LastDot` finds the dot its contract describes. */
  lemma LastDotAt(name: string, i: nat)
    requires i < |name| && name[i] == '.'
    requires forall k :: i < k < |name| ==> name[k] != '.'
    ensures LastDot(name) == Some(i)
  {
  }
}
