/** `batch_export_screenshots`: copy stored screenshots into a chosen folder under
    names built from each screenshot's name, never over an existing file. */
module Export {
  import opened Wrappers
  import opened Text
  import opened Paths

  /** Characters that may not appear in an exported file name. */
  predicate Forbidden(c: char) {
    c in ":<>\"|?*\\/"
  }

  /** Every forbidden character becomes '_'. */
  function Sanitize(name: string): (r: string)
    ensures |r| == |name|
    ensures forall i :: 0 <= i < |r| ==> !Forbidden(r[i])
    ensures forall i :: 0 <= i < |r| ==> (Forbidden(name[i]) ==> r[i] == '_') && (!Forbidden(name[i]) ==> r[i] == name[i])
  {
    seq(|name|, i requires 0 <= i < |name| => if Forbidden(name[i]) then '_' else name[i])
  }

  /** `Path::new(name)` for a name without separators: `""` and `"."` have no
      components at all. */
  function NamePath(name: string): Path {
    if name == "" || name == "." then Path("", []) else Path("", [name])
  }

  /** The extension an export name gets: the source's, or `png` when it has none. */
  function ExportExt(source: Path): (e: string)
    ensures forall k :: 0 <= k < |e| ==> e[k] != '.'
  {
    match Extension(source) case Some(e) => e case None => "png"
  }

  /** The name a screenshot is exported under before collisions are considered. A name
      that is all white space falls back to the source's own file name. Any other name
      gives a non-empty part free of forbidden characters that neither starts nor ends
      with white space, then a dot and the source's extension (`png` when it has none). */
  function ExportFilename(name: string, source: Path): (r: string)
    ensures AllWhitespace(name) ==> r == (match FileName(source) case Some(n) => n case None => "screenshot.png")
    ensures !AllWhitespace(name) ==>
              var k := |Trim(Sanitize(name))|;
              && 0 < k < |r| && r[k] == '.' && r[k + 1..] == ExportExt(source)
              && (forall i :: 0 <= i < k ==> !Forbidden(r[i]))
              && !IsWhitespace(r[0]) && !IsWhitespace(r[k - 1])
  {
    SanitizedNameIsSafe(name);
    var safe := Trim(Sanitize(name));
    if safe == [] then
      match FileName(source)
      case Some(n) => n
      case None => "screenshot.png"
    else
      safe + "." + ExportExt(source)
  }

  /** Sanitising keeps white space where it was, so the sanitised name trims to nothing
      exactly when the name is all white space; and what the trim keeps is free of
      forbidden characters. */
  lemma SanitizedNameIsSafe(name: string)
    ensures Trim(Sanitize(name)) == [] <==> AllWhitespace(name)
    ensures forall i :: 0 <= i < |Trim(Sanitize(name))| ==> !Forbidden(Trim(Sanitize(name))[i])
    ensures Trim(Sanitize(name)) != [] ==>
              !IsWhitespace(Trim(Sanitize(name))[0]) && !IsWhitespace(Trim(Sanitize(name))[|Trim(Sanitize(name))| - 1])
  {
    var s := Sanitize(name);
    TrimProperties(s);
    TrimIsSlice(s);
    assert AllWhitespace(s) <==> AllWhitespace(name) by {
      assert forall i :: 0 <= i < |name| ==> (IsWhitespace(s[i]) <==> IsWhitespace(name[i]));
    }
    var a := |s| - |TrimStart(s)|;
    forall i | 0 <= i < |Trim(s)| ensures !Forbidden(Trim(s)[i]) {
      assert Trim(s)[i] == s[a..a + |Trim(s)|][i] == s[a + i];
    }
  }

  /** Collision names are built from the export name's stem and extension, which are
      the trimmed, sanitised name and the source's extension again — unless the name
      is `.` and the source's extension empty, which makes the export name `..`. */
  lemma ExportNameSplitsBack(name: string, source: Path)
    requires !AllWhitespace(name)
    requires ExportFilename(name, source) != ".."
    ensures StemAndExt(ExportFilename(name, source)) == (Trim(Sanitize(name)), ExportExt(source))
  {
    SanitizedNameIsSafe(name);
    var safe, ext := Trim(Sanitize(name)), ExportExt(source);
    var r := ExportFilename(name, source);
    assert r == safe + "." + ext;
    SplitJoined(safe, ext);
    assert NamePath(r) == Path("", [r]);
  }

  /** The `..` corner: a name of a single dot and a source whose extension is empty
      export as `..`, which always exists (it is the folder's parent), so even into an
      empty folder the file goes to the first collision name, `screenshot (1).png`. */
  lemma DotDotExportName()
    ensures ExportFilename(".", Path("", ["a."])) == ".."
    ensures StemAndExt("..") == ("screenshot", "png")
    ensures FreeName({}, "..") == "screenshot (1).png"
    ensures ExportLoop([ExportItem(Ok(ShotInfo(".", Path("", ["a."]))), true, true)], {}).written == ["screenshot (1).png"]
  {
    assert LastDot("a.") == Some(1);
    assert "a."[..1] == "a" && "a."[2..] == "";
    assert Trim(Sanitize(".")) == ".";
  }

  /** No separator in a name. */
  predicate NoSeparator(s: string) {
    forall k :: 0 <= k < |s| ==> s[k] != '/' && s[k] != '\\'
  }

  /** The export name never leads out of the chosen folder: it has no separator as long
      as the source's file name has none. */
  lemma ExportNameStaysInFolder(name: string, source: Path)
    requires FileName(source).Some? ==> NoSeparator(FileName(source).value)
    ensures NoSeparator(ExportFilename(name, source))
  {
    SanitizedNameIsSafe(name);
    var r := ExportFilename(name, source);
    if !AllWhitespace(name) {
      var safe, ext := Trim(Sanitize(name)), ExportExt(source);
      if Extension(source).Some? {
        var n := FileName(source).value;
        var stem := SplitExtension(n).0;
        assert forall k :: 0 <= k < |ext| ==> ext[k] == n[|stem| + 1 + k];
      }
      forall k | 0 <= k < |r| ensures r[k] != '/' && r[k] != '\\' {
        if k < |safe| { assert r[k] == safe[k]; }
        else if k > |safe| { assert r[k] == ext[k - |safe| - 1]; }
      }
    }
  }

  /** The stem and extension the collision names are built from: `file_stem`
      (`screenshot` when there is none) and `extension` (`png` when there is none). */
  function StemAndExt(filename: string): (string, string) {
    var p := NamePath(filename);
    match FileName(p)
    case None => ("screenshot", "png")
    case Some(n) =>
      var (stem, ext) := SplitExtension(n);
      (stem, match ext case Some(e) => e case None => "png")
  }

  /** The `n`th alternative name: `stem (n).ext`. It is never the folder itself or its
      parent. */
  function Candidate(stem: string, n: nat, ext: string): (r: string)
    ensures !SelfOrParent(r)
  {
    stem + " (" + NatToString(n) + ")." + ext
  }

  /** Different counters give different names. */
  lemma CandidateInjective(stem: string, a: nat, b: nat, ext: string)
    requires Candidate(stem, a, ext) == Candidate(stem, b, ext)
    ensures a == b
  {
    var sa, sb := NatToString(a), NatToString(b);
    var ca, cb := Candidate(stem, a, ext), Candidate(stem, b, ext);
    var pre := stem + " (";
    assert ca == pre + (sa + ")." + ext);
    assert cb == pre + (sb + ")." + ext);
    assert |sa| == |sb|;
    assert sa == ca[|pre|..|pre| + |sa|];
    assert sb == cb[|pre|..|pre| + |sb|];
    NatToStringInjective(a, b);
  }

  ghost function CandidatesBelow(stem: string, n: nat, ext: string): set<string> {
    set k | 1 <= k < n :: Candidate(stem, k, ext)
  }

  /** The first `n - 1` alternatives are `n - 1` different names. */
  lemma {:induction false} CandidatesBelowSize(stem: string, n: nat, ext: string)
    requires n >= 1
    ensures |CandidatesBelow(stem, n, ext)| == n - 1
    decreases n
  {
    if n > 1 {
      CandidatesBelowSize(stem, n - 1, ext);
      var c := Candidate(stem, n - 1, ext);
      assert CandidatesBelow(stem, n, ext) == CandidatesBelow(stem, n - 1, ext) + {c};
      if c in CandidatesBelow(stem, n - 1, ext) {
        var k :| 1 <= k < n - 1 && Candidate(stem, k, ext) == c;
        CandidateInjective(stem, k, n - 1, ext);
      }
    } else {
      assert CandidatesBelow(stem, n, ext) == {};
    }
  }

  /** The collision loop from counter `n` on: every earlier alternative was taken, so
      the search is bounded by the number of existing names. */
  function FirstFreeFrom(existing: set<string>, stem: string, ext: string, n: nat): (r: nat)
    requires n >= 1
    requires forall k :: 1 <= k < n ==> Candidate(stem, k, ext) in existing
    ensures r >= n && Candidate(stem, r, ext) !in existing
    ensures forall k :: 1 <= k < r ==> Candidate(stem, k, ext) in existing
    decreases |existing| - n + 1
  {
    CandidatesBelowSize(stem, n, ext);
    assert CandidatesBelow(stem, n, ext) <= existing;
    SubsetSize(CandidatesBelow(stem, n, ext), existing);
    if Candidate(stem, n, ext) !in existing then n
    else
      assert CandidatesBelow(stem, n + 1, ext) <= existing;
      CandidatesBelowSize(stem, n + 1, ext);
      SubsetSize(CandidatesBelow(stem, n + 1, ext), existing);
      FirstFreeFrom(existing, stem, ext, n + 1)
  }

  lemma SubsetSize<T>(a: set<T>, b: set<T>)
    requires a <= b
    ensures |a| <= |b|
  {
    assert b == a + (b - a);
  }

  /** Names that join onto the folder as the folder itself or its parent: `exists()`
      holds for them whatever the folder contains. */
  predicate SelfOrParent(name: string) {
    name == "" || name == "." || name == ".."
  }

  /** Whether `folder.join(name).exists()`: the name is one of the folder's files, or
      it leads to the folder itself or its parent. */
  predicate Taken(existing: set<string>, name: string) {
    name in existing || SelfOrParent(name)
  }

  /** The name a file is finally exported under: its export name if that is free,
      otherwise the first free alternative. It never names an existing file, the folder
      itself or its parent. */
  function FreeName(existing: set<string>, filename: string): (r: string)
    ensures !Taken(existing, r)
    ensures !Taken(existing, filename) ==> r == filename
    ensures Taken(existing, filename) ==>
              var (stem, ext) := StemAndExt(filename);
              exists n :: && n >= 1 && r == Candidate(stem, n, ext)
                          && forall k :: 1 <= k < n ==> Taken(existing, Candidate(stem, k, ext))
  {
    if !Taken(existing, filename) then filename
    else
      var (stem, ext) := StemAndExt(filename);
      Candidate(stem, FirstFreeFrom(existing, stem, ext, 1), ext)
  }

  /** A screenshot as the export sees it; the store's record has no `name`, which the
      export reads, so it is carried here. */
  datatype ShotInfo = ShotInfo(name: string, imagePath: Path)

  /** One requested screenshot: the store lookup, whether its file exists, and whether
      the copy succeeds. */
  datatype ExportItem = ExportItem(lookup: Result<ShotInfo, string>, sourceExists: bool, copyOk: bool)

  datatype ItemError = LookupFailed | SourceMissing(name: string) | CopyFailed(name: string)

  /** What the loop leaves behind: the names written, in order, and the per-item errors. */
  datatype ExportLog = ExportLog(written: seq<string>, errors: seq<ItemError>)

  predicate Exported(item: ExportItem) {
    item.lookup.Ok? && item.sourceExists && item.copyOk
  }

  function CountExported(items: seq<ExportItem>): nat
    decreases |items|
  {
    if |items| == 0 then 0 else (if Exported(items[0]) then 1 else 0) + CountExported(items[1..])
  }

  /** The export loop over the requested screenshots. */
  function ExportLoop(items: seq<ExportItem>, existing: set<string>): (log: ExportLog)
    ensures |log.written| + |log.errors| == |items|
    ensures |log.written| == CountExported(items)
    ensures forall i :: 0 <= i < |log.written| ==> !Taken(existing, log.written[i])
    ensures forall i, j :: 0 <= i < j < |log.written| ==> log.written[i] != log.written[j]
    decreases |items|
  {
    if |items| == 0 then ExportLog([], [])
    else
      var item := items[0];
      match item.lookup
      case Err(_) =>
        var rest := ExportLoop(items[1..], existing);
        ExportLog(rest.written, [LookupFailed] + rest.errors)
      case Ok(shot) =>
        if !item.sourceExists then
          var rest := ExportLoop(items[1..], existing);
          ExportLog(rest.written, [SourceMissing(shot.name)] + rest.errors)
        else
          var dest := FreeName(existing, ExportFilename(shot.name, shot.imagePath));
          if item.copyOk then
            var rest := ExportLoop(items[1..], existing + {dest});
            ExportLog([dest] + rest.written, rest.errors)
          else
            var rest := ExportLoop(items[1..], existing);
            ExportLog(rest.written, [CopyFailed(shot.name)] + rest.errors)
  }

  datatype ExportError =
    | ExportDirMissing
    | NotADirectory
    | NothingExported(errors: seq<ItemError>)
    | PartlyExported(count: nat, errors: seq<ItemError>)

  /** `batch_export_screenshots`. `existing` is the names already in the folder. A
      missing or non-directory target is refused before any item is looked at; otherwise
      the batch is `Ok` exactly when every item was exported, and says how many. */
  function BatchExport(dirExists: bool, isDir: bool, items: seq<ExportItem>, existing: set<string>): (r: Result<nat, ExportError>)
    ensures !dirExists ==> r == Err(ExportDirMissing)
    ensures dirExists && !isDir ==> r == Err(NotADirectory)
    ensures r.Ok? <==> dirExists && isDir && CountExported(items) == |items|
    ensures r.Ok? ==> r.value == |items|
  {
    if !dirExists then Err(ExportDirMissing)
    else if !isDir then Err(NotADirectory)
    else
      var log := ExportLoop(items, existing);
      if |log.written| == 0 && |log.errors| > 0 then Err(NothingExported(log.errors))
      else if |log.errors| > 0 then Err(PartlyExported(|log.written|, log.errors))
      else Ok(|log.written|)
  }

  /** The batch succeeds exactly when every item was exported, and then reports how many;
      a failure with nothing copied is told apart from a partial one, which reports the
      number that did go through. */
  lemma BatchExportResult(items: seq<ExportItem>, existing: set<string>)
    ensures var r := BatchExport(true, true, items, existing);
            var n := CountExported(items);
            && (r.Ok? <==> n == |items|)
            && (r.Ok? ==> r.value == |items|)
            && (r.Err? ==> (r.error.NothingExported? <==> n == 0) && (r.error.PartlyExported? <==> n > 0))
            && (r.Err? && r.error.PartlyExported? ==> r.error.count == n && |r.error.errors| == |items| - n)
  {
  }

  /** Examples of export names: forbidden characters become '_', a blank name falls
      back to the source's file name, and a collision keeps the stem and extension and
      counts from 1. */
  lemma SanitizeExample()
    ensures Sanitize("a:b") == "a_b"
  {
  }

  lemma BlankNameExample()
    ensures ExportFilename(" \t", Path("C:\\", ["shots", "s1.png"])) == "s1.png"
  {
    TrimProperties(" \t");
  }

  lemma CollisionExample()
    ensures FreeName({"x.png"}, "x.png") == "x (1).png"
  {
    assert LastDot("x.png") == Some(1) by { LastDotAt("x.png", 1); }
    assert "x.png"[..1] == "x" && "x.png"[2..] == "png";
    assert SplitExtension("x.png") == ("x", Some("png"));
    assert FileName(NamePath("x.png")) == Some("x.png");
    assert StemAndExt("x.png") == ("x", "png");
    assert Candidate("x", 1, "png") == "x (1).png";
    assert "x (1).png" != "x.png";
    assert FirstFreeFrom({"x.png"}, "x", "png", 1) == 1;
  }

  /** A source without an extension is exported without one, but its collision names
      gain `.png`: `notes` taken gives `notes (1).png`. */
  lemma CollisionAddsPng()
    ensures ExportFilename("", Path("", ["notes"])) == "notes"
    ensures FreeName({"notes"}, "notes") == "notes (1).png"
  {
    assert Trim(Sanitize("")) == [];
    assert LastDot("notes") == None;
    assert Candidate("notes", 1, "png") == "notes (1).png";
    assert "notes (1).png" != "notes";
    assert FirstFreeFrom({"notes"}, "notes", "png", 1) == 1;
  }
}
