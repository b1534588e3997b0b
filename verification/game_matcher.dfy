/** Mapping a changed file to the registered game it belongs to. */
module GameMatcher {
  import opened Wrappers
  import opened Paths
  import opened Records

  /** A game claims a path when its save folder (if set) or its game folder is a
      component-wise prefix of the path; the save folder is looked at first, but either
      suffices. */
  predicate Claims(g: Game, p: Path) {
    (g.saveFolder.Some? && StartsWith(p, g.saveFolder.value)) || StartsWith(p, g.gameFolder)
  }

  /** The matching loop of `process_save_event`: the first game in store order that
      claims the path. */
  function MatchGame(games: seq<Game>, p: Path): (r: Option<Game>)
    ensures r.None? <==> forall i :: 0 <= i < |games| ==> !Claims(games[i], p)
    ensures r.Some? ==> exists i :: && 0 <= i < |games| && r.value == games[i] && Claims(games[i], p)
                                   && forall j :: 0 <= j < i ==> !Claims(games[j], p)
    decreases |games|
  {
    if |games| == 0 then None
    else if Claims(games[0], p) then Some(games[0])
    else
      var r := MatchGame(games[1..], p);
      assert forall j :: 1 <= j < |games| ==> games[j] == games[1..][j - 1];
      r
  }

  /** Store order beats the save-folder preference: an earlier game whose game folder
      contains the path wins over a later game whose save folder does. */
  lemma StoreOrderBeatsSaveFolder()
    ensures var root := Path("C:\\", ["Games"]);
            var a := Game("a", "A", None, root, None);
            var b := Game("b", "B", None, Path("C:\\", ["Other"]), Some(Path("C:\\", ["Games", "B", "save"])));
            MatchGame([a, b], Path("C:\\", ["Games", "B", "save", "data1.dat"])) == Some(a)
  {
    var p := Path("C:\\", ["Games", "B", "save", "data1.dat"]);
    assert p.parts[..1] == ["Games"];
  }

  /** The drive letter is compared up to case: a game folder spelled `c:\Games` still
      contains `C:\Games\B\save\x.dat`, so the earlier game wins as above. */
  lemma MixedCaseDriveMatch()
    ensures var a := Game("a", "A", None, Path("c:\\", ["Games"]), None);
            var b := Game("b", "B", None, Path("C:\\", ["Other"]), Some(Path("C:\\", ["Games", "B", "save"])));
            MatchGame([a, b], Path("C:\\", ["Games", "B", "save", "x.dat"])) == Some(a)
  {
    var p := Path("C:\\", ["Games", "B", "save", "x.dat"]);
    assert "c:\\"[..2] == "c:" && "C:\\"[..2] == "C:";
    assert Components(Path("c:\\", ["Games"])) == [Prefix("C:"), RootDir, Normal("Games")];
    assert Components(p)[..3] == [Prefix("C:"), RootDir, Normal("Games")];
  }

  /** A game whose folder is the empty path (a bare executable name has the empty path
      as its parent) claims every changed file, and so wins whenever it comes first. */
  lemma EmptyFolderClaimsEverything(g: Game, rest: seq<Game>, p: Path)
    requires g.gameFolder == Path("", [])
    ensures MatchGame([g] + rest, p) == Some(g)
  {
    EmptyBasePrefixesEverything(p);
  }

  /** Matching is by whole components: `C:\Game` does not contain `C:\GameSaves\x.dat`. */
  lemma PrefixIsComponentWise()
    ensures var g := Game("a", "A", None, Path("C:\\", ["Game"]), None);
            MatchGame([g], Path("C:\\", ["GameSaves", "x.dat"])) == None
  {
    var p := Path("C:\\", ["GameSaves", "x.dat"]);
    assert "C:\\"[..2] == "C:";
    assert Components(Path("C:\\", ["Game"])) == [Prefix("C:"), RootDir, Normal("Game")];
    assert Components(p)[2] == Normal("GameSaves");
    assert "GameSaves" != "Game";
  }
}
