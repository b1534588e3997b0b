/** `add_game`: validate a new game's paths against the filesystem and the games
    already registered, create its folders, store it and start watching its saves.
    Canonicalisation is a parameter; the filesystem is the set of existing paths. */
module Registration {
  import opened Wrappers
  import opened Paths
  import opened Records

  /** What `add_game` sees of the world. `canon` is `Path::canonicalize`, `None` where
      it fails. `newId` is the id the store hands out. */
  datatype RegEnv = RegEnv(
    existing: set<Path>,
    canon: Path -> Option<Path>,
    games: Result<seq<Game>, string>,
    shotsDirOk: bool,
    snapshotsDirOk: bool,
    newId: Option<string>,
    watchOk: bool)

  datatype RegError =
    | NoParentFolder
    | SaveFolderMissing(save: Path)
    | ExeMissing(exe: Path)
    | StoreReadFailed
    | NameTaken(name: string)
    | CannotCanonicalize(path: Path)
    | ExeUsedBy(other: string)
    | SaveFolderUsedBy(other: string)
    | FolderCreateFailed
    | StoreWriteFailed
    | WatchFailed

  datatype RegEffect = MakeDir(dir: Path) | StoreGame(game: Game) | Watch(folder: Path)

  datatype Registered = Registered(result: Result<string, RegError>, trace: seq<RegEffect>)

  /** The two path fields a new game must not share with a registered one. */
  datatype Field = ExeField | SaveField

  function PathOf(g: Game, f: Field): Option<Path> {
    match f
    case ExeField => g.exePath
    case SaveField => g.saveFolder
  }

  /** A registered game holds a path of this kind whose canonical form is `target`;
      a missing path, or one that does not canonicalise, never conflicts. */
  predicate Holds(g: Game, f: Field, canon: Path -> Option<Path>, target: Path) {
    PathOf(g, f).Some? && canon(PathOf(g, f).value) == Some(target)
  }

  /** The first registered game in store order that holds `target`. */
  function FirstHolder(games: seq<Game>, f: Field, canon: Path -> Option<Path>, target: Path): (r: Option<Game>)
    ensures r.None? <==> forall i :: 0 <= i < |games| ==> !Holds(games[i], f, canon, target)
    ensures r.Some? ==> exists i :: && 0 <= i < |games| && games[i] == r.value && Holds(r.value, f, canon, target)
                                   && forall j :: 0 <= j < i ==> !Holds(games[j], f, canon, target)
    decreases |games|
  {
    if |games| == 0 then None
    else if Holds(games[0], f, canon, target) then Some(games[0])
    else
      var r := FirstHolder(games[1..], f, canon, target);
      assert forall i :: 1 <= i < |games| ==> games[i] == games[1..][i - 1];
      r
  }

  predicate NameUsed(games: seq<Game>, name: string) {
    exists i :: 0 <= i < |games| && games[i].name == name
  }

  function NewGame(id: string, name: string, folder: Path, save: Path, exe: Path): Game {
    Game(id, name, Some(exe), folder, Some(save))
  }

  function LoggerDir(folder: Path): Path {
    Join(folder, "visual-logger")
  }

  /** `add_game`, checks in the source's order. Nothing happens to the world unless the
      executable has a parent folder, both paths exist, the store was read, the name is
      free, both paths canonicalise, no registered game holds either of them and the
      screenshots folder could be created; success ends with the save folder being
      watched. */
  function AddGame(name: string, save: Path, exe: Path, env: RegEnv): (r: Registered)
    ensures r.trace != [] ==> && Parent(exe).Some? && save in env.existing && exe in env.existing
                              && env.games.Ok? && !NameUsed(env.games.value, name)
                              && env.canon(exe).Some?
                              && FirstHolder(env.games.value, ExeField, env.canon, env.canon(exe).value).None?
                              && env.canon(save).Some?
                              && FirstHolder(env.games.value, SaveField, env.canon, env.canon(save).value).None?
                              && env.shotsDirOk
    ensures r.result.Ok? ==> r.trace != [] && r.trace[|r.trace| - 1] == Watch(save)
  {
    match Parent(exe)
    case None => Registered(Err(NoParentFolder), [])
    case Some(folder) =>
      if save !in env.existing then Registered(Err(SaveFolderMissing(save)), [])
      else if exe !in env.existing then Registered(Err(ExeMissing(exe)), [])
      else
        match env.games
        case Err(_) => Registered(Err(StoreReadFailed), [])
        case Ok(games) => Validate(name, save, exe, folder, games, env)
  }

  /** The duplicate checks against the registered games. */
  function Validate(name: string, save: Path, exe: Path, folder: Path, games: seq<Game>, env: RegEnv): Registered {
    if NameUsed(games, name) then Registered(Err(NameTaken(name)), [])
    else
      match env.canon(exe)
      case None => Registered(Err(CannotCanonicalize(exe)), [])
      case Some(exeKey) =>
        match FirstHolder(games, ExeField, env.canon, exeKey)
        case Some(dup) => Registered(Err(ExeUsedBy(dup.name)), [])
        case None =>
          match env.canon(save)
          case None => Registered(Err(CannotCanonicalize(save)), [])
          case Some(saveKey) =>
            match FirstHolder(games, SaveField, env.canon, saveKey)
            case Some(dup) => Registered(Err(SaveFolderUsedBy(dup.name)), [])
            case None => Install(name, save, exe, folder, env)
  }

  /** Folders, store write, watch. */
  function Install(name: string, save: Path, exe: Path, folder: Path, env: RegEnv): Registered {
    var shots := Join(LoggerDir(folder), "screenshots");
    var snaps := Join(LoggerDir(folder), "snapshots");
    if !env.shotsDirOk then Registered(Err(FolderCreateFailed), [])
    else if !env.snapshotsDirOk then Registered(Err(FolderCreateFailed), [MakeDir(shots)])
    else
      var dirs := [MakeDir(shots), MakeDir(snaps)];
      match env.newId
      case None => Registered(Err(StoreWriteFailed), dirs)
      case Some(id) =>
        var stored := dirs + [StoreGame(NewGame(id, name, folder, save, exe))];
        if !env.watchOk then Registered(Err(WatchFailed), stored)
        else Registered(Ok(id), stored + [Watch(save)])
  }

  /** Whether the run wrote a game to the store. */
  predicate StoresGame(r: Registered) {
    exists i :: 0 <= i < |r.trace| && r.trace[i].StoreGame?
  }

  /** The validation failures come in the source's order, each exactly when the earlier
      checks pass and its own fails; none of them touches the filesystem or the store. */
  lemma ValidationOrder(name: string, save: Path, exe: Path, env: RegEnv)
    ensures var r := AddGame(name, save, exe, env);
            && (r.result == Err(NoParentFolder) <==> Parent(exe).None?)
            && (r.result == Err(SaveFolderMissing(save)) <==> Parent(exe).Some? && save !in env.existing)
            && (r.result == Err(ExeMissing(exe)) <==> Parent(exe).Some? && save in env.existing && exe !in env.existing)
            && (r.result == Err(StoreReadFailed) <==>
                  Parent(exe).Some? && save in env.existing && exe in env.existing && env.games.Err?)
  {
  }

  /** Once the store was read, the duplicate checks come in the source's order: the
      name, then the executable's canonical form and its holder, then the save folder's
      canonical form and its holder. Each error occurs exactly when the checks before
      it pass and its own fails, and it names the first game in store order holding the
      path. */
  lemma DuplicateOrder(name: string, save: Path, exe: Path, env: RegEnv)
    requires Parent(exe).Some? && save in env.existing && exe in env.existing && env.games.Ok?
    ensures var r := AddGame(name, save, exe, env);
            var games := env.games.value;
            && (r.result == Err(NameTaken(name)) <==> NameUsed(games, name))
            && (r.result == Err(CannotCanonicalize(exe)) ==> !NameUsed(games, name) && env.canon(exe).None?)
            && (!NameUsed(games, name) && env.canon(exe).None? ==> r.result == Err(CannotCanonicalize(exe)))
            && (!NameUsed(games, name) && env.canon(exe).Some? ==>
                  var dup := FirstHolder(games, ExeField, env.canon, env.canon(exe).value);
                  && (r.result.Err? && r.result.error.ExeUsedBy? <==> dup.Some?)
                  && (dup.Some? ==> r.result == Err(ExeUsedBy(dup.value.name)))
                  && (dup.None? ==>
                        && (r.result == Err(CannotCanonicalize(save)) <==> env.canon(save).None?)
                        && (env.canon(save).Some? ==>
                              var held := FirstHolder(games, SaveField, env.canon, env.canon(save).value);
                              && (r.result.Err? && r.result.error.SaveFolderUsedBy? <==> held.Some?)
                              && (held.Some? ==> r.result == Err(SaveFolderUsedBy(held.value.name))))))
            && (r.result.Err? && r.result.error.SaveFolderUsedBy? ==>
                  && !NameUsed(games, name) && env.canon(exe).Some? && env.canon(save).Some?
                  && FirstHolder(games, ExeField, env.canon, env.canon(exe).value).None?
                  && FirstHolder(games, SaveField, env.canon, env.canon(save).value).Some?)
  {
  }

  /** A rejected game leaves no trace: every failure up to the folder creation happens
      before any folder, store or watcher effect. */
  lemma RejectionHasNoEffect(name: string, save: Path, exe: Path, env: RegEnv)
    requires AddGame(name, save, exe, env).result.Err?
    requires AddGame(name, save, exe, env).result.error !in {FolderCreateFailed, StoreWriteFailed, WatchFailed}
    ensures AddGame(name, save, exe, env).trace == []
  {
  }

  /** A stored game's folder is the executable's parent, and its save folder and
      executable are the paths as given, not their canonical forms. The store is
      written only when every check passed, and a watch failure is reported after the
      game was stored. */
  lemma StoredGameShape(name: string, save: Path, exe: Path, env: RegEnv)
    requires StoresGame(AddGame(name, save, exe, env))
    ensures var r := AddGame(name, save, exe, env);
            && |r.trace| >= 3
            && r.trace[2] == StoreGame(NewGame(env.newId.value, name, Parent(exe).value, save, exe))
            && (r.result.Ok? || r.result == Err(WatchFailed))
            && (r.result.Ok? <==> env.watchOk)
            && (r.result.Ok? ==> r.result.value == env.newId.value && r.trace[|r.trace| - 1] == Watch(save))
  {
    var r := AddGame(name, save, exe, env);
    var i :| 0 <= i < |r.trace| && r.trace[i].StoreGame?;
  }

  /** No two registered games share a name, and no two share a canonical executable or
      a canonical save folder. */
  predicate Distinct(games: seq<Game>, canon: Path -> Option<Path>) {
    forall i, j :: 0 <= i < j < |games| ==> Apart(games[i], games[j], canon)
  }

  predicate Apart(a: Game, b: Game, canon: Path -> Option<Path>) {
    a.name != b.name && !Share(a, b, ExeField, canon) && !Share(a, b, SaveField, canon)
  }

  /** Both games hold a path of this kind, and the two canonicalise to the same path. */
  predicate Share(a: Game, b: Game, f: Field, canon: Path -> Option<Path>) {
    PathOf(a, f).Some? && canon(PathOf(a, f).value).Some? && Holds(b, f, canon, canon(PathOf(a, f).value).value)
  }

  /** Registration keeps the registered games distinct. */
  lemma RegistrationKeepsGamesDistinct(name: string, save: Path, exe: Path, env: RegEnv)
    requires env.games.Ok? && Distinct(env.games.value, env.canon)
    requires StoresGame(AddGame(name, save, exe, env))
    ensures var g := NewGame(env.newId.value, name, Parent(exe).value, save, exe);
            Distinct(env.games.value + [g], env.canon)
  {
    var games := env.games.value;
    StoredGameShape(name, save, exe, env);
    var g := NewGame(env.newId.value, name, Parent(exe).value, save, exe);
    var all := games + [g];
    var exeKey := env.canon(exe).value;
    var saveKey := env.canon(save).value;
    assert !NameUsed(games, name);
    assert FirstHolder(games, ExeField, env.canon, exeKey).None?;
    assert FirstHolder(games, SaveField, env.canon, saveKey).None?;
    forall i, j | 0 <= i < j < |all| ensures Apart(all[i], all[j], env.canon) {
      if j == |games| {
        assert all[i] == games[i] && all[j] == g;
        assert !Holds(games[i], ExeField, env.canon, exeKey);
        assert !Holds(games[i], SaveField, env.canon, saveKey);
      } else {
        assert all[i] == games[i] && all[j] == games[j];
      }
    }
  }
}
