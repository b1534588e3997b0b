/** The store's records as the core reads and writes them. */
module Records {
  import opened Wrappers
  import opened Paths

  /** A registered game; `cover_image` plays no part in the core and is not modelled. */
  datatype Game = Game(
    id: string,
    name: string,
    exePath: Option<Path>,
    gameFolder: Path,
    saveFolder: Option<Path>)

  /** The snapshot record as `process_save_event` builds it: with an image path and the
      clipboard text, which the store's own `Snapshot` type does not carry. */
  datatype Snapshot = Snapshot(
    id: string,
    gameId: string,
    originalSavePath: Path,
    backupSavePath: Path,
    imagePath: Option<Path>,
    textContent: Option<string>,
    note: Option<string>,
    createdAt: string)

  /** A manual screenshot record. */
  datatype Screenshot = Screenshot(
    id: string,
    gameId: string,
    imagePath: Path,
    note: Option<string>,
    createdAt: string)
}
