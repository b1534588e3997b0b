/** Finding the screen rectangle of a window that belongs to a given executable. The
    Win32 enumeration is replaced by the sequence of top-level windows in enumeration
    order; the two copies in the source differ in how they treat a failed
    `GetWindowRect`. */
module WindowLocator {
  import opened Wrappers
  import opened Text
  import opened Crop

  /** Window lookup exists only on Windows; elsewhere it always reports "not found". */
  datatype Platform = Windows | OtherPlatform

  /** One top-level window: whether it is visible, its owning process id, the owning
      process's executable path when it could be read (process opened and module name
      non-empty), whether `GetWindowRect` succeeded, and the rectangle in hand after the
      call (all zero, the `RECT::default()`, when it failed). */
  datatype WindowRec = WindowRec(visible: bool, pid: nat, exePath: Option<string>, rectOk: bool, rect: Rect)

  /** Separators unified to '/', then lower-cased. */
  function NormalizePath(p: string): string {
    Lower(ReplaceChar(p, '\\', '/'))
  }

  /** A visible window of a real process whose executable normalizes to the target. */
  predicate OwnedBy(w: WindowRec, targetNorm: string) {
    w.visible && w.pid != 0 && w.exePath.Some? && NormalizePath(w.exePath.value) == targetNorm
  }

  /** Acceptable to the snapshot pipeline's search: owned, and its rectangle was read. */
  predicate Located(w: WindowRec, targetNorm: string) {
    OwnedBy(w, targetNorm) && w.rectOk
  }

  /** The snapshot pipeline's enumeration callback: a window whose `GetWindowRect` fails
      is passed over and enumeration goes on. */
  function SearchReadable(ws: seq<WindowRec>, targetNorm: string): (r: Option<Rect>)
    ensures r.None? <==> forall i :: 0 <= i < |ws| ==> !Located(ws[i], targetNorm)
    ensures r.Some? ==> exists i :: && 0 <= i < |ws| && Located(ws[i], targetNorm)
                                   && r.value == ws[i].rect
                                   && forall j :: 0 <= j < i ==> !Located(ws[j], targetNorm)
    decreases |ws|
  {
    if |ws| == 0 then None
    else if Located(ws[0], targetNorm) then Some(ws[0].rect)
    else
      var r := SearchReadable(ws[1..], targetNorm);
      assert forall j :: 1 <= j < |ws| ==> ws[j] == ws[1..][j - 1];
      r
  }

  /** The rectangle the manual-capture callback records: the one in hand, whether or not
      `GetWindowRect` succeeded. */
  function RectInHand(w: WindowRec): Rect {
    if w.rectOk then w.rect else Rect(0, 0, 0, 0)
  }

  /** The manual-capture enumeration callback: stop at the first owned window. */
  function SearchFirstOwned(ws: seq<WindowRec>, targetNorm: string): (r: Option<Rect>)
    ensures r.None? <==> forall i :: 0 <= i < |ws| ==> !OwnedBy(ws[i], targetNorm)
    ensures r.Some? ==> exists i :: && 0 <= i < |ws| && OwnedBy(ws[i], targetNorm)
                                   && r.value == RectInHand(ws[i])
                                   && forall j :: 0 <= j < i ==> !OwnedBy(ws[j], targetNorm)
    decreases |ws|
  {
    if |ws| == 0 then None
    else if OwnedBy(ws[0], targetNorm) then Some(RectInHand(ws[0]))
    else
      var r := SearchFirstOwned(ws[1..], targetNorm);
      assert forall j :: 1 <= j < |ws| ==> ws[j] == ws[1..][j - 1];
      r
  }

  /** `find_window_rect_for_exe` as the snapshot pipeline has it: the rectangle of the
      first visible window whose process runs the executable and whose rectangle could be
      read, or nothing — always nothing off Windows. */
  function FindForSnapshot(ws: seq<WindowRec>, exePath: string, platform: Platform): (r: Option<Rect>)
    ensures r.None? <==> platform == OtherPlatform || forall i :: 0 <= i < |ws| ==> !Located(ws[i], NormalizePath(exePath))
  {
    match platform
    case Windows => SearchReadable(ws, NormalizePath(exePath))
    case OtherPlatform => None
  }

  /** `find_window_rect_for_exe` as the manual capture has it: the rectangle in hand
      for the first visible window whose process runs the executable, whether or not it
      could be read, or nothing — always nothing off Windows. */
  function FindForCapture(ws: seq<WindowRec>, exePath: string, platform: Platform): (r: Option<Rect>)
    ensures r.None? <==> platform == OtherPlatform || forall i :: 0 <= i < |ws| ==> !OwnedBy(ws[i], NormalizePath(exePath))
  {
    match platform
    case Windows => SearchFirstOwned(ws, NormalizePath(exePath))
    case OtherPlatform => None
  }

  /** A rectangle the snapshot lookup finds is that of the first readable owned window. */
  lemma SnapshotLookupFindsFirst(ws: seq<WindowRec>, exePath: string, platform: Platform)
    requires FindForSnapshot(ws, exePath, platform).Some?
    ensures var t := NormalizePath(exePath);
            exists i :: && 0 <= i < |ws| && Located(ws[i], t)
                        && FindForSnapshot(ws, exePath, platform).value == ws[i].rect
                        && forall j :: 0 <= j < i ==> !Located(ws[j], t)
  {
  }

  /** A rectangle the manual-capture lookup finds is the one in hand for the first owned
      window. */
  lemma CaptureLookupFindsFirst(ws: seq<WindowRec>, exePath: string, platform: Platform)
    requires FindForCapture(ws, exePath, platform).Some?
    ensures var t := NormalizePath(exePath);
            exists i :: && 0 <= i < |ws| && OwnedBy(ws[i], t)
                        && FindForCapture(ws, exePath, platform).value == RectInHand(ws[i])
                        && forall j :: 0 <= j < i ==> !OwnedBy(ws[j], t)
  {
  }

  /** Normalising keeps the length, turns every backslash into '/' and lower-cases every
      ASCII letter, leaving no backslash and no ASCII capital behind. */
  lemma NormalizePathShape(p: string)
    ensures var r := NormalizePath(p);
            && |r| == |p|
            && forall i :: 0 <= i < |r| ==>
                 && r[i] == (if p[i] == '\\' then '/' else LowerChar(p[i]))
                 && r[i] != '\\' && !('A' <= r[i] <= 'Z')
  {
  }

  /** A normalised path normalises to itself. */
  lemma NormalizeIdempotent(p: string)
    ensures NormalizePath(NormalizePath(p)) == NormalizePath(p)
  {
    NormalizePathShape(p);
    NormalizePathShape(NormalizePath(p));
  }

  /** Normalization ignores letter case and the separator style. */
  lemma NormalizeIgnoresCaseAndSeparators()
    ensures NormalizePath("C:\\Games\\VN.EXE") == NormalizePath("c:/games/vn.exe")
  {
    assert NormalizePath("C:\\Games\\VN.EXE") == "c:/games/vn.exe";
  }

  /** The two searches agree whenever the first owned window's rectangle can be read. */
  lemma {:induction false} SearchesAgreeWhenRectReadable(ws: seq<WindowRec>, targetNorm: string)
    requires forall i :: 0 <= i < |ws| && OwnedBy(ws[i], targetNorm) ==>
               ws[i].rectOk || exists j :: 0 <= j < i && OwnedBy(ws[j], targetNorm)
    ensures SearchReadable(ws, targetNorm) == SearchFirstOwned(ws, targetNorm)
    decreases |ws|
  {
    if |ws| > 0 && !OwnedBy(ws[0], targetNorm) {
      forall i | 0 <= i < |ws[1..]| && OwnedBy(ws[1..][i], targetNorm)
        ensures ws[1..][i].rectOk || exists j :: 0 <= j < i && OwnedBy(ws[1..][j], targetNorm)
      {
        assert ws[1..][i] == ws[i + 1];
        if !ws[i + 1].rectOk {
          var j :| 0 <= j < i + 1 && OwnedBy(ws[j], targetNorm);
          assert j != 0;
          assert ws[1..][j - 1] == ws[j];
        }
      }
      SearchesAgreeWhenRectReadable(ws[1..], targetNorm);
    }
  }

  /** When the first owned window's `GetWindowRect` fails, the snapshot search moves on
      to the next owned window, while the manual-capture search stops with an all-zero
      rectangle. */
  lemma SearchesDifferOnRectFailure(r: Rect)
    requires r != Rect(0, 0, 0, 0)
    ensures var t := NormalizePath("vn.exe");
            var ws := [WindowRec(true, 7, Some("vn.exe"), false, r), WindowRec(true, 7, Some("vn.exe"), true, r)];
            SearchReadable(ws, t) == Some(r) && SearchFirstOwned(ws, t) == Some(Rect(0, 0, 0, 0))
  {
    var t := NormalizePath("vn.exe");
    var ws := [WindowRec(true, 7, Some("vn.exe"), false, r), WindowRec(true, 7, Some("vn.exe"), true, r)];
    assert OwnedBy(ws[0], t) && !Located(ws[0], t) && Located(ws[1], t);
    assert ws[1..] == [ws[1]];
  }
}
