/**
 * InteropWindowQuery: which windows count as top-level windows, and the walk
 * over the windows in Z-order (top to bottom) that GetTopLevelWindows filters.
 *
 * The operating system is a value here. A WindowSnapshot holds the attributes
 * IsTopLevel asks an InteropWindow for. A Desktop holds what User32 would
 * answer: the first child of a window (GetTopWindow), the window below a
 * window (GetWindow with GW_HWNDNEXT), and the snapshot of every window.
 */
module InteropWindowQuery {
  /** A window handle (IntPtr); 0 is IntPtr.Zero. */
  type Handle = nat

  /** WindowStyleFlags.WS_VISIBLE */
  const WS_VISIBLE: bv32 := 0x1000_0000
  /** ExtendedWindowStyleFlags.WS_EX_TOOLWINDOW */
  const WS_EX_TOOLWINDOW: bv32 := 0x0000_0080
  /** ExtendedWindowStyleFlags.WS_EX_NOREDIRECTIONBITMAP */
  const WS_EX_NOREDIRECTIONBITMAP: bv32 := 0x0020_0000

  /** Window classes which are never top-level windows. */
  const IgnoreClasses: seq<string> := ["Progman", "Button", "Dwm"]

  /** What IsTopLevel reads from a window. */
  datatype WindowSnapshot = WindowSnapshot(
    classname: string,
    text: string,
    boundsEmpty: bool,
    parent: Handle,
    style: bv32,
    extendedStyle: bv32,
    isWin8App: bool,
    isMinimized: bool)

  /**
   * Whether a window is a top-level window, decided by guards taken in
   * order: an ignored class, no title, no size, a parent, the tool-window
   * style, redirection switched off (except for Windows 8 apps), not
   * visible; a window that passes them all is top-level unless minimized.
   */
  function IsTopLevel(w: WindowSnapshot): (r: bool)
    ensures w.classname in IgnoreClasses ==> !r
    ensures |w.text| == 0 ==> !r
    ensures w.boundsEmpty ==> !r
    ensures w.parent != 0 ==> !r
    ensures w.extendedStyle & WS_EX_TOOLWINDOW != 0 ==> !r
    ensures !w.isWin8App && w.extendedStyle & WS_EX_NOREDIRECTIONBITMAP != 0 ==> !r
    ensures w.style & WS_VISIBLE == 0 ==> !r
    ensures w.isMinimized ==> !r
  {
    if w.classname in IgnoreClasses then false
    else if |w.text| == 0 then false
    else if w.boundsEmpty then false
    else if w.parent != 0 then false
    else if w.extendedStyle & WS_EX_TOOLWINDOW != 0 then false
    else if !w.isWin8App && w.extendedStyle & WS_EX_NOREDIRECTIONBITMAP != 0 then false
    else if w.style & WS_VISIBLE == 0 then false
    else !w.isMinimized
  }

  /** A window that passes every guard is top-level exactly when it is not minimized. */
  lemma PassingAllGuards(w: WindowSnapshot)
    requires w.classname !in IgnoreClasses && |w.text| > 0 && !w.boundsEmpty && w.parent == 0
    requires w.extendedStyle & WS_EX_TOOLWINDOW == 0
    requires w.isWin8App || w.extendedStyle & WS_EX_NOREDIRECTIONBITMAP == 0
    requires w.style & WS_VISIBLE != 0
    ensures IsTopLevel(w) <==> !w.isMinimized
  {
  }

  /** For a Windows 8 app the WS_EX_NOREDIRECTIONBITMAP style makes no difference. */
  lemma Win8AppsKeepRedirectionExemption(w: WindowSnapshot)
    requires w.isWin8App
    ensures IsTopLevel(w.(extendedStyle := w.extendedStyle | WS_EX_NOREDIRECTIONBITMAP)) == IsTopLevel(w)
    ensures IsTopLevel(w.(extendedStyle := w.extendedStyle & !WS_EX_NOREDIRECTIONBITMAP)) == IsTopLevel(w)
  {
  }

  /** The windows as User32 reports them. */
  datatype Desktop = Desktop(
    firstChild: map<Handle, Handle>,
    nextWindow: map<Handle, Handle>,
    windows: map<Handle, WindowSnapshot>)
  {
    /** GetTopWindow: the topmost child of `parent` (0 for the desktop), or 0 when it has none. */
    function TopWindow(parent: Handle): Handle
    {
      if parent in firstChild then firstChild[parent] else 0
    }

    /** GetWindow(h, GW_HWNDNEXT): the window below `h`, or 0 when there is none or `h` is IntPtr.Zero. */
    function Next(h: Handle): Handle
    {
      if h != 0 && h in nextWindow then nextWindow[h] else 0
    }

    /**
     * The attributes of the window behind `h`; IntPtr.Zero and a handle
     * without a window have no class name, no title and no size.
     */
    function Window(h: Handle): (w: WindowSnapshot)
      ensures h == 0 || h !in windows ==> w.text == [] && w.boundsEmpty
    {
      if h != 0 && h in windows then windows[h] else WindowSnapshot([], [], true, 0, 0, 0, false, false)
    }

    /** The handle reached from `h` after following GW_HWNDNEXT `k` times. */
    function Follow(h: Handle, k: nat): Handle
    {
      if k == 0 then h else Next(Follow(h, k - 1))
    }

    /** Following GW_HWNDNEXT from `h` reaches handle 0 within `n` steps. */
    predicate EndsWithin(h: Handle, n: nat)
    {
      n >= 1 && Follow(h, n) == 0
    }
  }

  /** The first k >= `from` at which the walk from `h` is at handle 0. */
  function WalkLength(d: Desktop, h: Handle, from: nat, n: nat): (k: nat)
    requires 1 <= from <= n && d.Follow(h, n) == 0
    ensures from <= k <= n && d.Follow(h, k) == 0
    ensures forall i :: from <= i < k ==> d.Follow(h, i) != 0
    decreases n - from
  {
    if d.Follow(h, from) == 0 then from else WalkLength(d, h, from + 1, n)
  }

  /**
   * The handles GetTopWindows yields for the children of `parent`: the
   * topmost child first, even when it is 0, then each window below the
   * previous one, up to and without the first 0.
   */
  function ZOrder(d: Desktop, parent: Handle, n: nat): (r: seq<Handle>)
    requires d.EndsWithin(d.TopWindow(parent), n)
    ensures 1 <= |r| <= n && r[0] == d.TopWindow(parent)
    ensures forall i :: 0 <= i < |r| - 1 ==> d.Next(r[i]) == r[i + 1]
    ensures forall i :: 1 <= i < |r| ==> r[i] != 0
    ensures d.Next(r[|r| - 1]) == 0
  {
    var first := d.TopWindow(parent);
    var len := WalkLength(d, first, 1, n);
    seq(len, i requires 0 <= i < len => d.Follow(first, i))
  }

  /**
   * Iterates the windows from top to bottom, as a do-while loop over the
   * window handle: each handle is yielded before the next one is looked up.
   */
  method GetTopWindows(d: Desktop, parent: Handle, ghost n: nat) returns (windows: seq<Handle>)
    requires d.EndsWithin(d.TopWindow(parent), n)
    ensures windows == ZOrder(d, parent, n)
  {
    var first := d.TopWindow(parent);
    var windowPtr := first;
    windows := [];
    while true
      invariant |windows| < n && windowPtr == d.Follow(first, |windows|)
      invariant forall i :: 0 <= i < |windows| ==> windows[i] == d.Follow(first, i)
      invariant forall i :: 1 <= i < |windows| ==> windows[i] != 0
      invariant |windows| >= 1 ==> windowPtr != 0
      decreases n - |windows|
    {
      windows := windows + [windowPtr];
      windowPtr := d.Next(windowPtr);
      if windowPtr == 0 {
        break;
      }
    }
    ZOrderIs(d, parent, n, windows);
  }

  /** A list that starts at the topmost child and walks down to the first 0 is the Z-order. */
  lemma ZOrderIs(d: Desktop, parent: Handle, n: nat, hs: seq<Handle>)
    requires d.EndsWithin(d.TopWindow(parent), n)
    requires 1 <= |hs| && forall i :: 0 <= i < |hs| ==> hs[i] == d.Follow(d.TopWindow(parent), i)
    requires forall i :: 1 <= i < |hs| ==> hs[i] != 0
    requires d.Follow(d.TopWindow(parent), |hs|) == 0
    ensures hs == ZOrder(d, parent, n)
  {
    var first := d.TopWindow(parent);
    var len := WalkLength(d, first, 1, n);
    if |hs| < len {
      assert false;
    } else if len < |hs| {
      assert false;
    }
  }

  /** The handles among `hs` whose windows are top-level, in their order. */
  function FilterTopLevel(d: Desktop, hs: seq<Handle>): (r: seq<Handle>)
    ensures |r| <= |hs|
    ensures forall h :: h in r <==> h in hs && IsTopLevel(d.Window(h))
  {
    if hs == [] then []
    else (if IsTopLevel(d.Window(hs[0])) then [hs[0]] else []) + FilterTopLevel(d, hs[1..])
  }

  /** IntPtr.Zero is never listed as a top-level window. */
  lemma NullNeverTopLevel(d: Desktop, hs: seq<Handle>)
    ensures 0 !in FilterTopLevel(d, hs)
  {
  }

  /** Filtering a list split in two filters each part, keeping their order. */
  lemma {:induction false} FilterAppend(d: Desktop, hs: seq<Handle>, more: seq<Handle>)
    ensures FilterTopLevel(d, hs + more) == FilterTopLevel(d, hs) + FilterTopLevel(d, more)
  {
    if hs == [] {
      assert hs + more == more;
    } else {
      assert (hs + more)[1..] == hs[1..] + more;
      FilterAppend(d, hs[1..], more);
    }
  }

  /** Iterates the top-level windows, from top to bottom. */
  method GetTopLevelWindows(d: Desktop, ghost n: nat) returns (topLevel: seq<Handle>)
    requires d.EndsWithin(d.TopWindow(0), n)
    ensures topLevel == FilterTopLevel(d, ZOrder(d, 0, n))
  {
    var all := GetTopWindows(d, 0, n);
    topLevel := [];
    for i := 0 to |all|
      invariant topLevel == FilterTopLevel(d, all[..i])
    {
      var h := all[i];
      FilterAppend(d, all[..i], [h]);
      assert all[..i + 1] == all[..i] + [h];
      assert FilterTopLevel(d, [h]) == (if IsTopLevel(d.Window(h)) then [h] else []) + FilterTopLevel(d, []);
      if IsTopLevel(d.Window(h)) {
        topLevel := topLevel + [h];
      }
    }
    assert all[..|all|] == all;
  }
}
