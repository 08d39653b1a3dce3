/**
 * The desktop shell: the window registry, the click rules that pick a
 * window-manager call from a window's flags, and the icon subset.
 */
module Desktop {
  import opened Wrappers
  import opened Seqs
  import opened WindowManager
  import FS = FileSystem
  import Search

  function Def(id: string, title: string): WindowDef
  {
    WindowDef(id, title, None, None, None)
  }

  /** The registry; only Finder starts open. */
  const WindowDefs: seq<WindowDef> := [
    WindowDef("finder", "Finder", Some(true), None, None),
    Def("trash", "Trash"),
    Def("notes", "Notes"),
    Def("settings", "Settings"),
    Def("terminal", "Terminal"),
    Def("browser", "Browser")
  ]

  /** The desktop starts with six stacked windows of which exactly Finder is open. */
  lemma InitialDesktop(vp: Viewport)
    ensures var s := Initial(WindowDefs, vp);
            && Valid(s) && |s.windows| == 6
            && (forall k :: 0 <= k < 6 ==> (s.windows[k].isOpen <==> k == 0))
            && (forall k :: 0 <= k < 6 ==> !s.windows[k].isMinimized && !s.windows[k].isMaximized)
  {
    assert UniqueDefIds(WindowDefs) by {
      forall j, k | 0 <= j < k < |WindowDefs|
        ensures WindowDefs[j].id != WindowDefs[k].id
      {
        assert WindowDefs[j].id[0] != WindowDefs[k].id[0] || WindowDefs[j].id[1] != WindowDefs[k].id[1];
      }
    }
    InitialLayout(WindowDefs, vp);
  }

  /** `windows.find(w => w.id === id)`. */
  function FindWindow(ws: seq<Window>, id: string): (r: Option<nat>)
    ensures r.Some? ==> r.value < |ws| && ws[r.value].id == id
    ensures r.Some? ==> forall j :: 0 <= j < r.value ==> ws[j].id != id
    ensures r.None? <==> !HasWindow(ws, id)
  {
    FindIndex(ws, (w: Window) => w.id == id)
  }

  /** A desktop icon: raise a window already showing, otherwise open it; nothing for an unknown id. */
  function IconClickOp(ws: seq<Window>, id: string): (r: Option<Op>)
    ensures r.None? <==> !HasWindow(ws, id)
    ensures r.Some? ==> Target(r.value) == id && (r.value.Front? || r.value.Open?)
  {
    match FindWindow(ws, id)
    case None => None
    case Some(j) => if ws[j].isOpen && !ws[j].isMinimized then Some(Front(id)) else Some(Open(id))
  }

  /** A dock icon: restore a minimized open window, raise an open one, otherwise open it. */
  function DockClickOp(ws: seq<Window>, id: string): (r: Option<Op>)
    ensures r.None? <==> !HasWindow(ws, id)
    ensures r.Some? ==> Target(r.value) == id && (r.value.Focus? || r.value.Front? || r.value.Open?)
  {
    match FindWindow(ws, id)
    case None => None
    case Some(j) =>
      if ws[j].isOpen && ws[j].isMinimized then Some(Focus(id))
      else if ws[j].isOpen then Some(Front(id))
      else Some(Open(id))
  }

  function Dispatch(s: Wm, op: Option<Op>): Wm
  {
    match op
    case None => s
    case Some(o) => Apply(s, o)
  }

  /** With unique ids, the window the click found is the only one with that id. */
  lemma FoundIsOnly(ws: seq<Window>, id: string, j: nat)
    requires UniqueIds(ws) && j < |ws| && ws[j].id == id
    ensures FindWindow(ws, id) == Some(j)
  {
    var r := FindWindow(ws, id);
  }

  /**
   * After an icon click on a known window it is showing and strictly on top,
   * holding the counter's old value; its maximized flag and geometry are kept.
   */
  lemma IconClickShows(s: Wm, id: string, j: nat)
    requires Valid(s) && j < |s.windows| && s.windows[j].id == id
    ensures var s' := Dispatch(s, IconClickOp(s.windows, id));
            && s'.windows[j].isOpen && !s'.windows[j].isMinimized
            && s'.windows[j].zIndex == s.nextZ && IsTop(s'.windows, j)
            && s'.windows[j].isMaximized == s.windows[j].isMaximized
            && s'.windows[j].position == s.windows[j].position && s'.windows[j].size == s.windows[j].size
  {
    FoundIsOnly(s.windows, id, j);
    var op := IconClickOp(s.windows, id).value;
    AllocatedIsTop(s, op, j);
    OpenFocusEffect(s, id, j);
  }

  /** The same holds for a dock click, whichever of the three calls it makes. */
  lemma DockClickShows(s: Wm, id: string, j: nat)
    requires Valid(s) && j < |s.windows| && s.windows[j].id == id
    ensures var s' := Dispatch(s, DockClickOp(s.windows, id));
            && s'.windows[j].isOpen && !s'.windows[j].isMinimized
            && s'.windows[j].zIndex == s.nextZ && IsTop(s'.windows, j)
            && s'.windows[j].isMaximized == s.windows[j].isMaximized
            && s'.windows[j].position == s.windows[j].position && s'.windows[j].size == s.windows[j].size
  {
    FoundIsOnly(s.windows, id, j);
    var op := DockClickOp(s.windows, id).value;
    AllocatedIsTop(s, op, j);
    OpenFocusEffect(s, id, j);
  }

  /** A click on an id with no window changes nothing and draws no z-index. */
  lemma UnknownClickIgnored(s: Wm, id: string)
    requires !HasWindow(s.windows, id)
    ensures Dispatch(s, IconClickOp(s.windows, id)) == s
    ensures Dispatch(s, DockClickOp(s.windows, id)) == s
  {
  }

  /** The icons shown on the desktop. */
  predicate OnDesktop(w: Window)
  {
    w.id == "finder" || w.id == "trash" || w.id == "notes" || w.id == "terminal"
  }

  /** The windows that get a desktop icon, in window order. */
  function DesktopIcons(ws: seq<Window>): (r: seq<Window>)
    ensures IsSubsequence(r, ws)
    ensures forall k :: 0 <= k < |r| ==> r[k] in ws && OnDesktop(r[k])
    ensures forall k :: 0 <= k < |ws| && OnDesktop(ws[k]) ==> ws[k] in r
  {
    Filter(ws, OnDesktop)
  }

  /** Filtering from index `k` keeps `ws[k]` exactly when it gets an icon, then filters the rest. */
  lemma IconsFrom(ws: seq<Window>, k: nat)
    requires k < |ws|
    ensures Filter(ws[k..], OnDesktop) == (if OnDesktop(ws[k]) then [ws[k]] else []) + Filter(ws[k + 1..], OnDesktop)
  {
    assert ws[k..][1..] == ws[k + 1..];
  }

  /** Which of six windows get an icon when they are laid out like the registry. */
  predicate RegistryPattern(ws: seq<Window>)
  {
    && |ws| == 6
    && OnDesktop(ws[0]) && OnDesktop(ws[1]) && OnDesktop(ws[2])
    && !OnDesktop(ws[3]) && OnDesktop(ws[4]) && !OnDesktop(ws[5])
  }

  lemma RegistryIconsFromSettings(ws: seq<Window>)
    requires RegistryPattern(ws)
    ensures var r := Filter(ws[3..], OnDesktop); |r| == 1 && r[0] == ws[4]
  {
    assert ws[6..] == [];
    IconsFrom(ws, 5);
    IconsFrom(ws, 4);
    IconsFrom(ws, 3);
  }

  lemma RegistryIconsFromTrash(ws: seq<Window>)
    requires RegistryPattern(ws)
    ensures var r := Filter(ws[1..], OnDesktop); |r| == 3 && r[0] == ws[1] && r[1] == ws[2] && r[2] == ws[4]
  {
    RegistryIconsFromSettings(ws);
    IconsFrom(ws, 2);
    IconsFrom(ws, 1);
  }

  /** Six windows laid out like the registry get the icons of windows 0, 1, 2 and 4, in that order. */
  lemma RegistryIcons(ws: seq<Window>)
    requires RegistryPattern(ws)
    ensures var r := DesktopIcons(ws); |r| == 4 && r[0] == ws[0] && r[1] == ws[1] && r[2] == ws[2] && r[3] == ws[4]
  {
    RegistryIconsFromTrash(ws);
    assert Filter(ws, OnDesktop) == [ws[0]] + Filter(ws[1..], OnDesktop);
  }

  /** On the initial desktop the icons are Finder, Trash, Notes and Terminal, in that order. */
  lemma InitialIcons(vp: Viewport)
    ensures var ws := Initial(WindowDefs, vp).windows;
            var r := DesktopIcons(ws);
            |r| == 4 && r[0].id == "finder" && r[1].id == "trash" && r[2].id == "notes" && r[3].id == "terminal"
  {
    var ws := Initial(WindowDefs, vp).windows;
    assert |ws| == 6 && forall k :: 0 <= k < 6 ==> ws[k].id == WindowDefs[k].id;
    assert RegistryPattern(ws);
    RegistryIcons(ws);
  }

  /** Applies the desktop-icon rule to the live window manager. */
  method HandleIconClick(m: Manager, id: string)
    modifies m
    ensures m.State() == Dispatch(old(m.State()), IconClickOp(old(m.windows), id))
  {
    var found := FindWindow(m.windows, id);
    if found.None? {
      return;
    }
    var w := m.windows[found.value];
    if w.isOpen && !w.isMinimized {
      m.BringToFront(id);
    } else {
      m.OpenWindow(id);
    }
  }

  /** Applies the dock rule to the live window manager. */
  method HandleDockClick(m: Manager, id: string)
    modifies m
    ensures m.State() == Dispatch(old(m.State()), DockClickOp(old(m.windows), id))
  {
    var found := FindWindow(m.windows, id);
    if found.None? {
      return;
    }
    var w := m.windows[found.value];
    if w.isOpen && w.isMinimized {
      m.FocusWindow(id);
    } else if w.isOpen {
      m.BringToFront(id);
    } else {
      m.OpenWindow(id);
    }
  }

  /** Brings Finder forward as if its desktop icon were clicked. */
  method HandleFocusFinder(m: Manager)
    modifies m
    ensures m.State() == Dispatch(old(m.State()), IconClickOp(old(m.windows), "finder"))
  {
    HandleIconClick(m, "finder");
  }

  /** Selecting a search hit: move the file system's cursor, then bring Finder forward. */
  method SelectSearchResult(fs: FS.Store, m: Manager, item: FS.Node)
    modifies fs, m
    ensures fs.cursor == Search.SelectTarget(item) && fs.items == old(fs.items)
    ensures m.State() == Dispatch(old(m.State()), IconClickOp(old(m.windows), "finder"))
  {
    fs.Navigate(Search.SelectTarget(item));
    HandleFocusFinder(m);
  }
}
