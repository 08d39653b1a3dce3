/**
 * The window manager hook: a fixed list of window records and one
 * process-wide z-index counter that only ever grows.
 */
module WindowManager {
  import opened Wrappers
  import opened Seqs

  datatype Point = Point(x: int, y: int)
  datatype Size = Size(w: int, h: int)

  datatype Window = Window(
    id: string,
    title: string,
    isOpen: bool,
    isMinimized: bool,
    isMaximized: bool,
    zIndex: int,
    position: Point,
    size: Size)

  /** A registry entry. Flags it names override the defaults, because it is spread last. */
  datatype WindowDef = WindowDef(
    id: string,
    title: string,
    isOpen: Option<bool>,
    isMinimized: Option<bool>,
    isMaximized: Option<bool>)

  datatype Viewport = Viewport(width: int, height: int)

  /** The manager's whole state: the windows and the next z-index to hand out. */
  datatype Wm = Wm(windows: seq<Window>, nextZ: int)

  /** The counter's value when the module loads. */
  const InitialZ: int := 10

  /** The viewport assumed when there is no browser window. */
  const FallbackViewport: Viewport := Viewport(1280, 800)

  // ---------------------------------------------------------------------------
  // Initial records
  // ---------------------------------------------------------------------------

  function DefaultSize(vp: Viewport): Size
  {
    Size(Min(780, vp.width - 100), Min(500, vp.height - 140))
  }

  function CascadePosition(vp: Viewport, i: nat): Point
  {
    var sz := DefaultSize(vp);
    Point(Min(80 + i * 30, vp.width - sz.w - 20), Min(60 + i * 30, vp.height - sz.h - 80))
  }

  function InitialWindow(def: WindowDef, i: nat, z: int, vp: Viewport): Window
  {
    Window(def.id, def.title, Or(def.isOpen, false), Or(def.isMinimized, false), Or(def.isMaximized, false),
           z, CascadePosition(vp, i), DefaultSize(vp))
  }

  /** The records built from the registry, the i-th drawing z-index `InitialZ + i`. */
  function Initial(defs: seq<WindowDef>, vp: Viewport): Wm
  {
    Wm(seq(|defs|, i requires 0 <= i < |defs| => InitialWindow(defs[i], i, InitialZ + i, vp)), InitialZ + |defs|)
  }

  predicate UniqueDefIds(defs: seq<WindowDef>)
  {
    forall j, k :: 0 <= j < k < |defs| ==> defs[j].id != defs[k].id
  }

  /**
   * Every record keeps its def's id and title, is closed, restored and not
   * maximized unless the def says otherwise, is stacked above the earlier
   * ones, has the default size and sits on the 30-pixel cascade, pulled back
   * to stay 20 pixels inside the right and 80 inside the bottom edge.
   */
  lemma InitialLayout(defs: seq<WindowDef>, vp: Viewport)
    ensures |Initial(defs, vp).windows| == |defs|
    ensures UniqueDefIds(defs) ==> Valid(Initial(defs, vp))
    ensures forall i :: 0 <= i < |defs| ==>
              var w := Initial(defs, vp).windows[i];
              && w.id == defs[i].id && w.title == defs[i].title
              && (w.isOpen <==> defs[i].isOpen == Some(true))
              && (w.isMinimized <==> defs[i].isMinimized == Some(true))
              && (w.isMaximized <==> defs[i].isMaximized == Some(true))
              && (forall j :: 0 <= j < i ==> Initial(defs, vp).windows[j].zIndex < w.zIndex)
              && w.size.w == Min(780, vp.width - 100) && w.size.h == Min(500, vp.height - 140)
              && w.position.x == Min(80 + 30 * i, vp.width - w.size.w - 20)
              && w.position.y == Min(60 + 30 * i, vp.height - w.size.h - 80)
              && w.position.x + w.size.w <= vp.width - 20 && w.position.y + w.size.h <= vp.height - 80
  {
    forall i | 0 <= i < |defs| {
      InitialWindowAt(defs, vp, i);
    }
  }

  /** Record `i` of the initial layout, one window at a time. */
  lemma InitialWindowAt(defs: seq<WindowDef>, vp: Viewport, i: nat)
    requires i < |defs|
    ensures var w := Initial(defs, vp).windows[i];
            && w.id == defs[i].id && w.title == defs[i].title
            && (w.isOpen <==> defs[i].isOpen == Some(true))
            && (w.isMinimized <==> defs[i].isMinimized == Some(true))
            && (w.isMaximized <==> defs[i].isMaximized == Some(true))
            && w.zIndex == InitialZ + i
            && w.size.w == Min(780, vp.width - 100) && w.size.h == Min(500, vp.height - 140)
            && w.position.x == Min(80 + 30 * i, vp.width - w.size.w - 20)
            && w.position.y == Min(60 + 30 * i, vp.height - w.size.h - 80)
            && w.position.x + w.size.w <= vp.width - 20 && w.position.y + w.size.h <= vp.height - 80
  {
  }

  // ---------------------------------------------------------------------------
  // Updates
  // ---------------------------------------------------------------------------

  /** The fields an `update` call overwrites; absent fields are kept. */
  datatype Patch = Patch(
    isOpen: Option<bool>,
    isMinimized: Option<bool>,
    isMaximized: Option<bool>,
    zIndex: Option<int>,
    position: Option<Point>,
    size: Option<Size>)

  function Merge(w: Window, p: Patch): Window
  {
    w.(isOpen := Or(p.isOpen, w.isOpen),
       isMinimized := Or(p.isMinimized, w.isMinimized),
       isMaximized := Or(p.isMaximized, w.isMaximized),
       zIndex := Or(p.zIndex, w.zIndex),
       position := Or(p.position, w.position),
       size := Or(p.size, w.size))
  }

  /**
   * `update(id, patch)`: in every window with this id each field the patch
   * names takes the patch's value and every other field is kept; every other
   * window is unchanged.
   */
  function Update(ws: seq<Window>, id: string, p: Patch): (r: seq<Window>)
    ensures |r| == |ws|
    ensures forall k :: 0 <= k < |ws| && ws[k].id != id ==> r[k] == ws[k]
    ensures forall k :: 0 <= k < |ws| && ws[k].id == id ==>
              && r[k].id == ws[k].id && r[k].title == ws[k].title
              && r[k].isOpen == (if p.isOpen.Some? then p.isOpen.value else ws[k].isOpen)
              && r[k].isMinimized == (if p.isMinimized.Some? then p.isMinimized.value else ws[k].isMinimized)
              && r[k].isMaximized == (if p.isMaximized.Some? then p.isMaximized.value else ws[k].isMaximized)
              && r[k].zIndex == (if p.zIndex.Some? then p.zIndex.value else ws[k].zIndex)
              && r[k].position == (if p.position.Some? then p.position.value else ws[k].position)
              && r[k].size == (if p.size.Some? then p.size.value else ws[k].size)
  {
    seq(|ws|, k requires 0 <= k < |ws| => if ws[k].id == id then Merge(ws[k], p) else ws[k])
  }

  /** What `toggleMaximize` and `focusWindow` write into a matching window together with a fresh z. */
  function Allocate(w: Window, z: int, toggle: bool): Window
  {
    if toggle then w.(isMaximized := !w.isMaximized, zIndex := z)
    else w.(isOpen := true, isMinimized := false, zIndex := z)
  }

  /** A `map` whose callback draws `nextZ++` for each window with the id, in list order. */
  function AllocMap(ws: seq<Window>, id: string, z: int, toggle: bool): (r: Wm)
    ensures |r.windows| == |ws| && r.nextZ >= z
  {
    if ws == [] then Wm([], z)
    else if ws[0].id == id then
      var rest := AllocMap(ws[1..], id, z + 1, toggle);
      Wm([Allocate(ws[0], z, toggle)] + rest.windows, rest.nextZ)
    else
      var rest := AllocMap(ws[1..], id, z, toggle);
      Wm([ws[0]] + rest.windows, rest.nextZ)
  }

  datatype Op =
    | Front(id: string)
    | Open(id: string)
    | Close(id: string)
    | Minimize(id: string)
    | ToggleMax(id: string)
    | Focus(id: string)
    | Move(id: string, position: Point)
    | Resize(id: string, size: Size)

  function ZPatch(z: int): Patch
  {
    Patch(None, None, None, Some(z), None, None)
  }

  /** The state after one call of the hook's API. */
  function Apply(s: Wm, op: Op): Wm
  {
    match op
    case Front(id) => Wm(Update(s.windows, id, ZPatch(s.nextZ)), s.nextZ + 1)
    case Open(id) => Wm(Update(s.windows, id, Patch(Some(true), Some(false), None, Some(s.nextZ), None, None)), s.nextZ + 1)
    case Close(id) => Wm(Update(s.windows, id, Patch(Some(false), Some(false), Some(false), None, None, None)), s.nextZ)
    case Minimize(id) => Wm(Update(s.windows, id, Patch(None, Some(true), None, None, None, None)), s.nextZ)
    case ToggleMax(id) => AllocMap(s.windows, id, s.nextZ, true)
    case Focus(id) => AllocMap(s.windows, id, s.nextZ, false)
    case Move(id, p) => Wm(Update(s.windows, id, Patch(None, None, None, None, Some(p), None)), s.nextZ)
    case Resize(id, sz) => Wm(Update(s.windows, id, Patch(None, None, None, None, None, Some(sz))), s.nextZ)
  }

  /** The state after a sequence of calls. */
  function Run(s: Wm, ops: seq<Op>): Wm
    decreases |ops|
  {
    if ops == [] then s else Run(Apply(s, ops[0]), ops[1..])
  }

  // ---------------------------------------------------------------------------
  // Invariants
  // ---------------------------------------------------------------------------

  predicate UniqueIds(ws: seq<Window>)
  {
    forall j, k :: 0 <= j < k < |ws| ==> ws[j].id != ws[k].id
  }

  /** Ids are distinct, z-indices are distinct, and every z-index is below the counter. */
  predicate Valid(s: Wm)
  {
    && UniqueIds(s.windows)
    && (forall k :: 0 <= k < |s.windows| ==> s.windows[k].zIndex < s.nextZ)
    && (forall j, k :: 0 <= j < k < |s.windows| ==> s.windows[j].zIndex != s.windows[k].zIndex)
  }

  /** Window `j` is strictly above every other window. */
  predicate IsTop(ws: seq<Window>, j: nat)
    requires j < |ws|
  {
    forall k :: 0 <= k < |ws| && k != j ==> ws[k].zIndex < ws[j].zIndex
  }

  predicate HasWindow(ws: seq<Window>, id: string)
  {
    exists k :: 0 <= k < |ws| && ws[k].id == id
  }

  /** With unique ids, the counter-drawing `map` touches exactly the one window with the id, or none. */
  lemma AllocMapUnique(ws: seq<Window>, id: string, z: int, toggle: bool)
    requires UniqueIds(ws)
    ensures !HasWindow(ws, id) ==> AllocMap(ws, id, z, toggle) == Wm(ws, z)
    ensures forall j :: 0 <= j < |ws| && ws[j].id == id ==>
              AllocMap(ws, id, z, toggle) == Wm(ws[j := Allocate(ws[j], z, toggle)], z + 1)
  {
    if !HasWindow(ws, id) {
      UnknownAllocMap(ws, id, z, toggle);
    }
    forall j | 0 <= j < |ws| && ws[j].id == id
      ensures AllocMap(ws, id, z, toggle) == Wm(ws[j := Allocate(ws[j], z, toggle)], z + 1)
    {
      AllocMapAt(ws, id, z, toggle, j);
    }
  }

  /** The counter-drawing `map` over unique ids, where window `j` has the id. */
  lemma {:induction false} AllocMapAt(ws: seq<Window>, id: string, z: int, toggle: bool, j: nat)
    requires UniqueIds(ws) && j < |ws| && ws[j].id == id
    ensures AllocMap(ws, id, z, toggle) == Wm(ws[j := Allocate(ws[j], z, toggle)], z + 1)
    decreases |ws|
  {
    if j == 0 {
      AllocMapAtHead(ws, id, z, toggle);
    } else {
      assert ws[0].id != id;
      assert UniqueIds(ws[1..]) && ws[1..][j - 1].id == id;
      AllocMapAt(ws[1..], id, z, toggle, j - 1);
      var tail := ws[1..][j - 1 := Allocate(ws[j], z, toggle)];
      assert AllocMap(ws, id, z, toggle) == Wm([ws[0]] + tail, z + 1);
      assert ws[j := Allocate(ws[j], z, toggle)] == [ws[0]] + tail;
    }
  }

  /** The counter-drawing `map` over unique ids, where the first window has the id. */
  lemma AllocMapAtHead(ws: seq<Window>, id: string, z: int, toggle: bool)
    requires UniqueIds(ws) && |ws| > 0 && ws[0].id == id
    ensures AllocMap(ws, id, z, toggle) == Wm(ws[0 := Allocate(ws[0], z, toggle)], z + 1)
  {
    assert !HasWindow(ws[1..], id);
    UnknownAllocMap(ws[1..], id, z + 1, toggle);
    assert AllocMap(ws, id, z, toggle) == Wm([Allocate(ws[0], z, toggle)] + ws[1..], z + 1);
    assert ws[0 := Allocate(ws[0], z, toggle)] == [Allocate(ws[0], z, toggle)] + ws[1..];
  }

  /** The loop invariant of `AllocLoop` survives one window: `out` is the prefix the `map` has produced so far. */
  lemma AllocMapStep(ws: seq<Window>, k: nat, id: string, z: int, toggle: bool, out: seq<Window>, target: Wm)
    requires k < |ws|
    requires out + AllocMap(ws[k..], id, z, toggle).windows == target.windows
    requires AllocMap(ws[k..], id, z, toggle).nextZ == target.nextZ
    ensures var z' := if ws[k].id == id then z + 1 else z;
            var w := if ws[k].id == id then Allocate(ws[k], z, toggle) else ws[k];
            (out + [w]) + AllocMap(ws[k + 1..], id, z', toggle).windows == target.windows &&
            AllocMap(ws[k + 1..], id, z', toggle).nextZ == target.nextZ
  {
    assert ws[k..][1..] == ws[k + 1..];
    var z' := if ws[k].id == id then z + 1 else z;
    var w := if ws[k].id == id then Allocate(ws[k], z, toggle) else ws[k];
    var rest := AllocMap(ws[k + 1..], id, z', toggle);
    assert AllocMap(ws[k..], id, z, toggle).windows == [w] + rest.windows;
    assert out + ([w] + rest.windows) == (out + [w]) + rest.windows;
  }

  /** The id `op` targets. */
  function Target(op: Op): string
  {
    op.id
  }

  /** `op` draws from the counter. */
  predicate Allocating(op: Op)
  {
    op.Front? || op.Open? || op.ToggleMax? || op.Focus?
  }

  /**
   * On a valid state a call keeps the list's length and ids, changes no window
   * but the target, and moves the counter by one exactly when it allocates a
   * z-index for a present window or is `bringToFront`/`openWindow`.
   */
  lemma ApplyFrame(s: Wm, op: Op)
    requires Valid(s)
    ensures |Apply(s, op).windows| == |s.windows|
    ensures forall k :: 0 <= k < |s.windows| ==>
              Apply(s, op).windows[k].id == s.windows[k].id &&
              (s.windows[k].id != Target(op) ==> Apply(s, op).windows[k] == s.windows[k])
    ensures Apply(s, op).nextZ ==
              if op.Front? || op.Open? || (Allocating(op) && HasWindow(s.windows, Target(op))) then s.nextZ + 1 else s.nextZ
  {
    if op.ToggleMax? || op.Focus? {
      AllocMapUnique(s.windows, op.id, s.nextZ, op.ToggleMax?);
    }
  }

  /** Every call keeps the state valid. */
  lemma ApplyPreservesValid(s: Wm, op: Op)
    requires Valid(s)
    ensures Valid(Apply(s, op))
  {
    ApplyFrame(s, op);
    var s' := Apply(s, op);
    forall k | 0 <= k < |s'.windows|
      ensures s'.windows[k].zIndex < s'.nextZ
    {
      ApplyZ(s, op, k);
    }
    forall j, k | 0 <= j < k < |s'.windows|
      ensures s'.windows[j].zIndex != s'.windows[k].zIndex
    {
      ApplyZ(s, op, j);
      ApplyZ(s, op, k);
    }
  }

  /** The z-index of window `k` after a call: the counter's old value for an allocating call's target, else unchanged. */
  lemma ApplyZ(s: Wm, op: Op, k: nat)
    requires Valid(s) && k < |s.windows|
    ensures Apply(s, op).windows[k].zIndex ==
              if Allocating(op) && s.windows[k].id == Target(op) then s.nextZ else s.windows[k].zIndex
  {
    if op.ToggleMax? || op.Focus? {
      AllocMapUnique(s.windows, op.id, s.nextZ, op.ToggleMax?);
    }
  }

  /** The window a z-allocating call targets receives the counter's old value and is strictly on top. */
  lemma AllocatedIsTop(s: Wm, op: Op, j: nat)
    requires Valid(s) && Allocating(op)
    requires j < |s.windows| && s.windows[j].id == Target(op)
    ensures Apply(s, op).windows[j].zIndex == s.nextZ && Apply(s, op).nextZ == s.nextZ + 1
    ensures IsTop(Apply(s, op).windows, j)
  {
    ApplyFrame(s, op);
    if op.ToggleMax? || op.Focus? {
      AllocMapUnique(s.windows, op.id, s.nextZ, op.ToggleMax?);
    }
  }

  /** `bringToFront` changes only the target's z-index. */
  lemma FrontEffect(s: Wm, id: string, j: nat)
    requires j < |s.windows| && s.windows[j].id == id
    ensures Apply(s, Front(id)).windows[j] == s.windows[j].(zIndex := s.nextZ)
  {
  }

  /** `openWindow` and `focusWindow` show the window on top and keep its maximized flag and geometry. */
  lemma OpenFocusEffect(s: Wm, id: string, j: nat)
    requires Valid(s) && j < |s.windows| && s.windows[j].id == id
    ensures Apply(s, Open(id)).windows[j] == s.windows[j].(isOpen := true, isMinimized := false, zIndex := s.nextZ)
    ensures Apply(s, Focus(id)).windows[j] == s.windows[j].(isOpen := true, isMinimized := false, zIndex := s.nextZ)
  {
    AllocMapUnique(s.windows, id, s.nextZ, false);
  }

  /** `closeWindow` clears the three flags and keeps z-index, geometry and the counter. */
  lemma CloseEffect(s: Wm, id: string, j: nat)
    requires j < |s.windows| && s.windows[j].id == id
    ensures Apply(s, Close(id)).windows[j] == s.windows[j].(isOpen := false, isMinimized := false, isMaximized := false)
    ensures Apply(s, Close(id)).nextZ == s.nextZ
  {
  }

  /** `minimizeWindow` sets only the minimized flag and draws nothing. */
  lemma MinimizeEffect(s: Wm, id: string, j: nat)
    requires j < |s.windows| && s.windows[j].id == id
    ensures Apply(s, Minimize(id)).windows[j] == s.windows[j].(isMinimized := true)
    ensures Apply(s, Minimize(id)).nextZ == s.nextZ
  {
  }

  /** Toggling twice restores the maximized flag but leaves the window with a newer z-index. */
  lemma ToggleTwice(s: Wm, id: string, j: nat)
    requires Valid(s) && j < |s.windows| && s.windows[j].id == id
    ensures Apply(s, ToggleMax(id)).windows[j].isMaximized == !s.windows[j].isMaximized
    ensures var s2 := Apply(Apply(s, ToggleMax(id)), ToggleMax(id));
            && s2.windows[j] == s.windows[j].(zIndex := s.nextZ + 1)
            && s2.windows[j].zIndex != s.windows[j].zIndex
            && s2.nextZ == s.nextZ + 2
  {
    var s1 := Apply(s, ToggleMax(id));
    AllocMapUnique(s.windows, id, s.nextZ, true);
    ApplyPreservesValid(s, ToggleMax(id));
    AllocMapUnique(s1.windows, id, s1.nextZ, true);
  }

  /** `moveWindow` and `resizeWindow` replace only the target's position or size. */
  lemma GeometryEffect(s: Wm, id: string, j: nat, p: Point, sz: Size)
    requires j < |s.windows| && s.windows[j].id == id
    ensures Apply(s, Move(id, p)).windows[j] == s.windows[j].(position := p)
    ensures Apply(s, Resize(id, sz)).windows[j] == s.windows[j].(size := sz)
  {
  }

  /** A call naming an unknown id changes no window; `bringToFront` and `openWindow` still draw a value. */
  lemma UnknownIdEffect(s: Wm, op: Op)
    requires !HasWindow(s.windows, Target(op))
    ensures Apply(s, op).windows == s.windows
    ensures Apply(s, op).nextZ == if op.Front? || op.Open? then s.nextZ + 1 else s.nextZ
  {
    if op.ToggleMax? || op.Focus? {
      UnknownAllocMap(s.windows, op.id, s.nextZ, op.ToggleMax?);
    } else {
      assert Apply(s, op).windows == s.windows;
    }
  }

  lemma {:induction false} UnknownAllocMap(ws: seq<Window>, id: string, z: int, toggle: bool)
    requires !HasWindow(ws, id)
    ensures AllocMap(ws, id, z, toggle) == Wm(ws, z)
    decreases |ws|
  {
    if ws != [] {
      assert !HasWindow(ws[1..], id);
      UnknownAllocMap(ws[1..], id, z, toggle);
      assert ws == [ws[0]] + ws[1..];
    }
  }

  /**
   * Over any sequence of calls from a valid state the state stays valid, the
   * counter never goes down, and every window whose z-index changed holds a
   * value drawn during the run: above everything present before it.
   */
  lemma {:induction false} RunFresh(s: Wm, ops: seq<Op>)
    requires Valid(s)
    ensures Valid(Run(s, ops)) && Run(s, ops).nextZ >= s.nextZ
    ensures |Run(s, ops).windows| == |s.windows|
    ensures forall k :: 0 <= k < |s.windows| && Run(s, ops).windows[k].zIndex != s.windows[k].zIndex ==>
              s.nextZ <= Run(s, ops).windows[k].zIndex
    decreases |ops|
  {
    if ops != [] {
      var s1 := Apply(s, ops[0]);
      ApplyFrame(s, ops[0]);
      ApplyPreservesValid(s, ops[0]);
      RunFresh(s1, ops[1..]);
      forall k | 0 <= k < |s.windows| && s1.windows[k].zIndex != s.windows[k].zIndex
        ensures s.nextZ <= s1.windows[k].zIndex
      {
        AllocatedIsTop(s, ops[0], k);
      }
    }
  }

  /** The `map` callback run over the list in order, with `nextZ++` at each window with the id. */
  method AllocLoop(ws: seq<Window>, id: string, z0: int, toggle: bool) returns (r: Wm)
    ensures r == AllocMap(ws, id, z0, toggle)
  {
    ghost var target := AllocMap(ws, id, z0, toggle);
    var z := z0;
    var out: seq<Window> := [];
    var k := 0;
    assert ws[0..] == ws;
    while k < |ws|
      invariant 0 <= k <= |ws|
      invariant out + AllocMap(ws[k..], id, z, toggle).windows == target.windows
      invariant AllocMap(ws[k..], id, z, toggle).nextZ == target.nextZ
    {
      AllocMapStep(ws, k, id, z, toggle, out, target);
      out := out + [if ws[k].id == id then Allocate(ws[k], z, toggle) else ws[k]];
      z := if ws[k].id == id then z + 1 else z;
      k := k + 1;
    }
    assert ws[k..] == [];
    r := Wm(out, z);
  }

  // ---------------------------------------------------------------------------
  // The hook's state
  // ---------------------------------------------------------------------------

  /** The hook: window records and the global counter, both replaced by its calls. */
  class Manager {
    var windows: seq<Window>
    var nextZ: int

    function State(): Wm
      reads this
    {
      Wm(windows, nextZ)
    }

    /** Builds one record per def in list order, each drawing the next counter value. */
    constructor (defs: seq<WindowDef>, viewport: Option<Viewport>)
      ensures State() == Initial(defs, Or(viewport, FallbackViewport))
      ensures UniqueDefIds(defs) ==> Valid(State())
    {
      var vp := Or(viewport, FallbackViewport);
      var ws: seq<Window> := [];
      var z := InitialZ;
      for i := 0 to |defs|
        invariant |ws| == i && z == InitialZ + i
        invariant forall k :: 0 <= k < i ==> ws[k] == InitialWindow(defs[k], k, InitialZ + k, vp)
      {
        ws := ws + [InitialWindow(defs[i], i, z, vp)];
        z := z + 1;
      }
      windows := ws;
      nextZ := z;
      InitialLayout(defs, vp);
    }

    method BringToFront(id: string)
      modifies this
      ensures State() == Apply(old(State()), Front(id))
      ensures Valid(old(State())) ==> Valid(State())
    {
      var z := nextZ;
      nextZ := nextZ + 1;
      windows := Update(windows, id, ZPatch(z));
      if Valid(old(State())) {
        ApplyPreservesValid(old(State()), Front(id));
      }
    }

    method OpenWindow(id: string)
      modifies this
      ensures State() == Apply(old(State()), Open(id))
      ensures Valid(old(State())) ==> Valid(State())
    {
      var z := nextZ;
      nextZ := nextZ + 1;
      windows := Update(windows, id, Patch(Some(true), Some(false), None, Some(z), None, None));
      if Valid(old(State())) {
        ApplyPreservesValid(old(State()), Open(id));
      }
    }

    method CloseWindow(id: string)
      modifies this
      ensures State() == Apply(old(State()), Close(id))
      ensures Valid(old(State())) ==> Valid(State())
    {
      windows := Update(windows, id, Patch(Some(false), Some(false), Some(false), None, None, None));
      if Valid(old(State())) {
        ApplyPreservesValid(old(State()), Close(id));
      }
    }

    method MinimizeWindow(id: string)
      modifies this
      ensures State() == Apply(old(State()), Minimize(id))
      ensures Valid(old(State())) ==> Valid(State())
    {
      windows := Update(windows, id, Patch(None, Some(true), None, None, None, None));
      if Valid(old(State())) {
        ApplyPreservesValid(old(State()), Minimize(id));
      }
    }

    /** Replaces the records with the walk's result and the counter with its last value. */
    method AllocateEach(id: string, toggle: bool)
      modifies this
      ensures State() == AllocMap(old(windows), id, old(nextZ), toggle)
    {
      var r := AllocLoop(windows, id, nextZ, toggle);
      windows := r.windows;
      nextZ := r.nextZ;
    }

    method ToggleMaximize(id: string)
      modifies this
      ensures State() == Apply(old(State()), ToggleMax(id))
      ensures Valid(old(State())) ==> Valid(State())
    {
      AllocateEach(id, true);
      if Valid(old(State())) {
        ApplyPreservesValid(old(State()), ToggleMax(id));
      }
    }

    method FocusWindow(id: string)
      modifies this
      ensures State() == Apply(old(State()), Focus(id))
      ensures Valid(old(State())) ==> Valid(State())
    {
      AllocateEach(id, false);
      if Valid(old(State())) {
        ApplyPreservesValid(old(State()), Focus(id));
      }
    }

    method MoveWindow(id: string, position: Point)
      modifies this
      ensures State() == Apply(old(State()), Move(id, position))
      ensures Valid(old(State())) ==> Valid(State())
    {
      windows := Update(windows, id, Patch(None, None, None, None, Some(position), None));
      if Valid(old(State())) {
        ApplyPreservesValid(old(State()), Move(id, position));
      }
    }

    method ResizeWindow(id: string, size: Size)
      modifies this
      ensures State() == Apply(old(State()), Resize(id, size))
      ensures Valid(old(State())) ==> Valid(State())
    {
      windows := Update(windows, id, Patch(None, None, None, None, None, Some(size)));
      if Valid(old(State())) {
        ApplyPreservesValid(old(State()), Resize(id, size));
      }
    }
  }
}
