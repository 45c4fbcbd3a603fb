/**
 * backend/lwjgl/glfw/Window: picking the monitor a window is on, the fifteen
 * user callback slots, and the title and monitor fields. Window position and
 * size and each monitor's virtual position and video mode are native GLFW
 * queries; they arrive here as integer rectangles.
 */
module Windows {
  import opened Wrappers
  import opened Monitors

  /** An axis-aligned integer rectangle: the top-left corner and the extent. */
  datatype Rect = Rect(x: int, y: int, w: int, h: int)

  function Max(a: int, b: int): int { if a >= b then a else b }

  function Min(a: int, b: int): int { if a <= b then a else b }

  /** The length by which [a0, a0 + alen) and [b0, b0 + blen) overlap, or 0. */
  function Overlap(a0: int, alen: int, b0: int, blen: int): (r: int)
    ensures r >= 0
    ensures r > 0 <==> 0 < alen && 0 < blen && a0 < b0 + blen && b0 < a0 + alen
    ensures r <= Max(alen, 0) && r <= Max(blen, 0)
  {
    Max(0, Min(a0 + alen, b0 + blen) - Max(a0, b0))
  }

  /**
   * The intersection area of a window and a monitor (Window.java:1717),
   * over mathematical integers.
   */
  function Score(win: Rect, mon: Rect): (r: int)
    ensures r >= 0
    ensures r > 0 <==> && 0 < win.w && 0 < mon.w && win.x < mon.x + mon.w && mon.x < win.x + win.w
                       && 0 < win.h && 0 < mon.h && win.y < mon.y + mon.h && mon.y < win.y + win.h
    ensures win.x + win.w <= mon.x || mon.x + mon.w <= win.x || win.y + win.h <= mon.y || mon.y + mon.h <= win.y ==> r == 0
  {
    var ox := Overlap(win.x, win.w, mon.x, mon.w);
    var oy := Overlap(win.y, win.h, mon.y, mon.h);
    ProductPositive(ox, oy);
    ox * oy
  }

  lemma ProductPositive(a: int, b: int)
    requires a >= 0 && b >= 0
    ensures a * b >= 0
    ensures a * b > 0 <==> a > 0 && b > 0
  {
    if a > 0 && b > 0 {
      assert a * b >= b;
    }
  }

  /**
   * Monitor k is the one getCurrentMonitor picks: it has the largest
   * positive score, and every monitor before it scores strictly less.
   */
  ghost predicate IsCurrent(win: Rect, screens: seq<Rect>, k: nat)
  {
    && k < |screens|
    && Score(win, screens[k]) > 0
    && (forall j :: 0 <= j < |screens| ==> Score(win, screens[j]) <= Score(win, screens[k]))
    && (forall j :: 0 <= j < k ==> Score(win, screens[j]) < Score(win, screens[k]))
  }

  /** At most one monitor is the current one. */
  lemma CurrentIsUnique(win: Rect, screens: seq<Rect>, k1: nat, k2: nat)
    requires IsCurrent(win, screens, k1) && IsCurrent(win, screens, k2)
    ensures k1 == k2
  {
  }

  /**
   * getCurrentMonitor (Window.java:1697-1727): screens[i] is the rectangle
   * of the i-th monitor of Monitor.getMonitors(); the result is the index of
   * the monitor returned, None for null.
   */
  method GetCurrentMonitor(win: Rect, screens: seq<Rect>) returns (current: Option<nat>)
    ensures current.None? <==> forall j :: 0 <= j < |screens| ==> Score(win, screens[j]) == 0
    ensures current.Some? ==> IsCurrent(win, screens, current.value)
  {
    var bestoverlap := 0;
    current := None;
    var i := 0;
    while i < |screens|
      invariant 0 <= i <= |screens|
      invariant current.None? ==> bestoverlap == 0 && forall j :: 0 <= j < i ==> Score(win, screens[j]) == 0
      invariant current.Some? ==> && current.value < i && bestoverlap == Score(win, screens[current.value]) > 0
                                  && (forall j :: 0 <= j < i ==> Score(win, screens[j]) <= bestoverlap)
                                  && (forall j :: 0 <= j < current.value ==> Score(win, screens[j]) < bestoverlap)
    {
      var overlap := Score(win, screens[i]);
      if bestoverlap < overlap {
        bestoverlap := overlap;
        current := Some(i);
      }
      i := i + 1;
    }
  }

  /** The callback interfaces a Window holds one of each (Window.java:146-160). */
  datatype CallbackKind =
    | Character | CharacterMods | CursorEnter | CursorPosition | Drop | FramebufferSize | Key
    | MouseButton | Scroll | Close | Focus | Iconify | Position | Refresh | Size

  /** A stored callback: the built-in do-nothing lambda, or one the application supplied. */
  datatype Callback = NoOp | Handler(id: nat)

  /** The slots after storing the do-nothing callback under each of the fifteen kinds in turn. */
  function InitialSlots(slots: map<CallbackKind, Callback>): (r: map<CallbackKind, Callback>)
    ensures forall k: CallbackKind :: k in r && r[k] == NoOp
  {
    InitialSlotsFull(slots);
    slots[Character := NoOp][CharacterMods := NoOp][CursorEnter := NoOp][CursorPosition := NoOp][Drop := NoOp][FramebufferSize := NoOp][Key := NoOp][MouseButton := NoOp][Scroll := NoOp][Close := NoOp][Focus := NoOp][Iconify := NoOp][Position := NoOp][Refresh := NoOp][Size := NoOp]
  }

  lemma InitialSlotsFull(slots: map<CallbackKind, Callback>)
    ensures var r := slots[Character := NoOp][CharacterMods := NoOp][CursorEnter := NoOp][CursorPosition := NoOp][Drop := NoOp][FramebufferSize := NoOp][Key := NoOp][MouseButton := NoOp][Scroll := NoOp][Close := NoOp][Focus := NoOp][Iconify := NoOp][Position := NoOp][Refresh := NoOp][Size := NoOp]; forall k: CallbackKind :: k in r && r[k] == NoOp
  {
    var r := slots[Character := NoOp][CharacterMods := NoOp][CursorEnter := NoOp][CursorPosition := NoOp][Drop := NoOp][FramebufferSize := NoOp][Key := NoOp][MouseButton := NoOp][Scroll := NoOp][Close := NoOp][Focus := NoOp][Iconify := NoOp][Position := NoOp][Refresh := NoOp][Size := NoOp];
    forall k: CallbackKind
      ensures k in r && r[k] == NoOp
    {
      match k
      case Character =>
      case CharacterMods =>
      case CursorEnter =>
      case CursorPosition =>
      case Drop =>
      case FramebufferSize =>
      case Key =>
      case MouseButton =>
      case Scroll =>
      case Close =>
      case Focus =>
      case Iconify =>
      case Position =>
      case Refresh =>
      case Size =>
    }
  }

  /** What a setter stores for its argument: null becomes the do-nothing lambda. */
  function Stored(callback: Option<Callback>): (c: Callback)
    ensures callback.Some? ==> c == callback.value
    ensures callback.None? ==> c.NoOp?
  {
    if callback.None? then NoOp else callback.value
  }

  class Window {
    const handle: Long
    var title: string
    var monitor: Monitor?
    /** The custom callback fields; a kind absent from the map is a null field. */
    var callbacks: map<CallbackKind, Callback>

    /** Every slot holds a callback, so no getter returns null. */
    ghost predicate Valid()
      reads this
    {
      forall k: CallbackKind :: k in callbacks
    }

    /**
     * Window(int, int, String, Monitor, int, Window) (Window.java:275-294),
     * after glfwCreateWindow returned a non-null handle: stores title and
     * monitor, and initNativeCallbacks (Window.java:493-496) initialises
     * every callback slot.
     */
    constructor (handle: Long, title: string, monitor: Monitor?)
      requires handle != 0
      ensures this.handle == handle && this.title == title && this.monitor == monitor
      ensures Valid() && forall k: CallbackKind :: callbacks[k] == NoOp
    {
      this.handle := handle;
      this.title := title;
      this.monitor := monitor;
      callbacks := map[];
      new;
      InitCustomCallbacks();
    }

    /**
     * The same constructor seen from its caller: a null native handle makes
     * it throw "Cannot create window" (Window.java:283-286).
     */
    static method Create(nativeHandle: Long, title: string, monitor: Monitor?) returns (r: Result<Window, string>)
      ensures nativeHandle == 0 <==> r.Failure?
      ensures r.Failure? ==> r.error == "Cannot create window"
      ensures r.Success? ==> && fresh(r.value) && r.value.handle == nativeHandle
                             && r.value.title == title && r.value.monitor == monitor
                             && r.value.Valid() && forall k: CallbackKind :: r.value.callbacks[k] == NoOp
    {
      if nativeHandle == 0 {
        return Failure("Cannot create window");
      }
      var w := new Window(nativeHandle, title, monitor);
      r := Success(w);
    }

    /**
     * set*Callback (for example setCharacterCallback, Window.java:1216-1228,
     * and setKeyCallback, Window.java:1412-1424): stores the argument, or the
     * do-nothing lambda for null, and returns what was stored before.
     */
    method SetCallback(kind: CallbackKind, callback: Option<Callback>) returns (previous: Option<Callback>)
      modifies this
      ensures previous == old(GetCallback(kind))
      ensures callbacks == old(callbacks)[kind := Stored(callback)]
      ensures GetCallback(kind) == Some(Stored(callback))
      ensures title == old(title) && monitor == old(monitor)
    {
      previous := if kind in callbacks then Some(callbacks[kind]) else None;
      callbacks := callbacks[kind := Stored(callback)];
    }

    /** get*Callback (for example getCharacterCallback, Window.java:1203-1206): the stored callback, None for null. */
    function GetCallback(kind: CallbackKind): (r: Option<Callback>)
      reads this
      ensures r.None? <==> kind !in callbacks
      ensures r.Some? ==> r.value == callbacks[kind]
      ensures Valid() ==> r.Some?
    {
      if kind in callbacks then Some(callbacks[kind]) else None
    }

    /** initCustomCallbacks (Window.java:594-612): every setter called with null. */
    method InitCustomCallbacks()
      modifies this
      ensures callbacks == InitialSlots(old(callbacks))
      ensures Valid() && forall k: CallbackKind :: callbacks[k] == NoOp
      ensures title == old(title) && monitor == old(monitor)
    {
      var previous := SetCallback(Character, None);
      previous := SetCallback(CharacterMods, None);
      previous := SetCallback(CursorEnter, None);
      previous := SetCallback(CursorPosition, None);
      previous := SetCallback(Drop, None);
      previous := SetCallback(FramebufferSize, None);
      previous := SetCallback(Key, None);
      previous := SetCallback(MouseButton, None);
      previous := SetCallback(Scroll, None);
      previous := SetCallback(Close, None);
      previous := SetCallback(Focus, None);
      previous := SetCallback(Iconify, None);
      previous := SetCallback(Position, None);
      previous := SetCallback(Refresh, None);
      previous := SetCallback(Size, None);
    }

    /** getTitle (Window.java:1169-1172). */
    function GetTitle(): (t: string)
      reads this
      ensures t == title
    {
      title
    }

    /** setTitle (Window.java:1179-1184); the native glfwSetWindowTitle is not modelled. */
    method SetTitle(t: string)
      modifies this
      ensures GetTitle() == t
      ensures monitor == old(monitor) && callbacks == old(callbacks)
    {
      title := t;
    }

    /** getMonitor (Window.java:1154-1157). */
    function GetMonitor(): (m: Monitor?)
      reads this
      ensures m == monitor
    {
      monitor
    }

    /** setMonitor (Window.java:776-778 and 1159-1162); the native glfwSetWindowMonitor is not modelled. */
    method SetMonitor(m: Monitor?)
      modifies this
      ensures GetMonitor() == m
      ensures title == old(title) && callbacks == old(callbacks)
    {
      monitor := m;
    }
  }
}
