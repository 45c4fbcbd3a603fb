/**
 * core/glfw/Monitor: a wrapper around a native GLFW monitor handle (a Java
 * long), and the static state Monitor keeps: the
 * handle-to-Monitor registry, the cached primary monitor and the cached
 * monitor list. The native queries glfwGetPrimaryMonitor and
 * glfwGetMonitors are parameters holding what they would return.
 */
module Monitors {
  import opened Wrappers

  /** A Java long. */
  newtype Long = x: int | -0x8000_0000_0000_0000 <= x < 0x8000_0000_0000_0000

  /** The two's-complement bit pattern of a long. */
  function Bits(x: Long): bv64
  {
    ((x as int) % 0x1_0000_0000_0000_0000) as bv64
  }

  class Monitor {
    const handle: Long

    /** Monitor(long) (Monitor.java:81-85): stores the handle and registers itself under it. */
    constructor (handle: Long, registry: MonitorRegistry)
      modifies registry
      ensures this.handle == handle
      ensures registry.registered == old(registry.registered)[handle := this]
      ensures registry.primary == old(registry.primary) && registry.monitors == old(registry.monitors)
    {
      this.handle := handle;
      new;
      registry.registered := registry.registered[handle := this];
    }

    /** hashCode (Monitor.java:345-348): the low 32 bits of handle ^ (handle >>> 32). */
    function HashCode(): (h: bv32)
      ensures h == ((Bits(handle) & 0xFFFF_FFFF) as bv32) ^ ((Bits(handle) >> 32) as bv32)
    {
      ((Bits(handle) ^ (Bits(handle) >> 32)) & 0xFFFF_FFFF) as bv32
    }

    /** equals (Monitor.java:350-359): the same object, or another Monitor with the same handle. */
    predicate Equals(o: object?): (eq: bool)
      ensures o == this ==> eq
      ensures o == null ==> !eq
      ensures o is Monitor ==> (eq <==> (o as Monitor).handle == handle)
      ensures eq ==> o is Monitor
    {
      this == o || (o != null && o is Monitor && (o as Monitor).handle == handle)
    }
  }

  /** Two monitors that are equal have equal hash codes, and equality between monitors is handle equality. */
  lemma EqualsConsistentWithHashCode(m: Monitor, n: Monitor)
    ensures m.Equals(n) <==> m.handle == n.handle
    ensures m.Equals(n) ==> m.HashCode() == n.HashCode()
    ensures m.Equals(n) == n.Equals(m)
  {
  }

  /** Returns the same value one would get from the high and low halves of a handle. */
  lemma HashCodeOfHalves(m: Monitor, hi: bv32, lo: bv32)
    requires Bits(m.handle) == ((hi as bv64) << 32) | (lo as bv64)
    ensures m.HashCode() == hi ^ lo
  {
  }

  /** Every monitor of `ms`, registered in order over `m`: later ones overwrite earlier ones with the same handle. */
  ghost function RegisterAll(m: map<Long, Monitor>, ms: seq<Monitor>): map<Long, Monitor>
    decreases |ms|
  {
    if ms == [] then m
    else RegisterAll(m, ms[..|ms| - 1])[ms[|ms| - 1].handle := ms[|ms| - 1]]
  }

  /** After registering a list each of its handles maps to the last monitor in it with that handle. */
  lemma {:induction false} RegisterAllLastWins(m: map<Long, Monitor>, ms: seq<Monitor>, k: nat)
    requires k < |ms|
    requires forall j :: k < j < |ms| ==> ms[j].handle != ms[k].handle
    ensures ms[k].handle in RegisterAll(m, ms) && RegisterAll(m, ms)[ms[k].handle] == ms[k]
    decreases |ms|
  {
    var init := ms[..|ms| - 1];
    var last := ms[|ms| - 1];
    assert RegisterAll(m, ms) == RegisterAll(m, init)[last.handle := last];
    if k < |ms| - 1 {
      assert forall j :: k < j < |init| ==> init[j] == ms[j];
      RegisterAllLastWins(m, init, k);
      assert init[k] == ms[k];
    }
  }

  /** Handles not in the list keep their earlier registration. */
  lemma {:induction false} RegisterAllKeepsOthers(m: map<Long, Monitor>, ms: seq<Monitor>, h: Long)
    requires forall j :: 0 <= j < |ms| ==> ms[j].handle != h
    ensures (h in RegisterAll(m, ms)) == (h in m)
    ensures h in m ==> RegisterAll(m, ms)[h] == m[h]
    decreases |ms|
  {
    if ms != [] {
      var init := ms[..|ms| - 1];
      var last := ms[|ms| - 1];
      assert forall j :: 0 <= j < |init| ==> init[j] == ms[j];
      RegisterAllKeepsOthers(m, init, h);
      assert RegisterAll(m, ms) == RegisterAll(m, init)[last.handle := last];
      assert last.handle != h;
    }
  }

  /** The static fields of Monitor (Monitor.java:63-66). */
  class MonitorRegistry {
    var registered: map<Long, Monitor>
    var primary: Monitor?
    var monitors: Option<seq<Monitor>>

    constructor ()
      ensures registered == map[] && primary == null && monitors == None
    {
      registered := map[];
      primary := null;
      monitors := None;
    }

    /**
     * getPrimaryMonitor (Monitor.java:93-99): constructs the primary monitor
     * from the native handle on the first call only.
     */
    method GetPrimaryMonitor(nativePrimary: Long) returns (m: Monitor)
      modifies this
      ensures old(primary) != null ==> m == old(primary) && registered == old(registered)
      ensures old(primary) == null ==> fresh(m) && m.handle == nativePrimary
                                       && registered == old(registered)[nativePrimary := m]
      ensures primary == m && monitors == old(monitors)
    {
      if primary == null {
        primary := new Monitor(nativePrimary, this);
      }
      m := primary;
    }

    /**
     * getMonitors (Monitor.java:136-151): on the first call builds one new
     * Monitor per native handle, in buffer order, and caches the list;
     * later calls return the cached list.
     */
    method GetMonitors(buffer: seq<Long>) returns (ms: seq<Monitor>)
      modifies this
      ensures old(monitors).Some? ==> ms == old(monitors).value && registered == old(registered)
      ensures old(monitors).None? ==>
                && |ms| == |buffer|
                && (forall i :: 0 <= i < |ms| ==> ms[i].handle == buffer[i] && fresh(ms[i]))
                && (forall i, j :: 0 <= i < j < |ms| ==> ms[i] != ms[j])
                && registered == RegisterAll(old(registered), ms)
      ensures monitors == Some(ms) && primary == old(primary)
    {
      if monitors.Some? {
        return monitors.value;
      }
      var list: seq<Monitor> := [];
      var i := 0;
      while i < |buffer|
        invariant 0 <= i <= |buffer| && |list| == i
        invariant forall k :: 0 <= k < i ==> list[k].handle == buffer[k] && fresh(list[k])
        invariant forall k, j :: 0 <= k < j < i ==> list[k] != list[j]
        invariant registered == RegisterAll(old(registered), list)
        invariant primary == old(primary) && monitors == old(monitors)
      {
        var m := new Monitor(buffer[i], this);
        assert (list + [m])[..i] == list;
        list := list + [m];
        i := i + 1;
      }
      monitors := Some(list);
      ms := list;
    }

    /**
     * isPrimary (Monitor.java:387-390): whether the first element of
     * getMonitors() equals m. An empty list makes get(0) throw; that is None.
     */
    method IsPrimary(m: Monitor, buffer: seq<Long>) returns (r: Option<bool>)
      modifies this
      ensures monitors.Some? && primary == old(primary)
      ensures old(monitors).Some? ==> monitors == old(monitors) && registered == old(registered)
      ensures old(monitors).None? ==> |monitors.value| == |buffer|
                                      && forall i :: 0 <= i < |buffer| ==> monitors.value[i].handle == buffer[i]
      ensures monitors.value == [] ==> r == None
      ensures monitors.value != [] ==> r == Some(monitors.value[0].handle == m.handle)
    {
      var ms := GetMonitors(buffer);
      if |ms| == 0 {
        return None;
      }
      r := Some(ms[0].Equals(m));
    }
  }
}
