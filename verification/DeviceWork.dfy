/** The reusable scratch allocator of a device pass. */
module DeviceWork {
  import opened Wrappers

  /** Device memory: live buffers by handle, with their size in elements. A handle is never reused. */
  class Device {
    var live: map<nat, int>
    var issued: nat

    constructor ()
      ensures Valid() && live == map[] && issued == 0
    {
      live, issued := map[], 0;
    }

    ghost predicate Valid()
      reads this
    {
      forall b :: b in live ==> b < issued
    }

    /** `ok` is the driver's answer. */
    method Malloc(elements: int, ok: bool) returns (b: Option<nat>)
      requires Valid()
      modifies this
      ensures Valid()
      ensures b.Some? == ok
      ensures ok ==> b.value == old(issued) && issued == old(issued) + 1 && live == old(live)[b.value := elements]
      ensures !ok ==> live == old(live) && issued == old(issued)
    {
      if !ok {
        return None;
      }
      b := Some(issued);
      live := live[issued := elements];
      issued := issued + 1;
    }

    /** Releasing a buffer needs it live, so proving callers correct proves every buffer is released at
        most once. */
    method Free(b: nat)
      requires Valid() && b in live
      modifies this`live
      ensures Valid() && live == old(live) - {b}
    {
      live := live - {b};
    }
  }

  /** The handles kept in slots. */
  function Held(buffers: seq<Option<nat>>): set<nat> {
    set i | 0 <= i < |buffers| && buffers[i].Some? :: buffers[i].value
  }

  class Work {
    const device: Device
    var buffers: seq<Option<nat>>
    var next: nat
    var failed: bool
    ghost const others: set<nat>         // live buffers that belong to somebody else
    ghost var handed: seq<nat>           // buffers handed out since the last begin

    constructor (device: Device)
      requires device.Valid()
      ensures Valid() && this.device == device && buffers == [] && others == device.live.Keys && handed == []
    {
      this.device, buffers, next, failed, others, handed := device, [], 0, false, device.live.Keys, [];
    }

    /** Slots hold distinct live buffers that nobody else owns, every live buffer is accounted for, and
        what has been handed out since `begin` sits in the slots before `next`. */
    ghost predicate Valid()
      reads this, device
    {
      && device.Valid() && next <= |buffers|
      && device.live.Keys == others + Held(buffers) && others !! Held(buffers)
      && (forall i, j :: 0 <= i < j < |buffers| && buffers[i].Some? && buffers[j].Some? ==>
                           buffers[i].value != buffers[j].value)
      && (if failed then |handed| < next else |handed| == next)
      && (forall i :: 0 <= i < |handed| ==> buffers[i] == Some(handed[i]))
    }

    method Begin()
      requires Valid()
      modifies this
      ensures Valid() && handed == [] && !failed && next == 0 && buffers == old(buffers)
    {
      next, failed, handed := 0, false, [];
    }

    /** The next slot keeps a buffer that is large enough. */
    predicate Reusable(elements: int)
      reads this, device
    {
      !failed && next < |buffers| && buffers[next].Some? && buffers[next].value in device.live
      && elements <= device.live[buffers[next].value]
    }

    /** A buffer of at least the requested size, different from every buffer handed out since `begin`.
        After a failed allocation nothing more is handed out until the next `begin`. */
    method Alloc(elements: int, ok: bool) returns (b: Option<nat>)
      requires Valid()
      modifies this, device
      ensures Valid()
      ensures old(failed) ==> b.None? && device.live == old(device.live)
      ensures old(Reusable(elements)) ==> b == old(buffers)[old(next)] && device.live == old(device.live)
      ensures !old(failed) && !old(Reusable(elements)) ==>
                b.Some? == ok && (ok ==> b.value in device.live && device.live[b.value] == elements)
      ensures b.Some? ==>
                b.value in device.live && device.live[b.value] >= elements && b.value !in old(handed)
                && handed == old(handed) + [b.value]
      ensures (failed <==> b.None?) && (b.None? ==> handed == old(handed))
      ensures forall x :: x in old(handed) ==> x in device.live && device.live[x] == old(device.live)[x]
    {
      if failed {
        return None;
      }
      Grow();
      var slot := buffers[next];
      if slot.Some? && elements <= device.live[slot.value] {
        b := slot;
      } else {
        b := Refill(elements, ok);
      }
      next := next + 1;
      if b.Some? {
        handed := handed + [b.value];
      } else {
        failed := true;
      }
    }

    /** Makes sure slot `next` exists. */
    method Grow()
      requires Valid()
      modifies this`buffers
      ensures Valid() && next < |buffers| && old(buffers) <= buffers
    {
      if next == |buffers| {
        SlotAdded(buffers, buffers + [None]);
        buffers := buffers + [None];
      }
    }

    /** Replaces what slot `next` keeps by a new allocation. */
    method Refill(elements: int, ok: bool) returns (b: Option<nat>)
      requires Valid() && !failed && next < |buffers|
      modifies this`buffers, device
      ensures Valid() && next < |buffers| && b.Some? == ok && buffers[next] == b
      ensures b.Some? ==> b.value in device.live && device.live[b.value] == elements && b.value !in handed
      ensures forall x :: x in handed ==> x in device.live && device.live[x] == old(device.live)[x]
    {
      Empty();
      b := device.Malloc(elements, ok);
      if b.Some? {
        SlotFilled(buffers, next, b.value);
        buffers := buffers[next := b];
      }
    }

    /** Releases what slot `next` keeps. */
    method Empty()
      requires Valid() && !failed && next < |buffers|
      modifies this`buffers, device`live
      ensures Valid() && |buffers| == |old(buffers)| && buffers[next].None?
      ensures forall x :: x in handed ==> x in device.live && device.live[x] == old(device.live)[x]
    {
      var slot := buffers[next];
      if slot.Some? {
        SlotCleared(buffers, next);
        device.Free(slot.value);
        buffers := buffers[next := None];
      }
    }

    lemma SlotAdded(before: seq<Option<nat>>, after: seq<Option<nat>>)
      requires after == before + [None]
      ensures Held(after) == Held(before)
    {
      forall x | x in Held(before) ensures x in Held(after) {
        var i :| 0 <= i < |before| && before[i] == Some(x);
        assert after[i] == Some(x);
      }
    }

    lemma SlotCleared(b: seq<Option<nat>>, k: nat)
      requires k < |b| && b[k].Some?
      requires forall i, j :: 0 <= i < j < |b| && b[i].Some? && b[j].Some? ==> b[i].value != b[j].value
      ensures Held(b[k := None]) == Held(b) - {b[k].value} && b[k].value in Held(b)
    {
      var c := b[k := None];
      forall x | x in Held(b) && x != b[k].value ensures x in Held(c) {
        var i :| 0 <= i < |b| && b[i] == Some(x);
        assert c[i] == Some(x);
      }
      forall x | x in Held(c) ensures x in Held(b) && x != b[k].value {
        var i :| 0 <= i < |c| && c[i] == Some(x);
        assert b[i] == Some(x);
      }
    }

    lemma SlotFilled(b: seq<Option<nat>>, k: nat, x: nat)
      requires k < |b| && b[k].None?
      ensures Held(b[k := Some(x)]) == Held(b) + {x}
    {
      var c := b[k := Some(x)];
      forall y | y in Held(b) ensures y in Held(c) {
        var i :| 0 <= i < |b| && b[i] == Some(y);
        assert c[i] == Some(y);
      }
      assert c[k] == Some(x);
    }

    /** Releases every kept buffer once; afterwards only other owners' buffers are live. */
    method Free()
      requires Valid()
      modifies this, device
      ensures Valid() && buffers == [] && handed == [] && device.live.Keys == others
    {
      for i := 0 to |buffers|
        invariant buffers == old(buffers) && device.Valid()
        invariant device.live.Keys == others + Held(buffers[i..])
      {
        assert buffers[i..] == [buffers[i]] + buffers[i + 1..];
        TailHeld(buffers, i);
        if buffers[i].Some? {
          device.Free(buffers[i].value);
        }
      }
      assert Held(buffers[|buffers|..]) == {};
      buffers := [];
      next, failed, handed := 0, false, [];
    }

    lemma TailHeld(b: seq<Option<nat>>, i: nat)
      requires i < |b| && others !! Held(b)
      requires forall j, k :: 0 <= j < k < |b| && b[j].Some? && b[k].Some? ==> b[j].value != b[k].value
      ensures Held(b[i..]) == Held(b[i + 1..]) + (if b[i].Some? then {b[i].value} else {})
      ensures b[i].Some? ==> b[i].value !in Held(b[i + 1..]) && b[i].value !in others
    {
      var s, t := b[i..], b[i + 1..];
      forall x | x in Held(t) ensures x in Held(s) {
        var k :| 0 <= k < |t| && t[k] == Some(x);
        assert s[k + 1] == Some(x);
      }
      forall x | x in Held(s) && !(b[i].Some? && x == b[i].value) ensures x in Held(t) {
        var k :| 0 <= k < |s| && s[k] == Some(x);
        assert k > 0 && t[k - 1] == Some(x);
      }
      if b[i].Some? {
        assert s[0] == b[i];
        assert b[i].value in Held(b);
      }
    }
  }

  /** One call on the allocator. */
  datatype Call = BeginCall | AllocCall(elements: int, ok: bool) | FreeCall

  /** No call between `a` and `b` ends a pass. */
  ghost predicate SamePass(calls: seq<Call>, a: nat, b: nat)
    requires b < |calls|
  {
    forall k :: a < k <= b ==> calls[k].AllocCall?
  }

  /** Any sequence of calls, failed allocations included, followed by a free: every buffer the allocator
      ever took is released, each once, and no other owner's buffer is touched. No two allocations of one
      pass get the same buffer, and none goes without while the driver refuses nothing. */
  method RunCalls(w: Work, calls: seq<Call>) returns (out: seq<Option<nat>>)
    requires w.Valid()
    modifies w, w.device
    ensures w.Valid() && w.buffers == [] && w.device.live.Keys == w.others
    ensures |out| == |calls|
    ensures forall a, b :: 0 <= a < b < |out| && out[a].Some? && out[b].Some? && SamePass(calls, a, b) ==>
                             out[a] != out[b]
    ensures !old(w.failed) && (forall i :: 0 <= i < |calls| && calls[i].AllocCall? ==> calls[i].ok) ==>
              forall i :: 0 <= i < |calls| && calls[i].AllocCall? ==> out[i].Some?
  {
    out := [];
    for i := 0 to |calls|
      invariant w.Valid() && |out| == i
      invariant forall a, b :: 0 <= a < b < i && out[a].Some? && out[b].Some? && SamePass(calls, a, b) ==>
                                 out[a] != out[b]
      invariant forall a :: 0 <= a < i && out[a].Some? && SamePass(calls, a, i - 1) ==> out[a].value in w.handed
      invariant !old(w.failed) && (forall j :: 0 <= j < i && calls[j].AllocCall? ==> calls[j].ok) ==>
          !w.failed && forall j :: 0 <= j < i && calls[j].AllocCall? ==> out[j].Some?
    {
      ghost var handed := w.handed;
      var b: Option<nat> := None;
      match calls[i] {
        case BeginCall => w.Begin();
        case AllocCall(elements, ok) => b := w.Alloc(elements, ok);
        case FreeCall => w.Free();
      }
      forall a | 0 <= a < i && out[a].Some? && SamePass(calls, a, i)
        ensures SamePass(calls, a, i - 1) && calls[i].AllocCall?
        ensures b != out[a]
        ensures out[a].value in w.handed
      {
        assert calls[i].AllocCall? && SamePass(calls, a, i - 1);
        assert out[a].value in handed;
      }
      out := out + [b];
    }
    w.Free();
  }
}
