/** `InputManager::GetKeyPressed`: the first virtual-key code, 0 to 255, whose
    asynchronous key state has its most significant bit set (the key is down), or -1.
    The operating system's key states are an input array of 16-bit values, one per
    key code. */
module InputManager {

  /** Number of virtual-key codes scanned. */
  const KeyCount: nat := 256

  /** The "key is down" bit of a GetAsyncKeyState result. */
  const DownBit: bv16 := 0x8000

  /** The `state & 0x8000` test. */
  predicate IsDown(state: bv16)
    ensures IsDown(state) <==> state >= DownBit
  {
    state & DownBit != 0
  }

  /** The key scan as a function: the first key code at or after `from` that is down,
      or -1 when none is. */
  function FirstDown(states: seq<bv16>, from: nat): (r: int)
    requires from <= |states|
    ensures -1 <= r < |states|
    decreases |states| - from
  {
    if from == |states| then -1
    else if IsDown(states[from]) then from
    else FirstDown(states, from + 1)
  }

  /** The scan finds what it promises: -1 exactly when no key from `from` on is down;
      otherwise a key at or after `from` that is down, with no key between `from` and
      it down. */
  lemma {:induction false} FirstDownIsFirst(states: seq<bv16>, from: nat)
    requires from <= |states|
    ensures var r := FirstDown(states, from);
            && (r == -1 <==> forall k :: from <= k < |states| ==> !IsDown(states[k]))
            && (r != -1 ==> from <= r && IsDown(states[r]))
            && (forall k :: from <= k < r ==> !IsDown(states[k]))
    decreases |states| - from
  {
    if from < |states| && !IsDown(states[from]) {
      FirstDownIsFirst(states, from + 1);
    }
  }

  /** Only the 0x8000 bit of each state decides the result: two key-state tables that
      agree on that bit everywhere give the same key. */
  lemma {:induction false} OnlyDownBitMatters(a: seq<bv16>, b: seq<bv16>, from: nat)
    requires |a| == |b| && from <= |a|
    requires forall k :: 0 <= k < |a| ==> a[k] & DownBit == b[k] & DownBit
    ensures FirstDown(a, from) == FirstDown(b, from)
    decreases |a| - from
  {
    if from < |a| {
      assert IsDown(a[from]) == IsDown(b[from]);
      OnlyDownBitMatters(a, b, from + 1);
    }
  }

  /** The loop over key codes 0 to 255 with its early return. */
  method GetKeyPressed(keyStates: array<bv16>) returns (r: int)
    requires keyStates.Length == KeyCount
    ensures r == FirstDown(keyStates[..], 0)
    ensures -1 <= r < KeyCount
    ensures r == -1 <==> forall k :: 0 <= k < KeyCount ==> !IsDown(keyStates[k])
    ensures r != -1 ==> IsDown(keyStates[r]) && forall k :: 0 <= k < r ==> !IsDown(keyStates[k])
  {
    FirstDownIsFirst(keyStates[..], 0);
    var i := 0;
    while i < KeyCount
      invariant 0 <= i <= KeyCount
      invariant FirstDown(keyStates[..], i) == FirstDown(keyStates[..], 0)
    {
      if keyStates[i] & DownBit != 0 {
        return i;
      }
      i := i + 1;
    }
    return -1;
  }
}
