/**
 * `CameraManager`: cycle through an array of cameras; activating index i
 * enables and tags camera i and disables and untags every other slot, up to
 * the first empty slot, where the loop throws.
 */
module Cameras {
  const MainCameraTag: string := "MainCamera"
  const UntaggedTag: string := "Untagged"

  /** The two properties of a Unity camera that the manager writes. */
  class Camera {
    var enabled: bool
    var tag: string

    constructor (enabled: bool, tag: string)
      ensures this.enabled == enabled && this.tag == tag
    {
      this.enabled := enabled;
      this.tag := tag;
    }
  }

  /** The last slot holding `c`, or -1; the loop's last write to an object is the one that stays. */
  function LastSlot(cams: seq<Camera?>, c: Camera?): int {
    if cams == [] then -1
    else if cams[|cams| - 1] == c then |cams| - 1
    else LastSlot(cams[..|cams| - 1], c)
  }

  predicate Distinct(cams: seq<Camera?>) {
    forall i, j :: 0 <= i < j < |cams| ==> cams[i] != cams[j]
  }

  /** When no camera object is repeated, each slot is its own last slot. */
  lemma {:induction false} LastSlotOfDistinct(cams: seq<Camera?>, j: int)
    requires Distinct(cams) && 0 <= j < |cams|
    ensures LastSlot(cams, cams[j]) == j
  {
    if j < |cams| - 1 {
      var pre := cams[..|cams| - 1];
      assert pre[j] == cams[j];
      LastSlotOfDistinct(pre, j);
    }
  }

  /**
   * The first empty slot, or the length when every slot holds a camera:
   * the activation loop throws on reaching it.
   */
  function FirstNull(cams: seq<Camera?>): (k: nat)
    ensures k <= |cams|
    ensures k < |cams| ==> cams[k] == null
  {
    if cams == [] || cams[0] == null then 0 else 1 + FirstNull(cams[1..])
  }

  /** Every slot before the first empty one holds a camera. */
  lemma {:induction false} FirstNullPrefix(cams: seq<Camera?>)
    ensures forall j :: 0 <= j < FirstNull(cams) ==> cams[j] != null
  {
    if cams != [] && cams[0] != null {
      FirstNullPrefix(cams[1..]);
      assert forall j :: 1 <= j < FirstNull(cams) ==> cams[j] == cams[1..][j - 1];
    }
  }

  /** `(i + 1) % n`: the next camera index. */
  function NextIndex(i: int, n: int): int
    requires n > 0
  {
    (i + 1) % n
  }

  /** The index after `k` switches. */
  function Advance(i: int, k: nat, n: int): int
    requires n > 0
  {
    if k == 0 then i else NextIndex(Advance(i, k - 1, n), n)
  }

  /** From a valid index the next one is one further, wrapping from the last slot to 0. */
  lemma NextIndexWraps(a: int, n: int)
    requires 0 <= a < n
    ensures NextIndex(a, n) == if a + 1 < n then a + 1 else 0
  {
    if a + 1 < n {
      ModBelow(a + 1, n);
    } else {
      ModSelf(n);
    }
  }

  lemma ModBelow(x: int, n: int)
    requires 0 <= x < n
    ensures x % n == x
  {
  }

  lemma ModSelf(n: int)
    requires n > 0
    ensures n % n == 0
  {
  }

  /** Switches from a valid index never leave [0, n). */
  lemma {:induction false} AdvanceInRange(i: int, k: nat, n: int)
    requires 0 <= i < n
    ensures 0 <= Advance(i, k, n) < n
  {
    if k > 0 {
      AdvanceInRange(i, k - 1, n);
      NextIndexWraps(Advance(i, k - 1, n), n);
    }
  }

  /** Without reaching the end of the array, `k` switches move `k` slots on. */
  lemma {:induction false} AdvanceNoWrap(i: int, k: nat, n: int)
    requires 0 <= i && i + k < n
    ensures Advance(i, k, n) == i + k
  {
    if k > 0 {
      AdvanceNoWrap(i, k - 1, n);
      NextIndexWraps(i + k - 1, n);
    }
  }

  lemma {:induction false} AdvanceAdd(i: int, a: nat, b: nat, n: int)
    requires n > 0
    ensures Advance(i, a + b, n) == Advance(Advance(i, a, n), b, n)
  {
    if b > 0 {
      AdvanceAdd(i, a, b - 1, n);
    }
  }

  /** Switching `n` times from any valid index returns to it, and every index stays in range. */
  lemma FullCycle(i: int, n: int)
    requires 0 <= i < n
    ensures Advance(i, n, n) == i
    ensures forall k: nat :: 0 <= Advance(i, k, n) < n
  {
    var toEnd := n - 1 - i;
    AdvanceAdd(i, toEnd, i + 1, n);
    AdvanceNoWrap(i, toEnd, n);
    AdvanceAdd(n - 1, 1, i, n);
    NextIndexWraps(n - 1, n);
    AdvanceNoWrap(0, i, n);
    forall k: nat ensures 0 <= Advance(i, k, n) < n {
      AdvanceInRange(i, k, n);
    }
  }

  class CameraManager {
    /** The inspector array: it may be unassigned, and any slot may be empty. */
    var cameras: array?<Camera?>
    var currentCameraIndex: int

    ghost function Objects(): set<Camera?>
      reads this, cameras
    {
      if cameras == null then {} else set j | 0 <= j < cameras.Length :: cameras[j]
    }

    /** The cameras held by the first `n` slots. */
    ghost function Prefix(n: int): set<Camera?>
      requires cameras != null && 0 <= n <= cameras.Length
      reads this, cameras
    {
      set c | c in cameras[..n]
    }

    /**
     * The loop has activated `index` over its first `n` slots: each of them
     * holds a camera, enabled and tagged "MainCamera" exactly when its
     * object's last slot among them is `index`, disabled and "Untagged"
     * otherwise.
     */
    ghost predicate Activated(index: int, n: int)
      reads this, cameras, Objects()
    {
      cameras != null && 0 <= n <= cameras.Length &&
      forall j :: 0 <= j < n ==>
        && cameras[j] != null
        && cameras[j].enabled == (LastSlot(cameras[..n], cameras[j]) == index)
        && cameras[j].tag == (if LastSlot(cameras[..n], cameras[j]) == index then MainCameraTag else UntaggedTag)
    }

    constructor (cameras: array?<Camera?>)
      ensures this.cameras == cameras && currentCameraIndex == 0
    {
      this.cameras := cameras;
      currentCameraIndex := 0;
    }

    /**
     * The `for` loop of SetActiveCamera over its first `n` slots, all holding
     * a camera: only the cameras in those slots are written.
     */
    method ActivatePrefix(index: int, n: nat)
      requires cameras != null && n <= cameras.Length
      requires forall j :: 0 <= j < n ==> cameras[j] != null
      modifies Prefix(n)
      ensures forall j :: 0 <= j < n ==>
        && cameras[j].enabled == (LastSlot(cameras[..n], cameras[j]) == index)
        && cameras[j].tag == (if LastSlot(cameras[..n], cameras[j]) == index then MainCameraTag else UntaggedTag)
    {
      for i := 0 to n
        invariant forall j :: 0 <= j < i ==>
          && cameras[j].enabled == (LastSlot(cameras[..i], cameras[j]) == index)
          && cameras[j].tag == (if LastSlot(cameras[..i], cameras[j]) == index then MainCameraTag else UntaggedTag)
      {
        assert cameras[..i + 1][..i] == cameras[..i];
        if i == index {
          cameras[i].enabled := true;
          cameras[i].tag := MainCameraTag;
        } else {
          cameras[i].enabled := false;
          cameras[i].tag := UntaggedTag;
        }
        forall j | 0 <= j < i + 1 && cameras[j] != cameras[i]
          ensures LastSlot(cameras[..i + 1], cameras[j]) == LastSlot(cameras[..i], cameras[j])
        {
        }
      }
    }

    /**
     * Enable and tag slot `index`, disable and untag every other one. The loop
     * throws at the first empty slot: `ok` is false then, the slots before it
     * are written, and a camera held only by later slots is untouched.
     */
    method SetActiveCamera(index: int) returns (ok: bool)
      requires cameras != null
      modifies Objects()
      ensures ok == (FirstNull(cameras[..]) == cameras.Length)
      ensures Activated(index, FirstNull(cameras[..]))
      ensures forall j :: (FirstNull(cameras[..]) <= j < cameras.Length && cameras[j] != null &&
                cameras[j] !in cameras[..FirstNull(cameras[..])]) ==>
                cameras[j].enabled == old(cameras[j].enabled) && cameras[j].tag == old(cameras[j].tag)
      ensures ok && Distinct(cameras[..]) ==> forall j :: 0 <= j < cameras.Length ==>
        cameras[j].enabled == (j == index) && cameras[j].tag == (if j == index then MainCameraTag else UntaggedTag)
      ensures ok && Distinct(cameras[..]) && 0 <= index < cameras.Length ==>
        (set j | 0 <= j < cameras.Length && cameras[j].enabled) == {index}
    {
      var n := FirstNull(cameras[..]);
      FirstNullPrefix(cameras[..]);
      ActivatePrefix(index, n);
      ok := n == cameras.Length;
      if ok && Distinct(cameras[..]) {
        assert cameras[..n] == cameras[..];
        ExactlyOneEnabled(cameras[..], index);
      }
    }

    /**
     * Start: without cameras nothing is activated; otherwise the current index
     * (0 after construction) is, and as in SetActiveCamera a camera held only
     * by slots after the first empty one is untouched.
     */
    method Start()
      modifies Objects()
      ensures cameras == null || cameras.Length == 0 ==> unchanged(Objects())
      ensures cameras != null && cameras.Length > 0 ==> Activated(currentCameraIndex, FirstNull(cameras[..]))
      ensures cameras != null ==> forall j :: (FirstNull(cameras[..]) <= j < cameras.Length && cameras[j] != null &&
                cameras[j] !in cameras[..FirstNull(cameras[..])]) ==>
                cameras[j].enabled == old(cameras[j].enabled) && cameras[j].tag == old(cameras[j].tag)
    {
      if cameras == null || cameras.Length == 0 {
        return;
      }
      var _ := SetActiveCamera(currentCameraIndex);
    }

    /**
     * Space pressed: advance cyclically and activate. Without cameras the
     * source's `% cameras.Length` throws before anything is written; an empty
     * slot throws during activation, after the index has moved. `ok` is false
     * in both cases.
     */
    method SwitchToNextCamera() returns (ok: bool)
      requires 0 <= currentCameraIndex
      modifies this`currentCameraIndex, Objects()
      ensures ok == (cameras != null && cameras.Length > 0 && FirstNull(cameras[..]) == cameras.Length)
      ensures cameras == null || cameras.Length == 0 ==>
        currentCameraIndex == old(currentCameraIndex) && unchanged(Objects())
      ensures cameras != null && cameras.Length > 0 ==>
        && currentCameraIndex == NextIndex(old(currentCameraIndex), cameras.Length)
        && 0 <= currentCameraIndex < cameras.Length
        && Activated(currentCameraIndex, FirstNull(cameras[..]))
      ensures cameras != null ==> forall j :: (FirstNull(cameras[..]) <= j < cameras.Length && cameras[j] != null &&
                cameras[j] !in cameras[..FirstNull(cameras[..])]) ==>
                cameras[j].enabled == old(cameras[j].enabled) && cameras[j].tag == old(cameras[j].tag)
    {
      if cameras == null || cameras.Length == 0 {
        return false;
      }
      currentCameraIndex := (currentCameraIndex + 1) % cameras.Length;
      ok := SetActiveCamera(currentCameraIndex);
    }
  }

  /**
   * When no camera object is repeated, activating `index` over every slot
   * enables and tags exactly that slot: the enabled slots are {index}.
   */
  lemma ExactlyOneEnabled(cams: seq<Camera?>, index: int)
    requires Distinct(cams)
    requires forall j :: 0 <= j < |cams| ==>
      && cams[j] != null
      && cams[j].enabled == (LastSlot(cams, cams[j]) == index)
      && cams[j].tag == (if LastSlot(cams, cams[j]) == index then MainCameraTag else UntaggedTag)
    ensures forall j :: 0 <= j < |cams| ==>
      cams[j].enabled == (j == index) && cams[j].tag == (if j == index then MainCameraTag else UntaggedTag)
    ensures 0 <= index < |cams| ==> (set j | 0 <= j < |cams| && cams[j].enabled) == {index}
  {
    forall j | 0 <= j < |cams| ensures LastSlot(cams, cams[j]) == j {
      LastSlotOfDistinct(cams, j);
    }
  }
}
