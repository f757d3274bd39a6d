/**
 * The toast lifecycle of static/js/notify.js: `ensureContainer`, `notify`, the
 * `dismiss` closure with its removal callback, and the close-button and hover
 * listeners. DOM nodes are indices into the sequences a `Center` keeps; pending
 * `setTimeout` callbacks are a sequence of timers that fire in any order.
 */
module ToastCenter {
  import opened Wrappers
  import Notifications

  /** A container element: whether the body still holds it, and its toast children in order. */
  datatype Container = Container(attached: bool, children: seq<nat>)

  /** The delay an auto-dismiss was set with: TOAST_DURATION, or TOAST_DURATION / 1.5 after the cursor left. */
  datatype Delay = Full | Shortened

  /** TOAST_DURATION, and the delay of the removal callback after the exit animation starts, in milliseconds. */
  const ToastDuration: real := 2500.0
  const RemovalDelay: real := 160.0

  /** How long an auto-dismiss waits; leaving the toast with the cursor shortens the wait by a factor of 1.5. */
  function Milliseconds(d: Delay): (r: real)
    ensures d == Full ==> r == ToastDuration
    ensures d == Shortened ==> r * 1.5 == ToastDuration
    ensures RemovalDelay < r <= ToastDuration
  {
    match d
    case Full => ToastDuration
    case Shortened => ToastDuration / 1.5
  }

  /** A pending `setTimeout` callback: the auto-dismiss of a toast (with its timer id), or the removal after the exit animation. */
  datatype Timer = AutoDismiss(toast: nat, handle: nat, delay: Delay) | Removal(toast: nat)

  /** A toast element: the container its closures captured, the id in its `hideTimer`, and what it shows. */
  datatype Toast = Toast(container: nat, hideTimer: nat, style: Notifications.Style, title: string, text: string)

  /** Where a toast is in its lifecycle. */
  datatype Phase = Scheduled | Paused | Animating | Removed

  predicate NoDuplicates(s: seq<nat>)
  {
    forall i, j :: 0 <= i < j < |s| ==> s[i] != s[j]
  }

  /** `s` without `x`, the others in their order (removing a child node). */
  function Without(s: seq<nat>, x: nat): (r: seq<nat>)
    ensures forall y :: y in r <==> y in s && y != x
    ensures NoDuplicates(s) ==> NoDuplicates(r)
    ensures x !in s ==> r == s
  {
    if s == [] then []
    else if s[0] == x then Without(s[1..], x)
    else
      var rest := Without(s[1..], x);
      assert NoDuplicates(s) ==> s[0] !in s[1..] by {
        if NoDuplicates(s) {
          forall j | 0 <= j < |s[1..]| ensures s[1..][j] != s[0] {
            assert s[1..][j] == s[j + 1];
          }
        }
      }
      var r := [s[0]] + rest;
      assert NoDuplicates(s) ==> NoDuplicates(r) by {
        if NoDuplicates(s) {
          forall i, j | 0 <= i < j < |r| ensures r[i] != r[j] {
            if i == 0 {
              assert r[j] == rest[j - 1] && rest[j - 1] in rest;
            } else {
              assert r[i] == rest[i - 1] && r[j] == rest[j - 1];
            }
          }
        }
      }
      r
  }

  /** Removing a child that occurs once, at position `k`, keeps the others in their order. */
  lemma {:induction false} WithoutKeepsOrder(s: seq<nat>, x: nat, k: nat)
    requires NoDuplicates(s) && k < |s| && s[k] == x
    ensures Without(s, x) == s[..k] + s[k + 1..]
  {
    var tail := s[1..];
    assert NoDuplicates(tail) by {
      forall i, j | 0 <= i < j < |tail| ensures tail[i] != tail[j] {
        assert tail[i] == s[i + 1] && tail[j] == s[j + 1];
      }
    }
    if k == 0 {
      assert x !in tail by {
        forall j | 0 <= j < |tail| ensures tail[j] != x {
          assert tail[j] == s[j + 1];
        }
      }
    } else {
      assert s[0] != x;
      assert tail[k - 1] == x;
      WithoutKeepsOrder(tail, x, k - 1);
      assert s[..k] == [s[0]] + tail[..k - 1];
      assert s[k + 1..] == tail[k..];
    }
  }

  /** `timers` after `clearTimeout(handle)`: the auto-dismiss with that id, if still pending, is gone. */
  function Cancel(timers: seq<Timer>, handle: nat): (r: seq<Timer>)
    ensures forall tm :: tm in r <==> tm in timers && !(tm.AutoDismiss? && tm.handle == handle)
    ensures |r| <= |timers|
  {
    if timers == [] then []
    else if timers[0].AutoDismiss? && timers[0].handle == handle then Cancel(timers[1..], handle)
    else [timers[0]] + Cancel(timers[1..], handle)
  }

  /** `timers` once the one at position `k` has fired. */
  function Fired(timers: seq<Timer>, k: nat): (r: seq<Timer>)
    requires k < |timers|
    ensures |r| == |timers| - 1
    ensures forall j :: 0 <= j < |r| ==> r[j] == (if j < k then timers[j] else timers[j + 1])
  {
    timers[..k] + timers[k + 1..]
  }

  /** Every child of container `c` is a distinct toast created in `c`. */
  ghost predicate ChildrenValid(cs: seq<Container>, ts: seq<Toast>, c: nat)
    requires c < |cs|
  {
    NoDuplicates(cs[c].children) &&
    forall i :: 0 <= i < |cs[c].children| ==> cs[c].children[i] < |ts| && ts[cs[c].children[i]].container == c
  }

  ghost predicate ContainersValid(cs: seq<Container>, ts: seq<Toast>)
  {
    forall c :: 0 <= c < |cs| ==> ChildrenValid(cs, ts, c)
  }

  /** Some auto-dismiss of toast `t` is pending. */
  ghost predicate Pending(timers: seq<Timer>, t: nat)
  {
    exists k :: 0 <= k < |timers| && timers[k].AutoDismiss? && timers[k].toast == t
  }

  /** No two pending auto-dismisses belong to the same toast. */
  ghost predicate UniqueAutoDismiss(timers: seq<Timer>)
  {
    forall k, l :: 0 <= k < l < |timers| && timers[k].AutoDismiss? && timers[l].AutoDismiss? ==>
      timers[k].toast != timers[l].toast
  }

  /**
   * Every timer refers to an existing toast, and a pending auto-dismiss is the one the
   * toast's `hideTimer` holds, so there is at most one per toast.
   */
  ghost predicate TimersValid(timers: seq<Timer>, ts: seq<Toast>)
  {
    (forall k :: 0 <= k < |timers| ==>
      (timers[k].toast < |ts| && (timers[k].AutoDismiss? ==> timers[k].handle == ts[timers[k].toast].hideTimer))) &&
    UniqueAutoDismiss(timers)
  }

  /** Appending a timer that is not an auto-dismiss of `u` leaves `u` without one. */
  lemma StillNotPending(before: seq<Timer>, after: seq<Timer>, u: nat)
    requires !Pending(before, u)
    requires |after| == |before| + 1 && after[..|before|] == before
    requires !(after[|before|].AutoDismiss? && after[|before|].toast == u)
    ensures !Pending(after, u)
  {
    forall k | 0 <= k < |after| ensures !(after[k].AutoDismiss? && after[k].toast == u) {
      if k < |before| {
        assert after[k] == before[k];
      }
    }
  }

  /** A new toast appended as the last child of container `c` keeps every container's children valid. */
  lemma AddChild(cs: seq<Container>, ts: seq<Toast>, c: nat, toast: Toast)
    requires ContainersValid(cs, ts) && c < |cs| && toast.container == c
    ensures ContainersValid(cs[c := Container(true, cs[c].children + [|ts|])], ts + [toast])
  {
    var cs' := cs[c := Container(true, cs[c].children + [|ts|])];
    var ts' := ts + [toast];
    forall d | 0 <= d < |cs'| ensures ChildrenValid(cs', ts', d) {
      assert ChildrenValid(cs, ts, d);
      var kids := cs[d].children;
      forall i | 0 <= i < |kids| ensures kids[i] < |ts| && ts'[kids[i]] == ts[kids[i]] {
      }
      if d == c {
        var kids' := kids + [|ts|];
        forall i | 0 <= i < |kids'| ensures kids'[i] < |ts'| && ts'[kids'[i]].container == c {
          if i < |kids| {
            assert kids'[i] == kids[i];
          }
        }
        forall i, j | 0 <= i < j < |kids'| ensures kids'[i] != kids'[j] {
          if j < |kids| {
            assert kids'[i] == kids[i] && kids'[j] == kids[j];
          } else {
            assert kids'[i] == kids[i] && kids[i] < |ts|;
          }
        }
      }
    }
  }

  lemma {:induction false} CancelKeepsUnique(timers: seq<Timer>, handle: nat)
    requires UniqueAutoDismiss(timers)
    ensures UniqueAutoDismiss(Cancel(timers, handle))
  {
    if timers != [] {
      var rest := timers[1..];
      assert UniqueAutoDismiss(rest) by {
        forall k, l | 0 <= k < l < |rest| && rest[k].AutoDismiss? && rest[l].AutoDismiss?
          ensures rest[k].toast != rest[l].toast
        {
          assert rest[k] == timers[k + 1] && rest[l] == timers[l + 1];
        }
      }
      CancelKeepsUnique(rest, handle);
      var tail := Cancel(rest, handle);
      if !(timers[0].AutoDismiss? && timers[0].handle == handle) {
        var r := [timers[0]] + tail;
        forall k, l | 0 <= k < l < |r| && r[k].AutoDismiss? && r[l].AutoDismiss?
          ensures r[k].toast != r[l].toast
        {
          if k == 0 {
            assert r[l] == tail[l - 1] && tail[l - 1] in tail;
            var m :| 0 <= m < |rest| && rest[m] == r[l];
            assert timers[m + 1] == r[l];
          } else {
            assert r[k] == tail[k - 1] && r[l] == tail[l - 1];
          }
        }
      }
    }
  }

  class Center {
    /** `toastContainer`: the memoised container, if any. */
    var cache: Option<nat>
    /** Every container element created so far. */
    var containers: seq<Container>
    /** Every toast element created so far. */
    var toasts: seq<Toast>
    /** The pending timer callbacks. */
    var timers: seq<Timer>
    /** The id the next `setTimeout` returns. */
    var nextHandle: nat
    /** The toasts under the cursor; a browser sends `mouseleave` only after `mouseenter`. */
    ghost var hovered: set<nat>

    ghost predicate Valid()
      reads this
    {
      (cache.Some? ==> cache.value < |containers|) &&
      // at most one container is in the document, and it is the memoised one
      (forall c :: 0 <= c < |containers| && containers[c].attached ==> cache == Some(c)) &&
      ContainersValid(containers, toasts) &&
      (forall t :: 0 <= t < |toasts| ==> toasts[t].container < |containers| && toasts[t].hideTimer < nextHandle) &&
      (forall t, u :: 0 <= t < u < |toasts| ==> toasts[t].hideTimer != toasts[u].hideTimer) &&
      TimersValid(timers, toasts) &&
      (forall t :: t in hovered ==> t < |toasts| && !Pending(timers, t))
    }

    /** `toast.isConnected`: the toast is a child of its container and the container is in the document. */
    predicate Connected(t: nat)
      reads this
      requires t < |toasts| && toasts[t].container < |containers|
    {
      var c := toasts[t].container;
      containers[c].attached && t in containers[c].children
    }

    /** `toastContainer && document.body.contains(toastContainer)`. */
    predicate CacheLive()
      reads this
      requires cache.Some? ==> cache.value < |containers|
    {
      cache.Some? && containers[cache.value].attached
    }

    ghost function PhaseOf(t: nat): Phase
      reads this
      requires Valid() && t < |toasts|
    {
      if !Connected(t) then Removed
      else if Removal(t) in timers then Animating
      else if Pending(timers, t) then Scheduled
      else Paused
    }

    constructor ()
      ensures Valid()
      ensures cache == None && containers == [] && toasts == [] && timers == [] && hovered == {}
    {
      cache, containers, toasts, timers, nextHandle := None, [], [], [], 0;
      hovered := {};
    }

    /** The document never holds two toast containers. */
    lemma AtMostOneAttached(c: nat, d: nat)
      requires Valid() && c < |containers| && d < |containers|
      requires containers[c].attached && containers[d].attached
      ensures c == d
    {
    }

    /**
     * `ensureContainer`: the memoised container when the body still holds it; otherwise
     * a fresh container, attached and memoised.
     */
    method EnsureContainer() returns (c: nat)
      requires Valid()
      modifies this
      ensures Valid()
      ensures c < |containers| && containers[c].attached && cache == Some(c)
      ensures old(CacheLive()) ==> c == old(cache.value) && containers == old(containers)
      ensures !old(CacheLive()) ==> c == old(|containers|) && containers == old(containers) + [Container(true, [])]
      ensures toasts == old(toasts) && timers == old(timers) && nextHandle == old(nextHandle)
      ensures hovered == old(hovered)
    {
      if cache.Some? && containers[cache.value].attached {
        return cache.value;
      }
      c := |containers|;
      containers := containers + [Container(true, [])];
      cache := Some(c);
      forall d | 0 <= d < |containers| ensures ChildrenValid(containers, toasts, d) {
        assert d < c ==> containers[d] == old(containers[d]) && ChildrenValid(old(containers), toasts, d);
      }
    }

    /**
     * `notify(type, title, text)`: appends a new toast as the last child of the container
     * `ensureContainer` gives, schedules its auto-dismiss, and returns it. Nothing is
     * merged or evicted.
     */
    method Notify(kind: string, title: string, text: string) returns (t: nat)
      requires Valid()
      modifies this
      ensures Valid()
      ensures t == old(|toasts|) && |toasts| == t + 1 && toasts[..t] == old(toasts)
      ensures var c := toasts[t].container;
        toasts[t] == Toast(c, old(nextHandle), Notifications.TypeStyle(kind), title, text) &&
        cache == Some(c) &&
        (old(CacheLive()) ==>
          (c == old(cache.value) && containers == old(containers)[c := Container(true, old(containers[c].children) + [t])])) &&
        (!old(CacheLive()) ==>
          (c == old(|containers|) && containers == old(containers) + [Container(true, [t])]))
      ensures timers == old(timers) + [AutoDismiss(t, old(nextHandle), Full)]
      ensures nextHandle == old(nextHandle) + 1 && hovered == old(hovered)
      ensures Connected(t) && PhaseOf(t) == Scheduled
    {
      var c := EnsureContainer();
      ghost var cs := containers;
      assert ContainersValid(cs, toasts);
      t := |toasts|;
      var handle := nextHandle;
      toasts := toasts + [Toast(c, handle, Notifications.TypeStyle(kind), title, text)];
      timers := timers + [AutoDismiss(t, handle, Full)];
      nextHandle := nextHandle + 1;
      var children := containers[c].children;
      containers := containers[c := Container(true, children + [t])];
      assert !old(CacheLive()) ==> children + [t] == [t];
      AddChild(cs, old(toasts), c, toasts[t]);
      assert timers[|timers| - 1] == AutoDismiss(t, handle, Full);
      assert Pending(timers, t);
      forall u | u in hovered ensures !Pending(timers, u) {
        StillNotPending(old(timers), timers, u);
      }
    }

    /**
     * The `dismiss` closure: nothing when the toast is no longer connected; otherwise
     * the exit animation starts and the removal callback is scheduled.
     */
    method Dismiss(t: nat)
      requires Valid() && t < |toasts|
      modifies this
      ensures Valid()
      ensures timers == if old(Connected(t)) then old(timers) + [Removal(t)] else old(timers)
      ensures cache == old(cache) && containers == old(containers) && toasts == old(toasts)
      ensures nextHandle == old(nextHandle) && hovered == old(hovered)
    {
      if !Connected(t) {
        return;
      }
      timers := timers + [Removal(t)];
      forall u | u in hovered ensures !Pending(timers, u) {
        StillNotPending(old(timers), timers, u);
      }
    }

    /**
     * The removal callback: the toast leaves its container only if it is still connected;
     * the container leaves the document, and the memo is cleared, only if it is then
     * empty and still attached.
     */
    method RemoveAfterAnimation(t: nat)
      requires Valid() && t < |toasts|
      modifies this
      ensures Valid()
      ensures toasts == old(toasts) && timers == old(timers)
      ensures nextHandle == old(nextHandle) && hovered == old(hovered)
      ensures var c := old(toasts[t].container);
        var kept := if old(Connected(t)) then Without(old(containers[c].children), t) else old(containers[c].children);
        var detach := kept == [] && old(containers[c].attached);
        containers == old(containers)[c := Container(old(containers[c].attached) && !detach, kept)] &&
        cache == (if detach then None else old(cache))
      ensures !Connected(t)
    {
      var c := toasts[t].container;
      if Connected(t) {
        containers := containers[c := containers[c].(children := Without(containers[c].children, t))];
      }
      if containers[c].children == [] && containers[c].attached {
        containers := containers[c := containers[c].(attached := false)];
        cache := None;
      }
      forall d | 0 <= d < |containers| ensures ChildrenValid(containers, toasts, d) {
        assert ChildrenValid(old(containers), toasts, d);
        if d == c {
          forall i | 0 <= i < |containers[c].children|
            ensures containers[c].children[i] in old(containers[c].children)
          {
            assert containers[c].children[i] in containers[c].children;
          }
        }
      }
    }

    /** A timer callback runs: an auto-dismiss calls `dismiss`, a removal runs the removal callback. */
    method FireTimer(k: nat)
      requires Valid() && k < |timers|
      modifies this
      ensures Valid()
      ensures toasts == old(toasts) && nextHandle == old(nextHandle) && hovered == old(hovered)
      ensures var tm := old(timers[k]);
        var rest := Fired(old(timers), k);
        (tm.AutoDismiss? ==>
          timers == (if old(Connected(tm.toast)) then rest + [Removal(tm.toast)] else rest) &&
          containers == old(containers) && cache == old(cache)) &&
        (tm.Removal? ==> timers == rest && !Connected(tm.toast))
      ensures var tm := old(timers[k]);
        tm.Removal? ==>
          var c := old(toasts[tm.toast].container);
          var kept := if old(Connected(tm.toast)) then Without(old(containers[c].children), tm.toast) else old(containers[c].children);
          var detach := kept == [] && old(containers[c].attached);
          containers == old(containers)[c := Container(old(containers[c].attached) && !detach, kept)] &&
          cache == (if detach then None else old(cache))
    {
      var tm := timers[k];
      timers := Fired(timers, k);
      forall j | 0 <= j < |timers| ensures timers[j] == old(timers)[if j < k then j else j + 1] {
      }
      forall j, l | 0 <= j < l < |timers| && timers[j].AutoDismiss? && timers[l].AutoDismiss?
        ensures timers[j].toast != timers[l].toast
      {
        var j', l' := if j < k then j else j + 1, if l < k then l else l + 1;
        assert old(timers)[j'] == timers[j] && old(timers)[l'] == timers[l];
      }
      forall u | u in hovered ensures !Pending(timers, u) {
        forall j | 0 <= j < |timers| ensures !(timers[j].AutoDismiss? && timers[j].toast == u) {
          assert old(timers)[if j < k then j else j + 1] == timers[j];
        }
      }
      if tm.AutoDismiss? {
        Dismiss(tm.toast);
      } else {
        RemoveAfterAnimation(tm.toast);
      }
    }

    /** `clearTimeout(hideTimer)`, shared by the close button and `mouseenter`. */
    method CancelHideTimer(t: nat)
      requires Valid() && t < |toasts|
      modifies this
      ensures Valid()
      ensures timers == Cancel(old(timers), old(toasts[t].hideTimer))
      ensures cache == old(cache) && containers == old(containers) && toasts == old(toasts)
      ensures nextHandle == old(nextHandle) && hovered == old(hovered)
      ensures !Pending(timers, t)
    {
      var h := toasts[t].hideTimer;
      timers := Cancel(timers, h);
      CancelKeepsUnique(old(timers), h);
      forall j | 0 <= j < |timers|
        ensures timers[j].toast < |toasts|
        ensures timers[j].AutoDismiss? ==> timers[j].handle == toasts[timers[j].toast].hideTimer && timers[j].toast != t
      {
        assert timers[j] in timers;
        var i :| 0 <= i < |old(timers)| && old(timers)[i] == timers[j];
      }
    }

    /** The close button: `clearTimeout(hideTimer)` and then `dismiss()`. */
    method CloseClick(t: nat)
      requires Valid() && t < |toasts|
      modifies this
      ensures Valid()
      ensures var rest := Cancel(old(timers), old(toasts[t].hideTimer));
        timers == if old(Connected(t)) then rest + [Removal(t)] else rest
      ensures cache == old(cache) && containers == old(containers) && toasts == old(toasts)
      ensures nextHandle == old(nextHandle) && hovered == old(hovered)
      ensures !Pending(timers, t)
      ensures old(Connected(t)) ==> PhaseOf(t) == Animating
    {
      CancelHideTimer(t);
      ghost var cancelled := timers;
      ghost var connected := Connected(t);
      Dismiss(t);
      if connected {
        StillNotPending(cancelled, timers, t);
        assert Removal(t) in timers by {
          assert timers[|timers| - 1] == Removal(t);
        }
      }
    }

    /** `mouseenter`: `clearTimeout(hideTimer)`; no auto-dismiss of the toast is left pending. */
    method HoverEnter(t: nat)
      requires Valid() && t < |toasts| && t !in hovered
      modifies this
      ensures Valid()
      ensures timers == Cancel(old(timers), old(toasts[t].hideTimer))
      ensures cache == old(cache) && containers == old(containers) && toasts == old(toasts)
      ensures nextHandle == old(nextHandle) && hovered == old(hovered) + {t}
      ensures !Pending(timers, t)
    {
      CancelHideTimer(t);
      hovered := hovered + {t};
    }

    /** `mouseleave`: a new auto-dismiss with the shorter delay, held in `hideTimer`. */
    method HoverLeave(t: nat)
      requires Valid() && t < |toasts| && t in hovered
      modifies this
      ensures Valid()
      ensures toasts == old(toasts)[t := old(toasts[t]).(hideTimer := old(nextHandle))]
      ensures timers == old(timers) + [AutoDismiss(t, old(nextHandle), Shortened)]
      ensures nextHandle == old(nextHandle) + 1 && hovered == old(hovered) - {t}
      ensures cache == old(cache) && containers == old(containers)
      ensures old(Connected(t)) && old(PhaseOf(t)) != Animating ==> PhaseOf(t) == Scheduled
    {
      var h := nextHandle;
      toasts := toasts[t := toasts[t].(hideTimer := h)];
      timers := timers + [AutoDismiss(t, h, Shortened)];
      nextHandle := nextHandle + 1;
      hovered := hovered - {t};
      assert Pending(timers, t) by {
        assert timers[|timers| - 1] == AutoDismiss(t, h, Shortened);
      }
      forall d | 0 <= d < |containers| ensures ChildrenValid(containers, toasts, d) {
        assert ChildrenValid(containers, old(toasts), d);
      }
      forall k | 0 <= k < |old(timers)| ensures old(timers)[k].AutoDismiss? ==> old(timers)[k].toast != t {
      }
      forall k, l | 0 <= k < l < |timers| && timers[k].AutoDismiss? && timers[l].AutoDismiss?
        ensures timers[k].toast != timers[l].toast
      {
      }
      forall u | u in hovered ensures !Pending(timers, u) {
        StillNotPending(old(timers), timers, u);
      }
    }

    /** Code outside this module removes the container from the document; the memo still points at it. */
    method ExternalDetach(c: nat)
      requires Valid() && c < |containers|
      modifies this
      ensures Valid()
      ensures containers == old(containers)[c := old(containers[c]).(attached := false)]
      ensures cache == old(cache) && toasts == old(toasts) && timers == old(timers)
      ensures nextHandle == old(nextHandle) && hovered == old(hovered)
    {
      containers := containers[c := containers[c].(attached := false)];
      forall d | 0 <= d < |containers| ensures ChildrenValid(containers, toasts, d) {
        assert ChildrenValid(old(containers), toasts, d);
      }
    }
  }
}
