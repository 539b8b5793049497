/**
 * The surface ownership and hand-off protocol of the façade, on values: which
 * surface is bound, whether the façade owns it, which view provider it listens
 * to, and the calls it makes on the backend, on surfaces and on views.
 */
module Surfaces {
  import opened Wrappers

  /** An opaque view handle (a SurfaceHolder or a TextureView). */
  type ViewId = nat

  /**
   * An output surface. Provided surfaces come from a SurfaceHolder; Created ones
   * are allocated by the façade from a SurfaceTexture, numbered in allocation
   * order, so a Created surface is never allocated twice.
   */
  datatype Surface = Provided(id: nat) | Created(serial: nat)

  /** The calls the façade makes on its collaborators, in the order it makes them. */
  datatype Call =
    | SetSurface(target: Option<Surface>)
    | ReleaseSurface(surface: Surface)
    | AddHolderCallback(holder: ViewId)
    | RemoveHolderCallback(holder: ViewId)
    | SetTextureListener(texture: ViewId)
    | UnsetTextureListener(texture: ViewId)
    | ReleaseBackend

  /** mSurface, ownsSurface, textureView and surfaceHolder, plus the surface allocator. */
  datatype Binding = Binding(surface: Option<Surface>, owns: bool, texture: Option<ViewId>,
                             holder: Option<ViewId>, nextSerial: nat)

  /** The state after an operation and the calls it made. */
  datatype Step = Step(after: Binding, calls: seq<Call>)

  function Initial(): Binding {
    Binding(None, false, None, None, 0)
  }

  /** A call that only registers or unregisters the façade's view callbacks. */
  predicate Registration(c: Call) {
    c.AddHolderCallback? || c.RemoveHolderCallback? || c.SetTextureListener? || c.UnsetTextureListener?
  }

  /**
   * removeSurfaceCallbacks: forget both view providers; the texture's listener is
   * unset only when it is still the façade's, the holder's callback is always removed.
   */
  function RemoveSurfaceCallbacks(b: Binding, listenerStillOurs: bool): (r: Step)
    ensures r.after.texture.None? && r.after.holder.None?
    ensures r.after.surface == b.surface && r.after.owns == b.owns && r.after.nextSerial == b.nextSerial
    ensures forall c :: c in r.calls ==> Registration(c)
  {
    var unset := if b.texture.Some? && listenerStillOurs then [UnsetTextureListener(b.texture.value)] else [];
    var remove := if b.holder.Some? then [RemoveHolderCallback(b.holder.value)] else [];
    Step(b.(texture := None, holder := None), unset + remove)
  }

  /**
   * Detaching forgets both providers and only touches registrations: the texture
   * listener is unset exactly when a texture is attached and the listener is still
   * the façade's, the holder callback is removed exactly when a holder is attached.
   */
  lemma DetachOnlyUnregisters(b: Binding, listenerStillOurs: bool)
    ensures var r := RemoveSurfaceCallbacks(b, listenerStillOurs);
            && r.after.texture.None? && r.after.holder.None?
            && r.after.surface == b.surface && r.after.owns == b.owns && r.after.nextSerial == b.nextSerial
            && (forall c :: c in r.calls ==> Registration(c))
            && (forall t: ViewId :: UnsetTextureListener(t) in r.calls <==> b.texture == Some(t) && listenerStillOurs)
            && (forall h: ViewId :: RemoveHolderCallback(h) in r.calls <==> b.holder == Some(h))
  {
  }

  /**
   * setVideoSurfaceInternal: hand the target to the backend, then release the
   * previous surface if it is replaced and was owned.
   */
  function BindSurface(b: Binding, target: Option<Surface>, owns: bool): (r: Step)
    ensures r.after.surface == target && r.after.owns == owns
    ensures r.after.texture == b.texture && r.after.holder == b.holder && r.after.nextSerial == b.nextSerial
    ensures |r.calls| >= 1 && r.calls[0] == SetSurface(target)
    ensures forall c :: c in r.calls[1..] ==> b.surface.Some? && c == ReleaseSurface(b.surface.value) && b.owns && b.surface != target
  {
    var release := if b.surface.Some? && b.surface != target && b.owns then [ReleaseSurface(b.surface.value)] else [];
    Step(b.(surface := target, owns := owns), [SetSurface(target)] + release)
  }

  /** Binding state: after binding, the façade holds exactly the given target and ownership. */
  lemma BindSurfaceBinds(b: Binding, target: Option<Surface>, owns: bool)
    ensures BindSurface(b, target, owns).after.surface == target
    ensures BindSurface(b, target, owns).after.owns == owns
    ensures BindSurface(b, target, owns).calls[0] == SetSurface(target)
    ensures forall s :: (ReleaseSurface(s) in BindSurface(b, target, owns).calls
                         <==> b.surface == Some(s) && target != Some(s) && b.owns)
  {
  }

  /** One step followed by another: the state of the second, the calls of both in order. */
  function Then(first: Step, second: Step): Step {
    Step(second.after, first.calls + second.calls)
  }

  /** The part of setVideoSurfaceHolder after detaching: record the holder, register, bind. */
  function AttachHolder(b: Binding, holder: Option<ViewId>, holderSurface: Option<nat>, valid: bool): Step {
    var b1 := b.(holder := holder);
    if holder.None? then BindSurface(b1, None, false)
    else
      var target := if holderSurface.Some? && valid then Some(Provided(holderSurface.value)) else None;
      Then(Step(b1, [AddHolderCallback(holder.value)]), BindSurface(b1, target, false))
  }

  /** setVideoSurfaceHolder: attach to the holder and bind its surface if valid, never owned. */
  function SetVideoSurfaceHolder(b: Binding, holder: Option<ViewId>, holderSurface: Option<nat>,
                                 valid: bool, listenerStillOurs: bool): (r: Step)
    ensures !r.after.owns && r.after.holder == holder && r.after.texture.None?
    ensures r.after.surface.Some? <==> holder.Some? && holderSurface.Some? && valid
    ensures r.after.nextSerial == b.nextSerial
  {
    var detach := RemoveSurfaceCallbacks(b, listenerStillOurs);
    Then(detach, AttachHolder(detach.after, holder, holderSurface, valid))
  }

  /** The part of setTextureView after detaching: record the texture, register, bind. */
  function AttachTexture(b: Binding, texture: Option<ViewId>, available: bool): Step {
    var b1 := b.(texture := texture);
    if texture.None? then BindSurface(b1, None, true)
    else if available then
      var b2 := b1.(nextSerial := b1.nextSerial + 1);
      Then(Step(b2, [SetTextureListener(texture.value)]), BindSurface(b2, Some(Created(b1.nextSerial)), true))
    else
      Then(Step(b1, [SetTextureListener(texture.value)]), BindSurface(b1, None, true))
  }

  /** setTextureView: attach to the texture and bind a new surface if it is available, always owned. */
  function SetTextureView(b: Binding, texture: Option<ViewId>, available: bool, listenerStillOurs: bool): (r: Step)
    ensures r.after.owns && r.after.texture == texture && r.after.holder.None?
    ensures r.after.surface.Some? <==> texture.Some? && available
    ensures r.after.nextSerial == if texture.Some? && available then b.nextSerial + 1 else b.nextSerial
  {
    var detach := RemoveSurfaceCallbacks(b, listenerStillOurs);
    Then(detach, AttachTexture(detach.after, texture, available))
  }

  /**
   * Holder versus texture path: the holder path never owns what it binds and binds
   * the holder's surface only if it exists and is valid; the texture path always
   * owns and binds a newly allocated surface only if the texture is available.
   */
  lemma ViewPathsBind(b: Binding, v: Option<ViewId>, holderSurface: Option<nat>, valid: bool,
                      available: bool, ours: bool)
    ensures var r := SetVideoSurfaceHolder(b, v, holderSurface, valid, ours).after;
            && !r.owns && r.holder == v && r.texture.None?
            && r.surface == (if v.Some? && holderSurface.Some? && valid then Some(Provided(holderSurface.value)) else None)
    ensures var r := SetTextureView(b, v, available, ours).after;
            && r.owns && r.texture == v && r.holder.None?
            && r.surface == (if v.Some? && available then Some(Created(b.nextSerial)) else None)
  {
  }

  /** clear(SurfaceView): detach only if the view's holder is the current holder. */
  function ClearSurfaceView(b: Binding, viewHolder: Option<ViewId>, listenerStillOurs: bool): (r: Step)
    ensures !(b.holder.Some? && viewHolder == b.holder) ==> r == Step(b, [])
    ensures b.holder.Some? && viewHolder == b.holder
            ==> r.after.surface.None? && !r.after.owns && r.after.texture.None? && r.after.holder.None?
  {
    if b.holder.Some? && viewHolder == b.holder then SetVideoSurfaceHolder(b, None, None, false, listenerStillOurs)
    else Step(b, [])
  }

  /** clear(TextureView): detach only if the view is the current texture. */
  function ClearTextureView(b: Binding, texture: Option<ViewId>, listenerStillOurs: bool): (r: Step)
    ensures !(texture.Some? && texture == b.texture) ==> r == Step(b, [])
    ensures texture.Some? && texture == b.texture
            ==> r.after.surface.None? && r.after.owns && r.after.texture.None? && r.after.holder.None?
  {
    if texture.Some? && b.texture.Some? && texture == b.texture then SetTextureView(b, None, false, listenerStillOurs)
    else Step(b, [])
  }

  /** The surface part of clear(): unbind the texture if there is one, else the holder. */
  function ClearAll(b: Binding, listenerStillOurs: bool): (r: Step)
    ensures b.texture.None? && b.holder.None? ==> r == Step(b, [])
    ensures b.texture.Some? || b.holder.Some?
            ==> r.after.surface.None? && r.after.texture.None? && r.after.holder.None?
    ensures b.texture.Some? ==> r.after.owns
    ensures b.texture.None? && b.holder.Some? ==> !r.after.owns
  {
    if b.texture.Some? then SetTextureView(b, None, false, listenerStillOurs)
    else if b.holder.Some? then SetVideoSurfaceHolder(b, None, None, false, listenerStillOurs)
    else Step(b, [])
  }

  /** clear(view) with a view that is not the current one changes nothing and calls nothing. */
  lemma ClearOtherViewIsNoOp(b: Binding, viewHolder: Option<ViewId>, texture: Option<ViewId>, ours: bool)
    ensures viewHolder != b.holder || b.holder.None? ==> ClearSurfaceView(b, viewHolder, ours) == Step(b, [])
    ensures texture != b.texture || texture.None? ==> ClearTextureView(b, texture, ours) == Step(b, [])
    ensures b.texture.None? && b.holder.None? ==> ClearAll(b, ours) == Step(b, [])
  {
  }

  /** clear() prefers the texture: with a texture attached, the holder is not consulted. */
  lemma ClearPrefersTexture(b: Binding, ours: bool)
    requires b.texture.Some?
    ensures ClearAll(b, ours) == SetTextureView(b, None, false, ours)
    ensures ClearAll(b, ours).after.surface.None? && ClearAll(b, ours).after.owns
  {
  }

  /**
   * release() as the source writes it: release the backend, detach, and release
   * an owned surface, but keep it recorded as the bound surface.
   */
  function ReleaseAsWritten(b: Binding, listenerStillOurs: bool): (r: Step)
    ensures r.after.surface == b.surface && r.after.owns == b.owns
    ensures r.after.texture.None? && r.after.holder.None?
    ensures |r.calls| > 0 && r.calls[0] == ReleaseBackend
    ensures b.surface.Some? && b.owns ==> r.calls[|r.calls| - 1] == ReleaseSurface(b.surface.value)
  {
    var detach := RemoveSurfaceCallbacks(b, listenerStillOurs);
    var release := if b.surface.Some? && b.owns then [ReleaseSurface(b.surface.value)] else [];
    Step(detach.after, [ReleaseBackend] + detach.calls + release)
  }

  /** release() corrected: as written, and the released surface is no longer recorded as bound. */
  function Release(b: Binding, listenerStillOurs: bool): (r: Step)
    ensures r.after.surface.None? && r.after.texture.None? && r.after.holder.None?
    ensures |r.calls| > 0 && r.calls[0] == ReleaseBackend
  {
    var written := ReleaseAsWritten(b, listenerStillOurs);
    Step(written.after.(surface := None), written.calls)
  }

  /** surfaceCreated: bind the holder's surface, not owned. */
  function SurfaceCreated(b: Binding, holderSurface: Option<nat>): Step {
    BindSurface(b, if holderSurface.Some? then Some(Provided(holderSurface.value)) else None, false)
  }

  /** surfaceDestroyed: bind nothing, not owned. */
  function SurfaceDestroyed(b: Binding): Step {
    BindSurface(b, None, false)
  }

  /** onSurfaceTextureAvailable: bind a newly allocated surface, owned. */
  function TextureAvailable(b: Binding): Step {
    BindSurface(b.(nextSerial := b.nextSerial + 1), Some(Created(b.nextSerial)), true)
  }

  /** onSurfaceTextureDestroyed: bind nothing, owned. */
  function TextureDestroyed(b: Binding): Step {
    BindSurface(b, None, true)
  }

  /** Every operation that can reach the surface protocol. */
  datatype Op =
    | SetHolderOp(holder: Option<ViewId>, holderSurface: Option<nat>, valid: bool, listenerStillOurs: bool)
    | SetTextureOp(texture: Option<ViewId>, available: bool, listenerStillOurs: bool)
    | ClearSurfaceViewOp(viewHolder: Option<ViewId>, listenerStillOurs: bool)
    | ClearTextureViewOp(texture: Option<ViewId>, listenerStillOurs: bool)
    | ClearOp(listenerStillOurs: bool)
    | ReleaseOp(listenerStillOurs: bool)
    | SurfaceCreatedOp(holderSurface: Option<nat>)
    | SurfaceDestroyedOp
    | TextureAvailableOp
    | TextureDestroyedOp
    | NoOpCallback

  function Apply(b: Binding, op: Op): Step {
    match op
    case SetHolderOp(h, s, v, ours) => SetVideoSurfaceHolder(b, h, s, v, ours)
    case SetTextureOp(t, a, ours) => SetTextureView(b, t, a, ours)
    case ClearSurfaceViewOp(h, ours) => ClearSurfaceView(b, h, ours)
    case ClearTextureViewOp(t, ours) => ClearTextureView(b, t, ours)
    case ClearOp(ours) => ClearAll(b, ours)
    case ReleaseOp(ours) => Release(b, ours)
    case SurfaceCreatedOp(s) => SurfaceCreated(b, s)
    case SurfaceDestroyedOp => SurfaceDestroyed(b)
    case TextureAvailableOp => TextureAvailable(b)
    case TextureDestroyedOp => TextureDestroyed(b)
    case NoOpCallback => Step(b, [])
  }

  /** A run of operations: the final state and all calls, in order. */
  function Run(b: Binding, ops: seq<Op>): Step
    decreases |ops|
  {
    if ops == [] then Step(b, [])
    else
      var first := Apply(b, ops[0]);
      var rest := Run(first.after, ops[1..]);
      Step(rest.after, first.calls + rest.calls)
  }

  /** The surface the backend renders into after `calls`: the target of the last SetSurface. */
  function BackendSlot(calls: seq<Call>): Option<Surface>
    decreases |calls|
  {
    if calls == [] then None
    else if calls[|calls| - 1].SetSurface? then calls[|calls| - 1].target
    else BackendSlot(calls[..|calls| - 1])
  }

  /** No surface is released twice. */
  ghost predicate NoDoubleRelease(calls: seq<Call>) {
    forall i, j :: 0 <= i < j < |calls| && calls[i].ReleaseSurface? ==> calls[j] != calls[i]
  }

  /** Release after hand-off: a surface is released only once the backend no longer renders into it. */
  ghost predicate SafeReleases(calls: seq<Call>) {
    forall j :: 0 <= j < |calls| && calls[j].ReleaseSurface? ==>
      ReleaseBackend in calls[..j] || BackendSlot(calls[..j]) != Some(calls[j].surface)
  }

  /** What holds of the surface binding and the calls made so far. */
  ghost predicate SurfaceInv(b: Binding, calls: seq<Call>) {
    && (b.surface.Some? ==> (b.owns <==> b.surface.value.Created?))
    && (b.surface.Some? && b.surface.value.Created? ==>
          b.surface.value.serial < b.nextSerial && ReleaseSurface(b.surface.value) !in calls)
    && (forall i :: 0 <= i < |calls| && calls[i].ReleaseSurface? ==>
          calls[i].surface.Created? && calls[i].surface.serial < b.nextSerial)
    && NoDoubleRelease(calls)
    && SafeReleases(calls)
    && (ReleaseBackend in calls || BackendSlot(calls) == b.surface)
  }

  /** The protocol invariant: SurfaceInv, and at most one view provider attached. */
  ghost predicate Inv(b: Binding, calls: seq<Call>) {
    SurfaceInv(b, calls) && (b.texture.None? || b.holder.None?)
  }

  lemma InitialInv()
    ensures Inv(Initial(), [])
  {
  }

  /** Calls that do not set the backend's surface leave its slot as it was. */
  lemma {:induction false} BackendSlotUnchanged(calls: seq<Call>, more: seq<Call>)
    requires forall c :: c in more ==> !c.SetSurface?
    ensures BackendSlot(calls + more) == BackendSlot(calls)
    decreases |more|
  {
    if more != [] {
      var last := more[|more| - 1];
      assert last in more;
      assert (calls + more)[|calls + more| - 1] == last;
      assert (calls + more)[..|calls + more| - 1] == calls + more[..|more| - 1];
      BackendSlotUnchanged(calls, more[..|more| - 1]);
    } else {
      assert calls + more == calls;
    }
  }

  /** Appending calls that neither set nor release surfaces keeps SurfaceInv, for any newer allocator. */
  lemma NeutralCallsKeepInv(b: Binding, calls: seq<Call>, more: seq<Call>, b2: Binding)
    requires SurfaceInv(b, calls)
    requires forall c :: c in more ==> Registration(c)
    requires b2.surface == b.surface && b2.owns == b.owns && b2.nextSerial >= b.nextSerial
    ensures SurfaceInv(b2, calls + more)
  {
    var all := calls + more;
    BackendSlotUnchanged(calls, more);
    forall j | |calls| <= j < |all|
      ensures !all[j].ReleaseSurface?
    {
      assert all[j] == more[j - |calls|] && more[j - |calls|] in more;
    }
    forall j | 0 <= j < |calls|
      ensures all[..j] == calls[..j] && all[j] == calls[j]
    {
    }
    assert ReleaseBackend !in more;
  }

  /** Handing a surface to the backend keeps the trace properties and makes it the backend's surface. */
  lemma AppendSetSurface(calls: seq<Call>, target: Option<Surface>)
    requires NoDoubleRelease(calls) && SafeReleases(calls)
    ensures var all := calls + [SetSurface(target)];
            NoDoubleRelease(all) && SafeReleases(all) && BackendSlot(all) == target
  {
    var all := calls + [SetSurface(target)];
    assert all[..|all| - 1] == calls;
    forall j | 0 <= j < |calls|
      ensures all[..j] == calls[..j] && all[j] == calls[j]
    {
    }
  }

  /** Releasing a surface that was never released and that the backend no longer renders into keeps the trace properties. */
  lemma AppendRelease(calls: seq<Call>, x: Surface)
    requires NoDoubleRelease(calls) && SafeReleases(calls)
    requires ReleaseSurface(x) !in calls
    requires ReleaseBackend in calls || BackendSlot(calls) != Some(x)
    ensures var all := calls + [ReleaseSurface(x)];
            NoDoubleRelease(all) && SafeReleases(all) && BackendSlot(all) == BackendSlot(calls)
  {
    var all := calls + [ReleaseSurface(x)];
    assert all[..|all| - 1] == calls;
    forall j | 0 <= j < |calls|
      ensures all[..j] == calls[..j] && all[j] == calls[j]
    {
    }
    forall i, j | 0 <= i < j < |all| && all[i].ReleaseSurface?
      ensures all[j] != all[i]
    {
      assert all[i] == calls[i];
    }
  }

  /**
   * Binding keeps SurfaceInv when the target is either provided and not owned, or
   * created, owned, already allocated and never released.
   */
  lemma BindKeepsInv(b: Binding, calls: seq<Call>, target: Option<Surface>, owns: bool)
    requires SurfaceInv(b, calls)
    requires target.Some? ==> (owns <==> target.value.Created?)
    requires target.Some? && target.value.Created? ==>
               target.value.serial < b.nextSerial && ReleaseSurface(target.value) !in calls
    ensures var s := BindSurface(b, target, owns); SurfaceInv(s.after, calls + s.calls)
  {
    var s := BindSurface(b, target, owns);
    var prefix := calls + [SetSurface(target)];
    AppendSetSurface(calls, target);
    assert ReleaseBackend !in [SetSurface(target)];
    if |s.calls| == 2 {
      var x := b.surface.value;
      assert ReleaseSurface(x) !in prefix;
      AppendRelease(prefix, x);
      assert calls + s.calls == prefix + [ReleaseSurface(x)];
    } else {
      assert calls + s.calls == prefix;
    }
  }

  /** Allocating a serial keeps SurfaceInv and the new surface has never been released. */
  lemma AllocateKeepsInv(b: Binding, calls: seq<Call>)
    requires SurfaceInv(b, calls)
    ensures SurfaceInv(b.(nextSerial := b.nextSerial + 1), calls)
    ensures ReleaseSurface(Created(b.nextSerial)) !in calls
  {
    forall i | 0 <= i < |calls|
      ensures calls[i] != ReleaseSurface(Created(b.nextSerial))
    {
    }
  }

  /** Appending a step to calls that keep Inv, then another, keeps Inv. */
  lemma ThenKeepsInv(calls: seq<Call>, first: Step, second: Step)
    requires Inv(first.after, calls + first.calls)
    requires Inv(second.after, calls + first.calls + second.calls)
    ensures Inv(Then(first, second).after, calls + Then(first, second).calls)
  {
    assert calls + first.calls + second.calls == calls + (first.calls + second.calls);
  }

  lemma DetachKeepsInv(b: Binding, calls: seq<Call>, ours: bool)
    requires Inv(b, calls)
    ensures var s := RemoveSurfaceCallbacks(b, ours); Inv(s.after, calls + s.calls)
  {
    DetachOnlyUnregisters(b, ours);
    NeutralCallsKeepInv(b, calls, RemoveSurfaceCallbacks(b, ours).calls, RemoveSurfaceCallbacks(b, ours).after);
  }

  lemma AttachHolderKeepsInv(b: Binding, calls: seq<Call>, holder: Option<ViewId>, holderSurface: Option<nat>,
                             valid: bool)
    requires SurfaceInv(b, calls) && b.texture.None?
    ensures var s := AttachHolder(b, holder, holderSurface, valid); Inv(s.after, calls + s.calls)
  {
    var b1 := b.(holder := holder);
    if holder.None? {
      BindKeepsInv(b1, calls, None, false);
    } else {
      var target := if holderSurface.Some? && valid then Some(Provided(holderSurface.value)) else None;
      var reg := [AddHolderCallback(holder.value)];
      NeutralCallsKeepInv(b, calls, reg, b1);
      BindKeepsInv(b1, calls + reg, target, false);
      ThenKeepsInv(calls, Step(b1, reg), BindSurface(b1, target, false));
    }
  }

  lemma AttachTextureKeepsInv(b: Binding, calls: seq<Call>, texture: Option<ViewId>, available: bool)
    requires SurfaceInv(b, calls) && b.holder.None?
    ensures var s := AttachTexture(b, texture, available); Inv(s.after, calls + s.calls)
  {
    var b1 := b.(texture := texture);
    if texture.None? {
      BindKeepsInv(b1, calls, None, true);
    } else if available {
      var b2 := b1.(nextSerial := b1.nextSerial + 1);
      var reg := [SetTextureListener(texture.value)];
      AllocateKeepsInv(b, calls);
      NeutralCallsKeepInv(b, calls, reg, b2);
      assert ReleaseSurface(Created(b1.nextSerial)) !in reg;
      BindKeepsInv(b2, calls + reg, Some(Created(b1.nextSerial)), true);
      ThenKeepsInv(calls, Step(b2, reg), BindSurface(b2, Some(Created(b1.nextSerial)), true));
    } else {
      var reg := [SetTextureListener(texture.value)];
      NeutralCallsKeepInv(b, calls, reg, b1);
      BindKeepsInv(b1, calls + reg, None, true);
      ThenKeepsInv(calls, Step(b1, reg), BindSurface(b1, None, true));
    }
  }

  lemma SetHolderKeepsInv(b: Binding, calls: seq<Call>, holder: Option<ViewId>, holderSurface: Option<nat>,
                          valid: bool, ours: bool)
    requires Inv(b, calls)
    ensures var s := SetVideoSurfaceHolder(b, holder, holderSurface, valid, ours); Inv(s.after, calls + s.calls)
  {
    var detach := RemoveSurfaceCallbacks(b, ours);
    DetachKeepsInv(b, calls, ours);
    AttachHolderKeepsInv(detach.after, calls + detach.calls, holder, holderSurface, valid);
    ThenKeepsInv(calls, detach, AttachHolder(detach.after, holder, holderSurface, valid));
  }

  lemma SetTextureKeepsInv(b: Binding, calls: seq<Call>, texture: Option<ViewId>, available: bool, ours: bool)
    requires Inv(b, calls)
    ensures var s := SetTextureView(b, texture, available, ours); Inv(s.after, calls + s.calls)
  {
    var detach := RemoveSurfaceCallbacks(b, ours);
    DetachKeepsInv(b, calls, ours);
    AttachTextureKeepsInv(detach.after, calls + detach.calls, texture, available);
    ThenKeepsInv(calls, detach, AttachTexture(detach.after, texture, available));
  }

  /** Releasing the backend keeps the invariant. */
  lemma BackendReleaseKeepsInv(b: Binding, calls: seq<Call>)
    requires Inv(b, calls)
    ensures Inv(b, calls + [ReleaseBackend])
  {
    var all := calls + [ReleaseBackend];
    forall j | 0 <= j < |calls|
      ensures all[..j] == calls[..j] && all[j] == calls[j]
    {
    }
  }

  /** Once the backend is released, releasing the owned surface and forgetting it keeps the invariant. */
  lemma ReleaseOwnedKeepsInv(b: Binding, calls: seq<Call>)
    requires Inv(b, calls) && ReleaseBackend in calls
    ensures var release := if b.surface.Some? && b.owns then [ReleaseSurface(b.surface.value)] else [];
            Inv(b.(surface := None), calls + release)
  {
    if b.surface.Some? && b.owns {
      var x := b.surface.value;
      var all := calls + [ReleaseSurface(x)];
      forall i, j | 0 <= i < j < |all| && all[i].ReleaseSurface?
        ensures all[j] != all[i]
      {
        assert all[i] == calls[i];
      }
      forall j | 0 <= j < |all| && all[j].ReleaseSurface?
        ensures ReleaseBackend in all[..j] || BackendSlot(all[..j]) != Some(all[j].surface)
      {
        assert all[..|calls|] == calls;
        if j < |calls| {
          assert all[..j] == calls[..j];
        }
      }
    } else {
      assert calls + [] == calls;
    }
  }

  /** release() is: release the backend, then detach, then release and forget the owned surface. */
  lemma ReleaseInSteps(b: Binding, ours: bool)
    ensures var detach := RemoveSurfaceCallbacks(b, ours);
            var release := if b.surface.Some? && b.owns then [ReleaseSurface(b.surface.value)] else [];
            Release(b, ours)
            == Then(Then(Step(b, [ReleaseBackend]), detach), Step(detach.after.(surface := None), release))
  {
    var detach := RemoveSurfaceCallbacks(b, ours);
    var release := if b.surface.Some? && b.owns then [ReleaseSurface(b.surface.value)] else [];
    assert [ReleaseBackend] + detach.calls + release == ([ReleaseBackend] + detach.calls) + release;
  }

  lemma ReleaseKeepsInv(b: Binding, calls: seq<Call>, ours: bool)
    requires Inv(b, calls)
    ensures var s := Release(b, ours); Inv(s.after, calls + s.calls)
  {
    var detach := RemoveSurfaceCallbacks(b, ours);
    var release := if b.surface.Some? && b.owns then [ReleaseSurface(b.surface.value)] else [];
    var first := Then(Step(b, [ReleaseBackend]), detach);
    BackendReleaseKeepsInv(b, calls);
    DetachKeepsInv(b, calls + [ReleaseBackend], ours);
    ThenKeepsInv(calls, Step(b, [ReleaseBackend]), detach);
    DetachOnlyUnregisters(b, ours);
    assert ReleaseBackend in calls + first.calls;
    ReleaseOwnedKeepsInv(detach.after, calls + first.calls);
    ThenKeepsInv(calls, first, Step(detach.after.(surface := None), release));
    ReleaseInSteps(b, ours);
  }

  /** Every operation keeps the protocol invariant. */
  lemma ApplyKeepsInv(b: Binding, calls: seq<Call>, op: Op)
    requires Inv(b, calls)
    ensures var s := Apply(b, op); Inv(s.after, calls + s.calls)
  {
    match op
    case SetHolderOp(h, s, v, ours) => SetHolderKeepsInv(b, calls, h, s, v, ours);
    case SetTextureOp(t, a, ours) => SetTextureKeepsInv(b, calls, t, a, ours);
    case ClearSurfaceViewOp(_, _) => ClearKeepsInv(b, calls, op);
    case ClearTextureViewOp(_, _) => ClearKeepsInv(b, calls, op);
    case ClearOp(_) => ClearKeepsInv(b, calls, op);
    case ReleaseOp(ours) => ReleaseKeepsInv(b, calls, ours);
    case SurfaceCreatedOp(s) =>
      BindKeepsInv(b, calls, if s.Some? then Some(Provided(s.value)) else None, false);
    case SurfaceDestroyedOp => BindKeepsInv(b, calls, None, false);
    case TextureAvailableOp =>
      AllocateKeepsInv(b, calls);
      BindKeepsInv(b.(nextSerial := b.nextSerial + 1), calls, Some(Created(b.nextSerial)), true);
    case TextureDestroyedOp => BindKeepsInv(b, calls, None, true);
    case NoOpCallback => assert calls + [] == calls;
  }

  /** The three clear operations keep the invariant: each is a detach through a view path or nothing. */
  lemma ClearKeepsInv(b: Binding, calls: seq<Call>, op: Op)
    requires Inv(b, calls)
    requires op.ClearSurfaceViewOp? || op.ClearTextureViewOp? || op.ClearOp?
    ensures var s := Apply(b, op); Inv(s.after, calls + s.calls)
  {
    match op
    case ClearSurfaceViewOp(h, ours) =>
      if b.holder.Some? && h == b.holder {
        SetHolderKeepsInv(b, calls, None, None, false, ours);
      } else {
        assert calls + [] == calls;
      }
    case ClearTextureViewOp(t, ours) =>
      if t.Some? && b.texture.Some? && t == b.texture {
        SetTextureKeepsInv(b, calls, None, false, ours);
      } else {
        assert calls + [] == calls;
      }
    case ClearOp(ours) =>
      if b.texture.Some? {
        SetTextureKeepsInv(b, calls, None, false, ours);
      } else if b.holder.Some? {
        SetHolderKeepsInv(b, calls, None, None, false, ours);
      } else {
        assert calls + [] == calls;
      }
  }

  /** A non-empty run is its first operation followed by the rest. */
  lemma RunUnfold(b: Binding, ops: seq<Op>)
    requires ops != []
    ensures Run(b, ops) == Then(Apply(b, ops[0]), Run(Apply(b, ops[0]).after, ops[1..]))
  {
  }

  /** Any run of operations keeps the protocol invariant. */
  lemma {:induction false} RunKeepsInv(b: Binding, calls: seq<Call>, ops: seq<Op>)
    requires Inv(b, calls)
    ensures var s := Run(b, ops); Inv(s.after, calls + s.calls)
    decreases |ops|
  {
    if ops == [] {
      assert calls + [] == calls;
    } else {
      var first := Apply(b, ops[0]);
      RunUnfold(b, ops);
      ApplyKeepsInv(b, calls, ops[0]);
      RunKeepsInv(first.after, calls + first.calls, ops[1..]);
      ThenKeepsInv(calls, first, Run(first.after, ops[1..]));
    }
  }

  /**
   * Exactly-once release and release-after-hand-off: from a fresh façade, whatever
   * the operations, no surface is released twice, none is released while the
   * live backend still renders into it, and at most one view provider is attached.
   */
  lemma ProtocolSafe(ops: seq<Op>)
    ensures var s := Run(Initial(), ops);
            NoDoubleRelease(s.calls) && SafeReleases(s.calls) && (s.after.texture.None? || s.after.holder.None?)
  {
    InitialInv();
    RunKeepsInv(Initial(), [], ops);
    assert [] + Run(Initial(), ops).calls == Run(Initial(), ops).calls;
  }

  /**
   * The source's release keeps the released surface recorded as bound and owned,
   * so a second release releases it again: attach an available texture, then
   * release twice.
   */
  lemma ReleaseAsWrittenReleasesTwice()
    ensures var s1 := SetTextureView(Initial(), Some(7), true, false);
            var s2 := ReleaseAsWritten(s1.after, true);
            var s3 := ReleaseAsWritten(s2.after, true);
            var calls := s1.calls + s2.calls + s3.calls;
            ReleaseSurface(Created(0)) in s2.calls && ReleaseSurface(Created(0)) in s3.calls
            && !NoDoubleRelease(calls)
  {
    var s1 := SetTextureView(Initial(), Some(7), true, false);
    var s2 := ReleaseAsWritten(s1.after, true);
    var s3 := ReleaseAsWritten(s2.after, true);
    var calls := s1.calls + s2.calls + s3.calls;
    assert s1.calls == [SetTextureListener(7), SetSurface(Some(Created(0)))];
    assert s2.calls == [ReleaseBackend, UnsetTextureListener(7), ReleaseSurface(Created(0))];
    assert s3.calls == [ReleaseBackend, ReleaseSurface(Created(0))];
    assert calls[4] == ReleaseSurface(Created(0)) && calls[6] == ReleaseSurface(Created(0));
  }
}
