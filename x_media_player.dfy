/**
 * The façade that wraps a player engine: it owns the surface hand-off between a
 * SurfaceView or TextureView and the engine, and fans every engine callback out
 * to seven ordered listener registries.
 */
module XMedia {
  import opened Wrappers
  import opened Events
  import Surfaces
  import opened Fanout

  class XMediaPlayer {
    var surface: Option<Surfaces.Surface>
    var ownsSurface: bool
    var textureView: Option<Surfaces.ViewId>
    var surfaceHolder: Option<Surfaces.ViewId>
    /** Serial of the next surface the façade allocates from a SurfaceTexture. */
    var nextSerial: nat
    /** Calls made on the engine, on surfaces and on views, in order. */
    var calls: seq<Surfaces.Call>
    /** The seven listener lists, one per callback kind. */
    var registries: map<ListenerKind, seq<Entry>>
    /** Every listener call made so far, in order. */
    var delivered: seq<Delivery>

    function Current(): Surfaces.Binding
      reads this
    {
      Surfaces.Binding(surface, ownsSurface, textureView, surfaceHolder, nextSerial)
    }

    ghost predicate Valid()
      reads this
    {
      Surfaces.Inv(Current(), calls) && RegistriesValid()
    }

    /** There is one registry for each of the seven callback kinds. */
    predicate RegistriesValid()
      reads this
    {
      registries.Keys == AllKinds
    }

    constructor ()
      ensures Valid()
      ensures Current() == Surfaces.Initial() && calls == [] && delivered == []
      ensures forall k :: k in AllKinds ==> registries[k] == []
    {
      surface := None;
      ownsSurface := false;
      textureView := None;
      surfaceHolder := None;
      nextSerial := 0;
      calls := [];
      registries := EmptyRegistries();
      delivered := [];
      Surfaces.InitialInv();
    }

    static function EmptyRegistries(): (r: map<ListenerKind, seq<Entry>>)
      ensures r.Keys == AllKinds
      ensures forall k :: k in AllKinds ==> r[k] == []
    {
      map k | k in AllKinds :: []
    }

    /** setVideoSurfaceInternal */
    method SetVideoSurfaceInternal(target: Option<Surfaces.Surface>, owns: bool)
      modifies this`surface, this`ownsSurface, this`calls
      ensures var s := Surfaces.BindSurface(old(Current()), target, owns);
              Current() == s.after && calls == old(calls) + s.calls
    {
      calls := calls + [Surfaces.SetSurface(target)];
      if surface.Some? && surface != target && ownsSurface {
        calls := calls + [Surfaces.ReleaseSurface(surface.value)];
      }
      surface := target;
      ownsSurface := owns;
    }

    /** removeSurfaceCallbacks */
    method RemoveSurfaceCallbacks(listenerStillOurs: bool)
      modifies this`textureView, this`surfaceHolder, this`calls
      ensures var s := Surfaces.RemoveSurfaceCallbacks(old(Current()), listenerStillOurs);
              Current() == s.after && calls == old(calls) + s.calls
    {
      if textureView.Some? {
        if listenerStillOurs {
          calls := calls + [Surfaces.UnsetTextureListener(textureView.value)];
        }
        textureView := None;
      }
      if surfaceHolder.Some? {
        calls := calls + [Surfaces.RemoveHolderCallback(surfaceHolder.value)];
        surfaceHolder := None;
      }
    }

    /** setVideoSurfaceHolder (and setSurfaceView, which passes the view's holder) */
    method SetVideoSurfaceHolder(holder: Option<Surfaces.ViewId>, holderSurface: Option<nat>, valid: bool,
                                 listenerStillOurs: bool)
      requires Valid()
      modifies this`surface, this`ownsSurface, this`textureView, this`surfaceHolder, this`calls
      ensures Valid()
      ensures var s := Surfaces.SetVideoSurfaceHolder(old(Current()), holder, holderSurface, valid, listenerStillOurs);
              Current() == s.after && calls == old(calls) + s.calls
    {
      Surfaces.SetHolderKeepsInv(Current(), calls, holder, holderSurface, valid, listenerStillOurs);
      ghost var detach := Surfaces.RemoveSurfaceCallbacks(Current(), listenerStillOurs);
      RemoveSurfaceCallbacks(listenerStillOurs);
      AttachHolder(holder, holderSurface, valid);
      assert calls == old(calls) + (detach.calls + Surfaces.AttachHolder(detach.after, holder, holderSurface, valid).calls);
    }

    /** The part of setVideoSurfaceHolder after removeSurfaceCallbacks. */
    method AttachHolder(holder: Option<Surfaces.ViewId>, holderSurface: Option<nat>, valid: bool)
      modifies this`surface, this`ownsSurface, this`surfaceHolder, this`calls
      ensures var s := Surfaces.AttachHolder(old(Current()), holder, holderSurface, valid);
              Current() == s.after && calls == old(calls) + s.calls
    {
      surfaceHolder := holder;
      if holder.None? {
        SetVideoSurfaceInternal(None, false);
      } else {
        calls := calls + [Surfaces.AddHolderCallback(holder.value)];
        var target := if holderSurface.Some? && valid then Some(Surfaces.Provided(holderSurface.value)) else None;
        SetVideoSurfaceInternal(target, false);
        assert calls == old(calls) + ([Surfaces.AddHolderCallback(holder.value)] + Surfaces.BindSurface(old(Current()).(holder := holder), target, false).calls);
      }
    }

    /** setTextureView */
    method SetTextureView(texture: Option<Surfaces.ViewId>, available: bool, listenerStillOurs: bool)
      requires Valid()
      modifies this`surface, this`ownsSurface, this`textureView, this`surfaceHolder, this`nextSerial, this`calls
      ensures Valid()
      ensures var s := Surfaces.SetTextureView(old(Current()), texture, available, listenerStillOurs);
              Current() == s.after && calls == old(calls) + s.calls
    {
      Surfaces.SetTextureKeepsInv(Current(), calls, texture, available, listenerStillOurs);
      ghost var detach := Surfaces.RemoveSurfaceCallbacks(Current(), listenerStillOurs);
      RemoveSurfaceCallbacks(listenerStillOurs);
      AttachTexture(texture, available);
      assert calls == old(calls) + (detach.calls + Surfaces.AttachTexture(detach.after, texture, available).calls);
    }

    /** The part of setTextureView after removeSurfaceCallbacks. */
    method AttachTexture(texture: Option<Surfaces.ViewId>, available: bool)
      modifies this`surface, this`ownsSurface, this`textureView, this`nextSerial, this`calls
      ensures var s := Surfaces.AttachTexture(old(Current()), texture, available);
              Current() == s.after && calls == old(calls) + s.calls
    {
      textureView := texture;
      if texture.None? {
        SetVideoSurfaceInternal(None, true);
      } else {
        calls := calls + [Surfaces.SetTextureListener(texture.value)];
        if available {
          var created := Surfaces.Created(nextSerial);
          nextSerial := nextSerial + 1;
          ghost var b2 := Current();
          SetVideoSurfaceInternal(Some(created), true);
          assert calls == old(calls) + ([Surfaces.SetTextureListener(texture.value)] + Surfaces.BindSurface(b2, Some(created), true).calls);
        } else {
          ghost var b1 := Current();
          SetVideoSurfaceInternal(None, true);
          assert calls == old(calls) + ([Surfaces.SetTextureListener(texture.value)] + Surfaces.BindSurface(b1, None, true).calls);
        }
      }
    }

    /** clear(SurfaceView) */
    method ClearSurfaceView(viewHolder: Option<Surfaces.ViewId>, listenerStillOurs: bool)
      requires Valid()
      modifies this`surface, this`ownsSurface, this`textureView, this`surfaceHolder, this`calls
      ensures Valid()
      ensures var s := Surfaces.ClearSurfaceView(old(Current()), viewHolder, listenerStillOurs);
              Current() == s.after && calls == old(calls) + s.calls
    {
      if surfaceHolder.Some? && viewHolder == surfaceHolder {
        SetVideoSurfaceHolder(None, None, false, listenerStillOurs);
      } else {
        assert calls + [] == calls;
      }
    }

    /** clear(TextureView) */
    method ClearTextureView(texture: Option<Surfaces.ViewId>, listenerStillOurs: bool)
      requires Valid()
      modifies this`surface, this`ownsSurface, this`textureView, this`surfaceHolder, this`nextSerial, this`calls
      ensures Valid()
      ensures var s := Surfaces.ClearTextureView(old(Current()), texture, listenerStillOurs);
              Current() == s.after && calls == old(calls) + s.calls
    {
      if texture.Some? && textureView.Some? && texture == textureView {
        SetTextureView(None, false, listenerStillOurs);
      } else {
        assert calls + [] == calls;
      }
    }

    /** clear(): empty every registry, then detach the texture if any, else the holder. */
    method Clear(listenerStillOurs: bool)
      requires Valid()
      modifies this
      ensures Valid()
      ensures var s := Surfaces.ClearAll(old(Current()), listenerStillOurs);
              Current() == s.after && calls == old(calls) + s.calls
      ensures registries == EmptyRegistries() && delivered == old(delivered)
    {
      ClearListeners();
      if textureView.Some? {
        SetTextureView(None, false, listenerStillOurs);
      } else if surfaceHolder.Some? {
        SetVideoSurfaceHolder(None, None, false, listenerStillOurs);
      } else {
        assert calls + [] == calls;
      }
    }

    /**
     * release(): release the engine, detach, release an owned surface and empty the
     * registries. Unlike the source, the released surface is forgotten, so no later
     * call can release it again.
     */
    method Release(listenerStillOurs: bool)
      requires Valid()
      modifies this
      ensures Valid()
      ensures var s := Surfaces.Release(old(Current()), listenerStillOurs);
              Current() == s.after && calls == old(calls) + s.calls
      ensures registries == EmptyRegistries() && delivered == old(delivered)
    {
      ghost var s := Surfaces.Release(Current(), listenerStillOurs);
      Surfaces.ReleaseKeepsInv(Current(), calls, listenerStillOurs);
      assert Surfaces.Inv(s.after, calls + s.calls);
      calls := calls + [Surfaces.ReleaseBackend];
      RemoveSurfaceCallbacks(listenerStillOurs);
      if surface.Some? && ownsSurface {
        calls := calls + [Surfaces.ReleaseSurface(surface.value)];
      }
      surface := None;
      ClearListeners();
      assert Current() == s.after && calls == old(calls) + s.calls;
    }

    /** ComponentListener.surfaceCreated */
    method SurfaceCreated(holderSurface: Option<nat>)
      requires Valid()
      modifies this`surface, this`ownsSurface, this`calls
      ensures Valid()
      ensures var s := Surfaces.SurfaceCreated(old(Current()), holderSurface);
              Current() == s.after && calls == old(calls) + s.calls
    {
      var target := if holderSurface.Some? then Some(Surfaces.Provided(holderSurface.value)) else None;
      Surfaces.BindKeepsInv(Current(), calls, target, false);
      SetVideoSurfaceInternal(target, false);
    }

    /** ComponentListener.surfaceDestroyed */
    method SurfaceDestroyed()
      requires Valid()
      modifies this`surface, this`ownsSurface, this`calls
      ensures Valid()
      ensures var s := Surfaces.SurfaceDestroyed(old(Current()));
              Current() == s.after && calls == old(calls) + s.calls
    {
      Surfaces.BindKeepsInv(Current(), calls, None, false);
      SetVideoSurfaceInternal(None, false);
    }

    /** ComponentListener.onSurfaceTextureAvailable */
    method SurfaceTextureAvailable()
      requires Valid()
      modifies this`surface, this`ownsSurface, this`nextSerial, this`calls
      ensures Valid()
      ensures var s := Surfaces.TextureAvailable(old(Current()));
              Current() == s.after && calls == old(calls) + s.calls
    {
      Surfaces.AllocateKeepsInv(Current(), calls);
      var created := Surfaces.Created(nextSerial);
      nextSerial := nextSerial + 1;
      Surfaces.BindKeepsInv(Current(), calls, Some(created), true);
      SetVideoSurfaceInternal(Some(created), true);
    }

    /** ComponentListener.onSurfaceTextureDestroyed: the façade keeps the texture (returns false). */
    method SurfaceTextureDestroyed() returns (releaseTexture: bool)
      requires Valid()
      modifies this`surface, this`ownsSurface, this`calls
      ensures Valid()
      ensures var s := Surfaces.TextureDestroyed(old(Current()));
              Current() == s.after && calls == old(calls) + s.calls
      ensures !releaseTexture
    {
      Surfaces.BindKeepsInv(Current(), calls, None, true);
      SetVideoSurfaceInternal(None, true);
      releaseTexture := false;
    }

    /** setSurface and setDisplay are refused: surfaces go through the view methods. */
    method SetSurfaceDirectly() returns (o: Outcome<JavaException>)
      ensures o == Fail(IllegalState)
    {
      o := Fail(IllegalState);
    }

    /** clearListeners */
    method ClearListeners()
      modifies this`registries
      ensures registries == EmptyRegistries()
    {
      registries := EmptyRegistries();
    }

    /** addOn…Listener: append to the registry of that kind; duplicates and null are kept. */
    method AddListener(kind: ListenerKind, l: Entry)
      requires RegistriesValid()
      modifies this`registries
      ensures RegistriesValid()
      ensures registries == old(registries)[kind := old(registries)[kind] + [l]]
    {
      registries := registries[kind := registries[kind] + [l]];
    }

    /** removeOn…Listener: drop the first equal entry (null included) of that kind's registry. */
    method RemoveListener(kind: ListenerKind, l: Entry)
      requires RegistriesValid()
      modifies this`registries
      ensures RegistriesValid()
      ensures registries == old(registries)[kind := RemoveFirst(old(registries)[kind], l)]
    {
      var remaining := RemoveFirst(registries[kind], l);
      registries := registries[kind := remaining];
    }

    /**
     * The deprecated setOn…Listener setters: the prepared one adds a present
     * listener, every other one is refused.
     */
    method SetListener(kind: ListenerKind, l: Option<ListenerId>) returns (o: Outcome<JavaException>)
      requires RegistriesValid()
      modifies this`registries
      ensures RegistriesValid()
      ensures kind == PreparedKind ==> o == Pass
      ensures kind != PreparedKind ==> o == Fail(IllegalState)
      ensures registries == if kind == PreparedKind && l.Some? then old(registries)[kind := old(registries)[kind] + [l]]
                            else old(registries)
    {
      if kind != PreparedKind {
        return Fail(IllegalState);
      }
      if l.Some? {
        AddListener(kind, l);
      }
      o := Pass;
    }

    /**
     * An engine callback: call every listener of its kind in registration order.
     * A null entry throws NullPointerException after the listeners before it were
     * called; otherwise onInfo and onError report the event as handled.
     */
    method Notify(n: Notification) returns (o: Outcome<JavaException>, handled: bool)
      requires RegistriesValid()
      modifies this`delivered
      ensures delivered == old(delivered) + Deliveries(registries[KindOf(n)], n)
      ensures o == if None in registries[KindOf(n)] then Fail(NullPointer) else Pass
      ensures handled <==> o.Pass? && (KindOf(n) == InfoKind || KindOf(n) == ErrorKind)
    {
      var ls := registries[KindOf(n)];
      ghost var before := delivered;
      var i := 0;
      while i < |ls| && ls[i].Some?
        invariant 0 <= i <= |ls|
        invariant None !in ls[..i]
        invariant delivered == before + Deliveries(ls[..i], n)
      {
        ghost var done := Deliveries(ls[..i], n);
        delivered := delivered + [Delivery(ls[i].value, n)];
        assert ls[..i + 1] == ls[..i] + [ls[i]];
        DeliveriesAppend(ls[..i], ls[i].value, n);
        assert delivered == before + (done + [Delivery(ls[i].value, n)]);
        i := i + 1;
      }
      if i < |ls| {
        DeliveriesStopAtNull(ls, i, n);
        o, handled := Fail(NullPointer), false;
      } else {
        assert ls[..i] == ls;
        o, handled := Pass, n.Info? || n.Error?;
      }
    }
  }
}
