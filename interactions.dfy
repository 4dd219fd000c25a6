/** InteractionManager (interactions.js) as an object whose fields its
    methods update in place. `update` and the continuations of the
    acquisition promises are methods proved against the functions of
    HitTest; getReticlePosition only reads. */
module Interactions {
  import HitTest

  /** The reticle group: the only parts of the three.js Object3D the
      manager touches. */
  class Reticle<T> {
    var visible: bool
    var matrix: seq<T>
    var matrixAutoUpdate: bool

    /** initReticle: the reticle starts hidden, with the identity matrix of
        a fresh Object3D, and with automatic matrix derivation switched off
        so that the manager sets the matrix itself. */
    constructor (identity: seq<T>)
      ensures !visible && matrix == identity && !matrixAutoUpdate
    {
      visible := false;
      matrix := identity;
      matrixAutoUpdate := false;
    }
  }

  class InteractionManager<T, S> {
    var hitTestSource: HitTest.Option<S>
    var isRequestingHitTest: bool
    const reticle: Reticle<T>

    /** Which promise of the acquisition chain is pending. */
    ghost var stage: HitTest.Stage
    /** Acquisition requests issued so far, and how many of them ended. */
    ghost var issued: nat
    ghost var settled: nat

    /** The manager's state as a value of the reference model. */
    ghost function Abstract(): HitTest.State<T, S>
      reads this, reticle
    {
      HitTest.State(hitTestSource, isRequestingHitTest, stage, reticle.visible, reticle.matrix)
    }

    /** The object invariant: the reference model's invariant, at most one
        request in flight and the flag set exactly while one is, and the
        reticle's matrix set by hand. */
    ghost predicate Valid()
      reads this, reticle
    {
      && HitTest.Valid(Abstract())
      && settled <= issued <= settled + 1
      && (issued == settled + 1 <==> isRequestingHitTest)
      && !reticle.matrixAutoUpdate
    }

    /** constructor(scene, renderer, camera) with initReticle. The scene,
        renderer and camera are not kept: the renderer's reference space is
        passed to Update instead. */
    constructor (identity: seq<T>)
      requires HitTest.IsMatrix(identity)
      ensures Valid() && fresh(reticle)
      ensures Abstract() == HitTest.Init(identity)
      ensures issued == 0 && settled == 0
    {
      hitTestSource := HitTest.None;
      isRequestingHitTest := false;
      reticle := new Reticle(identity);
      stage := HitTest.Idle;
      issued, settled := 0, 0;
    }

    /** update(frame, session). `hasSession` says whether a session is
        given, `hasReferenceSpace` whether renderer.xr.getReferenceSpace()
        returns one; `frame` holds what the frame reports for the stored
        source. Sending requestReferenceSpace('viewer') bumps `issued`. */
    method Update(frame: HitTest.Option<HitTest.Frame<T>>, hasSession: bool, hasReferenceSpace: bool)
      requires Valid() && HitTest.FrameWellFormed(frame)
      modifies this, reticle
      ensures Valid()
      ensures Abstract() == HitTest.Update(old(Abstract()), frame, hasSession, hasReferenceSpace).next
      ensures issued == old(issued) + (if HitTest.Update(old(Abstract()), frame, hasSession, hasReferenceSpace).requested then 1 else 0)
      ensures settled == old(settled)
    {
      if !hasSession {
        return;
      }

      if hitTestSource.None? && !isRequestingHitTest {
        isRequestingHitTest := true;
        stage := HitTest.AwaitingReferenceSpace;
        issued := issued + 1;
      }

      if hitTestSource.Some? && frame.Some? {
        if !hasReferenceSpace {
          return;
        }
        var hits := frame.value.hits;
        if |hits| > 0 {
          var pose := hits[0].pose;
          if pose.Some? {
            reticle.visible := true;
            reticle.matrix := pose.value;
          } else {
            reticle.visible := false;
          }
        } else {
          reticle.visible := false;
        }
      }
    }

    /** The reference space arrived; requestHitTestSource is sent next. */
    method OnReferenceSpace()
      requires Valid() && stage == HitTest.AwaitingReferenceSpace
      modifies this
      ensures Valid()
      ensures Abstract() == HitTest.OnReferenceSpace(old(Abstract()))
      ensures issued == old(issued) && settled == old(settled)
    {
      stage := HitTest.AwaitingSource;
    }

    /** The reference-space request was rejected. */
    method OnReferenceSpaceFailed()
      requires Valid() && stage == HitTest.AwaitingReferenceSpace
      modifies this
      ensures Valid()
      ensures Abstract() == HitTest.OnReferenceSpaceFailed(old(Abstract()))
      ensures issued == old(issued) && settled == old(settled) + 1
    {
      isRequestingHitTest := false;
      stage := HitTest.Idle;
      settled := settled + 1;
    }

    /** The hit-test source arrived. */
    method OnSourceAcquired(src: S)
      requires Valid() && stage == HitTest.AwaitingSource
      modifies this
      ensures Valid()
      ensures Abstract() == HitTest.OnSourceAcquired(old(Abstract()), src)
      ensures issued == old(issued) && settled == old(settled) + 1
    {
      hitTestSource := HitTest.Some(src);
      isRequestingHitTest := false;
      stage := HitTest.Idle;
      settled := settled + 1;
    }

    /** The hit-test source request was rejected. */
    method OnSourceFailed()
      requires Valid() && stage == HitTest.AwaitingSource
      modifies this
      ensures Valid()
      ensures Abstract() == HitTest.OnSourceFailed(old(Abstract()))
      ensures issued == old(issued) && settled == old(settled) + 1
    {
      isRequestingHitTest := false;
      stage := HitTest.Idle;
      settled := settled + 1;
    }

    /** getReticlePosition: the translation of the reticle's matrix while
        it is visible, None (null) while it is hidden. */
    method GetReticlePosition() returns (p: HitTest.Option<HitTest.Vector3<T>>)
      requires Valid()
      ensures p.None? <==> !reticle.visible
      ensures p == HitTest.ReticlePosition(Abstract())
    {
      if reticle.visible {
        var m := reticle.matrix;
        return HitTest.Some(HitTest.Vector3(m[12], m[13], m[14]));
      }
      return HitTest.None;
    }
  }

  /** A client driving one manager through the measurement life cycle,
      relying on the methods' contracts alone. */
  method MeasurementSession<T, S>(identity: seq<T>, src: S, p: seq<T>)
    requires HitTest.IsMatrix(identity) && HitTest.IsMatrix(p)
  {
    var m := new InteractionManager<T, S>(identity);
    m.Update(HitTest.None, false, false);
    assert !m.reticle.visible && m.issued == 0;

    var empty := HitTest.Frame([]);
    m.Update(HitTest.Some(empty), true, true);
    assert m.isRequestingHitTest && m.issued == 1 && !m.reticle.visible;
    m.Update(HitTest.Some(empty), true, true);
    assert m.issued == 1;

    m.OnReferenceSpace();
    m.OnSourceAcquired(src);
    m.Update(HitTest.Some(HitTest.Frame([HitTest.HitResult(HitTest.Some(p))])), true, true);
    var pos := m.GetReticlePosition();
    assert pos == HitTest.Some(HitTest.Vector3(p[12], p[13], p[14]));

    m.Update(HitTest.Some(empty), true, true);
    pos := m.GetReticlePosition();
    assert pos.None? && m.issued == 1;
  }
}
