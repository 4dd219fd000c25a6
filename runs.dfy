/** Runs of InteractionManager: the render loop's update calls interleaved
    with the continuations of the acquisition promises, applied one at a
    time on the single JavaScript thread. */
module Runs {
  import opened HitTest

  /** One thing that can happen to the manager. */
  datatype Input<T, S> =
    | Tick(frame: Option<Frame<T>>, hasSession: bool, hasReferenceSpace: bool)
    | ReferenceSpaceResolved
    | ReferenceSpaceFailed
    | SourceResolved(src: S)
    | SourceFailed

  /** A continuation runs only while its promise is pending; a frame comes
      from WebXR and so carries 16-entry transforms. */
  predicate Enabled<T, S>(st: State<T, S>, e: Input<T, S>) {
    match e
    case Tick(frame, _, _) => FrameWellFormed(frame)
    case ReferenceSpaceResolved => st.stage == AwaitingReferenceSpace
    case ReferenceSpaceFailed => st.stage == AwaitingReferenceSpace
    case SourceResolved(_) => st.stage == AwaitingSource
    case SourceFailed => st.stage == AwaitingSource
  }

  /** True when the input ends a pending acquisition (resolves or rejects
      its last promise). */
  predicate Settles<T, S>(e: Input<T, S>) {
    e.ReferenceSpaceFailed? || e.SourceResolved? || e.SourceFailed?
  }

  function Apply<T, S>(st: State<T, S>, e: Input<T, S>): Step<T, S>
    requires Enabled(st, e)
  {
    match e
    case Tick(frame, hasSession, hasReferenceSpace) => Update(st, frame, hasSession, hasReferenceSpace)
    case ReferenceSpaceResolved => Step(OnReferenceSpace(st), false)
    case ReferenceSpaceFailed => Step(OnReferenceSpaceFailed(st), false)
    case SourceResolved(src) => Step(OnSourceAcquired(st, src), false)
    case SourceFailed => Step(OnSourceFailed(st), false)
  }

  /** Every input of `es` is enabled in the state it is applied to. */
  predicate Legal<T, S>(st: State<T, S>, es: seq<Input<T, S>>)
    decreases |es|
  {
    es == [] || (Enabled(st, es[0]) && Legal(Apply(st, es[0]).next, es[1..]))
  }

  /** The end of a run: the last state, how many acquisition requests were
      issued and how many of them ended. */
  datatype Trace<T, S> = Trace(last: State<T, S>, issued: nat, settled: nat)

  function Run<T, S>(st: State<T, S>, es: seq<Input<T, S>>): Trace<T, S>
    requires Legal(st, es)
    decreases |es|
  {
    if es == [] then Trace(st, 0, 0)
    else
      var step := Apply(st, es[0]);
      var t := Run(step.next, es[1..]);
      Trace(t.last, t.issued + (if step.requested then 1 else 0), t.settled + (if Settles(es[0]) then 1 else 0))
  }

  /** Number of acquisition requests pending in a state. */
  function InFlight<T, S>(st: State<T, S>): nat {
    if st.requesting then 1 else 0
  }

  /** Every run keeps the invariant, and the requests it issues are exactly
      the ones it settles plus the change in the number pending. */
  lemma {:induction false} RunKeepsInvariant<T, S>(st: State<T, S>, es: seq<Input<T, S>>)
    requires Valid(st) && Legal(st, es)
    ensures Valid(Run(st, es).last)
    ensures Run(st, es).issued + InFlight(st) == Run(st, es).settled + InFlight(Run(st, es).last)
    decreases |es|
  {
    if es != [] {
      var step := Apply(st, es[0]);
      assert Valid(step.next);
      assert (if step.requested then 1 else 0) + InFlight(st)
        == (if Settles(es[0]) then 1 else 0) + InFlight(step.next);
      RunKeepsInvariant(step.next, es[1..]);
    }
  }

  /** From construction on, at most one acquisition request is ever in
      flight, and the flag isRequestingHitTest is set exactly while one is. */
  lemma AtMostOneInFlight<T, S>(identity: seq<T>, es: seq<Input<T, S>>)
    requires IsMatrix(identity) && Legal(Init<T, S>(identity), es)
    ensures var t := Run(Init<T, S>(identity), es);
      t.settled <= t.issued <= t.settled + 1 &&
      (t.issued == t.settled + 1 <==> t.last.requesting)
  {
    RunKeepsInvariant(Init<T, S>(identity), es);
  }

  /** Once a hit-test source is stored it is kept for good: no later input,
      not even a tick without a session, removes it, and no further request
      is ever issued. */
  lemma {:induction false} SourceIsPermanent<T, S>(st: State<T, S>, es: seq<Input<T, S>>)
    requires Valid(st) && st.source.Some? && Legal(st, es)
    ensures Run(st, es).last.source == st.source
    ensures Run(st, es).issued == 0 && Run(st, es).settled == 0
    decreases |es|
  {
    if es != [] {
      var step := Apply(st, es[0]);
      assert es[0].Tick?;
      SourceIsPermanent(step.next, es[1..]);
    }
  }

  /** True when no input of `es` is an update call with a session. */
  predicate NoSession<T, S>(es: seq<Input<T, S>>) {
    forall i :: 0 <= i < |es| ==> !(es[i].Tick? && es[i].hasSession)
  }

  /** Update calls without a session, interleaved with whatever promise
      continuations are pending, never touch the reticle and issue no
      request; in particular a fresh manager's reticle stays invisible. */
  lemma {:induction false} SessionlessRunKeepsReticle<T, S>(st: State<T, S>, es: seq<Input<T, S>>)
    requires Legal(st, es) && NoSession(es)
    ensures Run(st, es).last.visible == st.visible
    ensures Run(st, es).last.matrix == st.matrix
    ensures Run(st, es).issued == 0
    decreases |es|
  {
    if es != [] {
      var step := Apply(st, es[0]);
      assert NoSession(es[1..]) by {
        forall i | 0 <= i < |es[1..]| ensures !(es[1..][i].Tick? && es[1..][i].hasSession) {
          assert es[1..][i] == es[i + 1];
        }
      }
      SessionlessRunKeepsReticle(step.next, es[1..]);
    }
  }

  /** The life cycle from construction: update(null, null) does nothing;
      the first update with a session starts acquisition and leaves the
      reticle hidden; once the source arrives, a frame whose first hit has
      pose p shows the reticle at p; a frame with no hit hides it again. */
  lemma MeasurementScenario<T, S>(identity: seq<T>, src: S, p: seq<T>, f1: Frame<T>)
    requires IsMatrix(identity) && IsMatrix(p) && FrameWellFormed(Some(f1))
    ensures var s0 := Init<T, S>(identity);
      var s1 := Update(s0, None, false, false);
      var s2 := Update(s1.next, Some(f1), true, true);
      var s3 := OnSourceAcquired(OnReferenceSpace(s2.next), src);
      var s4 := Update(s3, Some(Frame([HitResult(Some(p))])), true, true);
      var s5 := Update(s4.next, Some(Frame([])), true, true);
      && !s1.requested && !s1.next.visible && s1.next.source.None?
      && s2.requested && s2.next.requesting && !s2.next.visible
      && !s4.requested && s4.next.visible && s4.next.matrix == p
      && ReticlePosition(s4.next) == Some(Vector3(p[12], p[13], p[14]))
      && !s5.requested && !s5.next.visible && ReticlePosition(s5.next).None?
  {
  }
}
