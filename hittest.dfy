/** Reference model of the decisions InteractionManager (interactions.js)
    takes: when to ask the AR session for a hit-test source, what the
    reticle shows for a frame, and where getReticlePosition says it is.

    Matrix entries are of an opaque type T (three.js keeps them as floats,
    but the manager only copies them), and a hit-test source is an opaque
    handle of type S obtained from the AR platform.
 */
module HitTest {

  datatype Option<T> = None | Some(value: T)

  /** A 4x4 transform as three.js and WebXR store it: 16 entries in
      column-major order, so entries 12, 13 and 14 are the translation. */
  predicate IsMatrix<T>(m: seq<T>) {
    |m| == 16
  }

  /** One element of frame.getHitTestResults(source): its pose relative to
      the renderer's current reference space, as `pose.transform.matrix`,
      or None when getPose does not resolve. */
  datatype HitResult<T> = HitResult(pose: Option<seq<T>>)

  /** What a WebXR frame reports, per frame, for the manager's hit-test
      source: the hit-test results in the platform's order. */
  datatype Frame<T> = Frame(hits: seq<HitResult<T>>)

  /** WebXR hands out 16-entry transforms only. */
  predicate FrameWellFormed<T>(frame: Option<Frame<T>>) {
    frame.Some? ==>
      forall i :: 0 <= i < |frame.value.hits| && frame.value.hits[i].pose.Some? ==>
        IsMatrix(frame.value.hits[i].pose.value)
  }

  /** Where the two-step acquisition (reference space, then hit-test
      source) stands. The source keeps only the boolean
      isRequestingHitTest; the stage says which promise is pending. */
  datatype Stage = Idle | AwaitingReferenceSpace | AwaitingSource

  /** The manager's mutable state: hitTestSource, isRequestingHitTest,
      reticle.visible and reticle.matrix, plus the acquisition stage. */
  datatype State<T, S> = State(
    source: Option<S>,
    requesting: bool,
    stage: Stage,
    visible: bool,
    matrix: seq<T>)

  /** The invariant every reachable state keeps: the flag is set exactly
      while a promise of the chain is pending, a stored source means no
      request is pending, and the reticle holds a 4x4 matrix. */
  predicate Valid<T, S>(st: State<T, S>) {
    && (st.requesting <==> st.stage != Idle)
    && (st.source.Some? ==> !st.requesting)
    && IsMatrix(st.matrix)
  }

  /** The state right after construction; `identity` is the identity
      matrix a fresh three.js Object3D starts with. */
  function Init<T, S>(identity: seq<T>): (st: State<T, S>)
    requires IsMatrix(identity)
    ensures Valid(st)
    ensures st.source.None? && !st.requesting && !st.visible
    ensures st.matrix == identity
  {
    State(None, false, Idle, false, identity)
  }

  /** The pose of the first hit result, if there is one and it resolves;
      later results are never looked at. */
  function FirstPose<T>(hits: seq<HitResult<T>>): Option<seq<T>> {
    if |hits| == 0 then None else hits[0].pose
  }

  /** True when update reaches the hit-test query: a source is stored, a
      frame is given and the renderer has a reference space. */
  predicate Tracking<T, S>(st: State<T, S>, frame: Option<Frame<T>>, hasReferenceSpace: bool) {
    st.source.Some? && frame.Some? && hasReferenceSpace
  }

  /** The second half of update: places or hides the reticle. */
  function Track<T, S>(st: State<T, S>, frame: Option<Frame<T>>, hasReferenceSpace: bool): (r: State<T, S>)
    requires FrameWellFormed(frame)
    ensures r.source == st.source && r.requesting == st.requesting && r.stage == st.stage
    ensures !Tracking(st, frame, hasReferenceSpace) ==> r == st
    ensures Tracking(st, frame, hasReferenceSpace) ==>
      (r.visible <==> FirstPose(frame.value.hits).Some?)
    ensures Tracking(st, frame, hasReferenceSpace) && FirstPose(frame.value.hits).Some? ==>
      r.matrix == FirstPose(frame.value.hits).value
    ensures !r.visible ==> r.matrix == st.matrix
    ensures Valid(st) ==> Valid(r)
  {
    if st.source.None? || frame.None? || !hasReferenceSpace then st
    else
      var hits := frame.value.hits;
      if |hits| > 0 then
        if hits[0].pose.Some? then st.(visible := true, matrix := hits[0].pose.value)
        else st.(visible := false)
      else st.(visible := false)
  }

  /** The outcome of one update call: the new state, and whether it sent
      requestReferenceSpace('viewer') to the session. */
  datatype Step<T, S> = Step(next: State<T, S>, requested: bool)

  /** update(frame, session). `hasSession` and `hasReferenceSpace` say
      whether the session and renderer.xr.getReferenceSpace() are present. */
  function Update<T, S>(st: State<T, S>, frame: Option<Frame<T>>, hasSession: bool, hasReferenceSpace: bool): (r: Step<T, S>)
    requires FrameWellFormed(frame)
    ensures !hasSession ==> r == Step(st, false)
    ensures r.requested <==> hasSession && st.source.None? && !st.requesting
    ensures r.requested ==> r.next.requesting && r.next.stage == AwaitingReferenceSpace
    ensures !r.requested ==> r.next.requesting == st.requesting && r.next.stage == st.stage
    ensures r.next.source == st.source
    ensures hasSession ==>
      r.next.visible == Track(st, frame, hasReferenceSpace).visible &&
      r.next.matrix == Track(st, frame, hasReferenceSpace).matrix
    ensures Valid(st) ==> Valid(r.next)
  {
    if !hasSession then Step(st, false)
    else
      var requested := st.source.None? && !st.requesting;
      var acquiring := if requested then st.(requesting := true, stage := AwaitingReferenceSpace) else st;
      Step(Track(acquiring, frame, hasReferenceSpace), requested)
  }

  /** requestReferenceSpace('viewer') resolved: the chain goes on to
      requestHitTestSource; no field of the manager changes. */
  function OnReferenceSpace<T, S>(st: State<T, S>): (r: State<T, S>)
    requires st.stage == AwaitingReferenceSpace
    ensures r.stage == AwaitingSource && r.requesting == st.requesting
    ensures r.source == st.source && r.visible == st.visible && r.matrix == st.matrix
    ensures Valid(st) ==> Valid(r)
  {
    st.(stage := AwaitingSource)
  }

  /** requestReferenceSpace('viewer') rejected: the flag is cleared. */
  function OnReferenceSpaceFailed<T, S>(st: State<T, S>): (r: State<T, S>)
    requires st.stage == AwaitingReferenceSpace
    ensures !r.requesting && r.stage == Idle
    ensures r.source == st.source && r.visible == st.visible && r.matrix == st.matrix
    ensures Valid(st) ==> Valid(r) && r.source.None?
  {
    st.(requesting := false, stage := Idle)
  }

  /** requestHitTestSource resolved with `src`: it is stored and the flag
      is cleared. */
  function OnSourceAcquired<T, S>(st: State<T, S>, src: S): (r: State<T, S>)
    requires st.stage == AwaitingSource
    ensures r.source == Some(src) && !r.requesting && r.stage == Idle
    ensures r.visible == st.visible && r.matrix == st.matrix
    ensures Valid(st) ==> Valid(r)
  {
    st.(source := Some(src), requesting := false, stage := Idle)
  }

  /** requestHitTestSource rejected: the flag is cleared. */
  function OnSourceFailed<T, S>(st: State<T, S>): (r: State<T, S>)
    requires st.stage == AwaitingSource
    ensures !r.requesting && r.stage == Idle
    ensures r.source == st.source && r.visible == st.visible && r.matrix == st.matrix
    ensures Valid(st) ==> Valid(r) && r.source.None?
  {
    st.(requesting := false, stage := Idle)
  }

  /** A three.js Vector3 whose coordinates are matrix entries. */
  datatype Vector3<T> = Vector3(x: T, y: T, z: T)

  /** getReticlePosition: the translation of the reticle's matrix while the
      reticle is visible, nothing otherwise. */
  function ReticlePosition<T, S>(st: State<T, S>): (r: Option<Vector3<T>>)
    requires IsMatrix(st.matrix)
    ensures r.Some? <==> st.visible
    ensures r.Some? ==> r.value == Vector3(st.matrix[12], st.matrix[13], st.matrix[14])
  {
    if st.visible then Some(Vector3(st.matrix[12], st.matrix[13], st.matrix[14])) else None
  }

  /** A frame whose first hit resolves places the reticle at that hit:
      afterwards getReticlePosition reports the pose's translation. */
  lemma PlacedReticleReportsPose<T, S>(st: State<T, S>, frame: Frame<T>, hasReferenceSpace: bool, pose: seq<T>)
    requires Valid(st) && FrameWellFormed(Some(frame))
    requires st.source.Some? && hasReferenceSpace
    requires FirstPose(frame.hits) == Some(pose)
    ensures ReticlePosition(Update(st, Some(frame), true, hasReferenceSpace).next)
      == Some(Vector3(pose[12], pose[13], pose[14]))
  {
    var r := Update(st, Some(frame), true, hasReferenceSpace).next;
    assert r.visible && r.matrix == pose;
  }

  /** A frame with no hit, or whose first hit has no pose, hides the
      reticle whatever it showed before, so getReticlePosition reports
      nothing, and the matrix is kept. */
  lemma MissHidesReticle<T, S>(st: State<T, S>, frame: Frame<T>, hasReferenceSpace: bool)
    requires Valid(st) && FrameWellFormed(Some(frame))
    requires st.source.Some? && hasReferenceSpace
    requires FirstPose(frame.hits).None?
    ensures ReticlePosition(Update(st, Some(frame), true, hasReferenceSpace).next).None?
    ensures Update(st, Some(frame), true, hasReferenceSpace).next.matrix == st.matrix
  {
  }

  /** Only index 0 is consulted: two frames that agree on their first hit
      (or both have none) lead to the same state. */
  lemma LaterHitsIgnored<T, S>(st: State<T, S>, f: Frame<T>, g: Frame<T>, hasSession: bool, hasReferenceSpace: bool)
    requires FrameWellFormed(Some(f)) && FrameWellFormed(Some(g))
    requires FirstPose(f.hits) == FirstPose(g.hits)
    ensures Update(st, Some(f), hasSession, hasReferenceSpace) == Update(st, Some(g), hasSession, hasReferenceSpace)
  {
  }

  /** A failed acquisition at either step re-arms it: the next update with
      a session issues a fresh request. */
  lemma FailureRearms<T, S>(st: State<T, S>, frame: Option<Frame<T>>, hasReferenceSpace: bool)
    requires Valid(st) && st.requesting && FrameWellFormed(frame)
    ensures st.stage == AwaitingReferenceSpace ==>
      Update(OnReferenceSpaceFailed(st), frame, true, hasReferenceSpace).requested
    ensures st.stage == AwaitingSource ==>
      Update(OnSourceFailed(st), frame, true, hasReferenceSpace).requested
  {
  }
}
