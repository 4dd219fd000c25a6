# InteractionManager of ARmeasure, modelled in Dafny

ARmeasure is a browser tool for augmented-reality measurement. Its
`InteractionManager` (`src/modules/interactions.js`) owns the reticle, the
marker that shows which real-world surface the device is aimed at. Once per
rendered frame, `update(frame, session)` decides two things:

- whether to ask the AR session for a hit-test source, in two asynchronous
  steps: `requestReferenceSpace('viewer')`, then `requestHitTestSource`;
- whether the reticle is shown, and where, from the first hit-test result.

`getReticlePosition()` returns the translation of the reticle's matrix while
the reticle is visible, and null otherwise.

The project has three modules:

- `HitTest` (`hittest.dfy`) is the reference model. The manager's fields
  (`hitTestSource`, `isRequestingHitTest`, `reticle.visible`, `reticle.matrix`)
  form a `State` value. `update`, the four promise continuations and
  `getReticlePosition` are functions on that state, with the invariant
  `Valid`.
- `Runs` (`runs.dfy`) models a run of the manager: `update` calls
  interleaved with promise continuations, one at a time on the single
  JavaScript thread. It proves by induction what holds over every run: the
  invariant is kept, at most one request is in flight, a stored source is
  never dropped, and ticks without a session change nothing.
- `Interactions` (`interactions.dfy`) is the class `InteractionManager`, with
  a `Reticle` object. Its fields are updated in place by `Update` and by one
  method per promise continuation. Each method is proved to produce the
  state that the matching `HitTest` function gives. Ghost counters `issued`
  and `settled` count requests sent and requests ended. A ghost `stage`
  records which promise of the chain is pending.

Inputs from the browser and from three.js are abstract:

- Matrix entries have an opaque type `T`.
- A hit-test source is an opaque handle of type `S`.
- The session and the renderer's reference space are present/absent flags.
- A frame is the list of hit-test results the platform reports for the
  stored source. Each result carries its pose matrix (16 entries), or none
  when `getPose` does not resolve.
- The promise chain becomes explicit events: reference space resolved or
  rejected, then source resolved or rejected.

The code never resets the source or the flag when a session ends, and the
model keeps that behaviour. A later session on the same manager therefore
passes the old source to `getHitTestResults` and never sends a new request
(`Runs.SourceIsPermanent`). What the platform does with a source from an
ended session is outside the model. A generation token bumped on session
end, used to drop late results, would close this gap. The code has no such
token, and the model follows the code.

`Interactions.MeasurementSession` is a client written against the method
contracts alone. It drives one manager through the same life cycle that
`Runs.MeasurementScenario` states on the reference model.

## Model

| member | source | states |
|---|---|---|
| HitTest.Init | ARmeasure_react-main/src/modules/interactions.js:9-36 | A new manager has no source, no request in flight, and a hidden reticle that keeps its initial (identity) matrix; the invariant holds |
| HitTest.Track | ARmeasure_react-main/src/modules/interactions.js:64-84 | Without a source, a frame or a renderer reference space, nothing changes. Otherwise the reticle is visible exactly when the first hit resolves to a pose, and then its matrix is that pose. A hidden reticle keeps its matrix. Acquisition state is untouched |
| HitTest.Update | ARmeasure_react-main/src/modules/interactions.js:40-85 | Without a session nothing changes and no request is sent. A request is sent exactly when there is a session, no source and none in flight, and it sets the flag. The source is never changed by update, and the invariant is kept |
| HitTest.OnReferenceSpace | ARmeasure_react-main/src/modules/interactions.js:48-49 | When the reference space resolves, the chain moves on to the source request. The flag stays set and no field of the manager changes |
| HitTest.OnReferenceSpaceFailed | ARmeasure_react-main/src/modules/interactions.js:57-60 | A rejected reference-space request clears the flag and leaves the source absent. The same catch also handles a throw from requestHitTestSource after the reference space resolved; that case is OnReferenceSpace then OnSourceFailed, with the same state |
| HitTest.OnSourceAcquired | ARmeasure_react-main/src/modules/interactions.js:49-51 | A resolved source request stores the source and clears the flag. The reticle is untouched |
| HitTest.OnSourceFailed | ARmeasure_react-main/src/modules/interactions.js:53-56 | A rejected source request clears the flag and leaves the source absent. A synchronous throw from requestHitTestSource, caught by the outer catch at lines 57-60, is reached as OnReferenceSpace then OnSourceFailed and gives the same state |
| HitTest.ReticlePosition | ARmeasure_react-main/src/modules/interactions.js:87-92 | Returns a position exactly when the reticle is visible. The position is entries 12, 13 and 14 of the column-major matrix |
| HitTest.PlacedReticleReportsPose | ARmeasure_react-main/src/modules/interactions.js:70-89 | After a frame whose first hit resolves to pose p, getReticlePosition reports p's translation |
| HitTest.MissHidesReticle | ARmeasure_react-main/src/modules/interactions.js:78-83 | After a frame with no hits, or whose first hit has no pose, getReticlePosition reports nothing, whatever was shown before, and the matrix is kept |
| HitTest.LaterHitsIgnored | ARmeasure_react-main/src/modules/interactions.js:70-72 | Two frames that agree on the first hit's pose give the same update outcome. Results after index 0 have no effect |
| HitTest.FailureRearms | ARmeasure_react-main/src/modules/interactions.js:44-60 | After a rejection at either step, the next update with a session sends a fresh request |
| Runs.RunKeepsInvariant | ARmeasure_react-main/src/modules/interactions.js:44-60 | Every legal run keeps the invariant. Requests issued plus those pending at the start equal requests settled plus those pending at the end |
| Runs.AtMostOneInFlight | ARmeasure_react-main/src/modules/interactions.js:44-45 | On every run from construction, issued minus settled is 0 or 1, and it is 1 exactly while isRequestingHitTest is set |
| Runs.SourceIsPermanent | ARmeasure_react-main/src/modules/interactions.js:44-51 | Once a source is stored, no later input removes it, including ticks without a session, and no request is issued again |
| Runs.SessionlessRunKeepsReticle | ARmeasure_react-main/src/modules/interactions.js:41 | Any run whose update calls all lack a session leaves the reticle's visibility and matrix unchanged and issues no request |
| Runs.MeasurementScenario | ARmeasure_react-main/src/modules/interactions.js:40-92 | The life cycle: update(null, null) does nothing. The first update with a session starts acquisition and the reticle stays hidden. After the source arrives, a hit with pose p shows the reticle at p. An empty frame hides it |
| Interactions.Reticle.constructor | ARmeasure_react-main/src/modules/interactions.js:34-36 | The reticle starts hidden, with automatic matrix derivation off |
| Interactions.InteractionManager.constructor | ARmeasure_react-main/src/modules/interactions.js:5-14 | A fresh manager is in HitTest.Init's state, with no request issued |
| Interactions.InteractionManager.Update | ARmeasure_react-main/src/modules/interactions.js:40-85 | Updates the fields in place to HitTest.Update's state, keeps the object invariant (at most one request in flight), and counts a request exactly when one is sent |
| Interactions.InteractionManager.OnReferenceSpace | ARmeasure_react-main/src/modules/interactions.js:48-49 | Moves the chain to the source request as HitTest.OnReferenceSpace does; no request is counted or settled |
| Interactions.InteractionManager.OnReferenceSpaceFailed | ARmeasure_react-main/src/modules/interactions.js:57-60 | Clears the flag as HitTest.OnReferenceSpaceFailed does and settles the pending request |
| Interactions.InteractionManager.OnSourceAcquired | ARmeasure_react-main/src/modules/interactions.js:49-51 | Stores the source and clears the flag as HitTest.OnSourceAcquired does, and settles the pending request |
| Interactions.InteractionManager.OnSourceFailed | ARmeasure_react-main/src/modules/interactions.js:53-56 | Clears the flag as HitTest.OnSourceFailed does and settles the pending request; also stands for a synchronous throw from requestHitTestSource caught at lines 57-60 |
| Interactions.InteractionManager.GetReticlePosition | ARmeasure_react-main/src/modules/interactions.js:87-92 | Returns None exactly when the reticle is hidden, and otherwise the translation given by HitTest.ReticlePosition |

## Left out

- `src/modules/scene.js` (SceneManager) is not part of this model. It sets up the WebGL renderer, appends DOM elements, creates the AR button, registers event listeners, runs the animation loop and exposes a capture stream. It has no decision logic of its own.
- Reticle geometry and material (ring, dot, rotation, colours, opacity) are not modelled. They are floating-point geometry inside three.js.
- `updateMatrixWorld(true)` is left out. It is a three.js internal that recomputes world transforms. The numeric content of matrices is opaque.
- `getPose(referenceSpace)` and `getHitTestResults(source)` are computed by the WebXR platform. The model takes their results as input: a frame carries each hit's pose relative to the renderer's current reference space. So the model does not capture that a pose depends on which reference space is passed.
- The scene, renderer and camera references are not kept. The renderer's reference space becomes the `hasReferenceSpace` argument of update. A session is a present/absent flag, so the model does not tell one session from another.
- Promise scheduling is replaced by event methods that the caller invokes one at a time, only while the matching promise is pending. The `console.log` and `console.error` calls are left out.
- `Matrix4.fromArray` given fewer than 16 entries is not modelled. WebXR transforms always have 16 entries, so update requires well-formed frames.
