# react-hmvc widget lifecycle, modelled in Dafny

`createWidget` turns a configuration — a `name`, a `controller` that fetches
data, and an optional `view`, `pendingView` and `errorView` — into a function
from controller properties to an element. The element is a `CreateWidget`
component inside an `ErrorBoundary` of the same name. The component starts
with three false flags (`isPromised`, `isError`, `showNothing`) and an empty
`result`. On mount, if a `view` is configured, it calls the controller once and
settles every property of the returned bag; with no `view` it never calls the
controller. Either way it then sets exactly one flag. `render` picks the output
from the flags and from which optional views are configured.

The model is functional:

- `property_bag.dfy` (`PropertyBag`): how a bag of plain values and promises
  settles, all or nothing. `ResolveAll` states this as a function.
  `SettleAll` settles one key at a time and stops at the first rejection; it
  is proved equal to `ResolveAll`.
- `widget.dfy` (`Widget`): the configuration, the state record, the controller
  outcome, `Mount` (the whole of `componentDidMount` as one transition) and
  `Render` (the priority cascade of `render`).
- `lifecycle.dfy` (`Lifecycle`): the phases Pending, Resolved, Errored and
  Empty. `MountPhase` and `RenderPhase` are specification functions rather
  than models of particular lines: they state per phase the decisions of
  `componentDidMount` and `render` (no view or a null result gives Empty, any
  failure gives Errored, Errored shows the error view or nothing). The lemmas
  prove that the flag-based state implements them.
- `error_boundary.dfy` (`ErrorBoundary`): the boundary latch, one render pass
  at a time (`Step`) and over any sequence of passes (`Run`).
- `factory.dfy` (`Factory`): `createWidget`, and one render pass of the
  element it builds (`Frame`).
- `scenarios.dfy` (`Scenarios`): a profile widget whose bag mixes a plain value
  with a promise, and a widget whose controller rejects, with and without a
  view configured.

The controller is a total function from controller properties to an `Outcome`:
`Throws` (a synchronous throw or a rejected promise), `Nullish` (null or
undefined), or `Yields(bag)`. Each property in the bag is `Plain(v)`,
`Fulfils(v)` or `Rejects`. Views are identified by name. `Render` returns a
small `Output` datatype instead of JSX.

`Render` has one output that no state reached by mounting once with fixed
properties produces: `isPromised` with no `view` configured. The source would then build an element whose type is
undefined, and React throws when it renders one. The model keeps that case
as `UndefinedElement`. `Lifecycle.RenderRefinesPhase` proves that no coherent
state reaches it. `Lifecycle.InitialIsPending` proves that the initial state
is coherent, and `Lifecycle.MountRefinesPhase` that every state mounted from
it is.

Some behaviours of `src/index.tsx` are worth noting:

- `src/index.tsx` publishes no ambient result context, so no value is
  published in any phase.
- The error view and the pending view are rendered without properties. The
  error view does not receive the `errorInfo` its type declares.
- A null or undefined result sets only `showNothing`. `isPromised` keeps
  whatever value it had, which is false from the initial state.
- The error view needs a `view`. With no `view` the controller is never
  called, so a widget configured with only a controller and an error view
  renders nothing even when that controller would reject
  (`Scenarios.RejectingControllerWithoutViewShowsNothing`).
- With no `view` but a `pendingView`, the first render, before the mount,
  shows the pending view; only the mount switches it to nothing
  (`Scenarios.NoViewShowsPendingBeforeMount`).

## Model

| member | source | states |
|---|---|---|
| PropertyBag.ResolveAll | src/index.tsx:77-79 | The bag rejects exactly when some property rejects. Otherwise the settled map has the same keys and each property's own value. |
| PropertyBag.SettleAll | src/index.tsx:77-79 | Settling properties one at a time, stopping at the first rejection, gives the same result as the all-or-nothing resolution. |
| PropertyBag.OneRejectionRejectsAll | src/index.tsx:77-91 | One rejecting property rejects the whole bag, whatever any other property does, so no partial result survives. |
| Widget.Initial | src/index.tsx:57-62 | A new widget has all three flags false and an empty result. |
| Widget.Mount | src/index.tsx:64-100 | No view: sets `showNothing`, clears `isPromised`, keeps the rest. Null or undefined: sets only `showNothing`. Full settlement: sets `isPromised` and stores exactly the settled bag as `result`. Controller or property failure: sets `isError`, clears `isPromised`, keeps the result. |
| Widget.Render | src/index.tsx:102-128 | Fixed priority. An error with an error view wins. Then `showNothing`, which gives nothing. Then `isPromised`, which gives the view tagged with the name, its element built with exactly the stored result. Then the pending view, only when neither error nor result is set. Otherwise nothing. Each case is stated as an if-and-only-if. |
| Lifecycle.PhaseOf | src/index.tsx:25-30 | A state with at most one flag stands for exactly one phase. Each flag corresponds to one terminal phase, and no flag means Pending. |
| Lifecycle.InitialIsPending | src/index.tsx:119-127 | The initial state is Pending. It renders the pending view when one is configured and nothing otherwise. |
| Lifecycle.MountRefinesPhase | src/index.tsx:57-100 | From the initial state, one mount sets exactly one terminal flag and never stays Pending. It lands in the phase the per-outcome reducer names. |
| Lifecycle.RenderRefinesPhase | src/index.tsx:102-128 | On every coherent state, render shows what the phase prescribes and never an undefined element. |
| Lifecycle.RenderAfterMount | src/index.tsx:64-128 | For every configuration and controller, what the mounted widget shows equals the phase rendering of the reducer's phase. |
| Lifecycle.NoViewIgnoresController | src/index.tsx:93-99 | With no view, the mounted state does not depend on the controller, and the widget renders nothing. |
| Lifecycle.NullishRendersNothing | src/index.tsx:70-75 | A null or undefined controller result renders nothing, even when pending and error views are configured. |
| Lifecycle.FailureRendersErrorView | src/index.tsx:85-105 | A controller failure or a single rejecting property renders the error view if one is configured. Otherwise it renders nothing, never the pending view. |
| Lifecycle.ResolvedRendersView | src/index.tsx:110-117 | When every property settles, the view is shown tagged with the widget's name, its element built with exactly the settled bag as properties. |
| ErrorBoundary.Fresh | src/index.tsx:36 | A boundary starts with no error caught. |
| ErrorBoundary.Step | src/index.tsx:37-48 | A throwing render latches the boundary. A latched boundary shows an empty fragment. An unlatched boundary with children that render shows them unchanged. |
| ErrorBoundary.Run | src/index.tsx:36-48 | Over any sequence of passes, the boundary ends latched exactly when it started latched or some pass threw. A pass shows the children exactly when no pass up to and including it threw. |
| ErrorBoundary.LatchHolds | src/index.tsx:39-44 | A latched boundary is never reset and shows only empty fragments. |
| ErrorBoundary.AfterCatchOnlyEmpty | src/index.tsx:37-44 | After the first caught error, every later pass of a fresh boundary shows an empty fragment. |
| Factory.CreateWidget | src/index.tsx:131-139 | Every element built wraps the widget in a boundary with the widget's name that is fresh when first mounted. It keeps the configuration and forwards the controller properties unchanged. |
| Factory.Frame | src/index.tsx:134-138 | The element shows the widget's render output exactly when the boundary is not latched and that output does not throw. A throwing output latches the boundary. |
| Factory.RenderFailureContained | src/index.tsx:37-48 | A view that throws while rendering the settled bag is contained. The boundary latches and shows an empty fragment. |
| Scenarios.ProfileShowsSettledBag | src/index.tsx:77-117 | The profile view's element is built with `id` 1 and the settled `bio` "hi", and nothing else. |
| Scenarios.RejectingControllerShowsErrorView | src/index.tsx:85-105 | With a view configured, a rejecting controller and an error view show the error view. |
| Scenarios.RejectingControllerWithoutViewShowsNothing | src/index.tsx:93-109 | With no view configured, the same rejecting controller and error view show nothing, because the controller is never called. |
| Scenarios.NoViewShowsPendingBeforeMount | src/index.tsx:93-127 | With no view but a pending view, the first render shows the pending view and the render after the mount shows nothing. |

## Left out

- React rendering, reconciliation, `setState` batching and JSX construction. Render outputs are the `Output` and `Fragment` datatypes.
- The `console.log` diagnostics in `componentDidCatch` and in the controller's failure path. They are output only.
- The internals of `promiseAllProperties`. It is modelled by its observable result: every property settles, or the bag rejects.
- Asynchronous timing. Mounting is one atomic transition from a settled outcome. A controller that never settles, which would leave the widget pending forever, is not modelled.
- An unmount before the controller settles. This is a concurrency concern with no guard in the source.
- React's own re-rendering and instance reuse. The model mounts each element once with fixed properties. A mounted instance never re-fetches when its controller properties change, and an instance React reuses for another element at the same position keeps its state and its boundary's latch, so the new view can be shown with the old result. A reused instance that had resolved and whose new configuration has no `view` renders the undefined element; React throws on it and the reused boundary catches it and latches.
- React's reserved `key` and `ref` properties. Spreading the result into the view's element removes them, so a bag holding `key` or `ref` reaches the view without them; the model's `Tagged` output carries the whole bag the element is built with.
- The TypeScript generic type declarations. They have no runtime behaviour.
- The ambient result context and its consumer helpers. They are not part of `src/index.tsx`, which is the file modelled here.
- The value a rejection carries. It is only logged, so `Rejects` carries none.
