# Knockout.LazyLoad activation engine, in Dafny

A model of the viewport-driven activation engine `KoLazyLoad` of
Knockout.LazyLoad-Revived, with proofs about it. An image bound with
`data-bind="lazyload: {...}"` first shows a placeholder. Its real `src` and
`srcset` are written only when it comes into view, or within `threshold`
pixels of the bottom edge. The engine then marks it with the `kolazy` flag and
emits `load` to the callbacks registered for the element's id.

The project has four modules:

- `Js` (js.dfy): the host values the engine inspects (`JsValue`; callbacks
  are opaque tokens `Fn(callback)`), `String.prototype.split` on one
  character, and ASCII `toLowerCase`.
- `Geometry` (geometry.dfy): `isInViewport` on integer rectangles, with the
  window-to-document fallback for the viewport size.
- `EventBus` (event_bus.dfy): the listener registry
  `map<id, map<event, seq<callback>>>` as a value. It has the registration
  done by `on` (`Register`) and the dispatch done by `emit` (`EmitSpec`),
  and lemmas on order, frames and argument checks.
- `LazyLoad` (lazy_load.dfy): the DOM element as a class `Element` (tag, id,
  `hidden`, `visibility: hidden`, rectangle, attribute map, `kolazy`) with a
  value view `ElementState`. The engine is the class `KoLazyLoad`. Its fields
  are the registry, the `handlers` table, the `updatebit` toggle, the
  subscribed closures, the trace of callback invocations and the debug log.
  Its methods `On`, `Emit`, `FlagForLoadCheck`, `UpdateImage`, `Update` and
  `Init` are each proved against the old state or a pure function of it:
  `Register`, `EmitSpec`, `ImageStep`, `UpdateSpec` and `RegisterAll`.
  Lemmas about those functions state what the source promises. `Tick` is
  the exception. It is proved only to preserve invariants (see "Left out").

The model follows the code where it does more, or less, than its comments and messages say:

- `emit` with an undefined key returns silently, without the debug line.
- `init` returns before doing anything else when `on` is configured and the
  element has no truthy id. It writes no placeholder, subscribes no
  closure and does not toggle `updatebit`. The engine's own toggle loop
  therefore never checks such an element. Only the host's binding layer,
  which calls the returned `update` (ko.lazyload.js:251-255) and is not part
  of this model, still can. The diagnostic it logs speaks only of the
  callback registration failing.
- An empty `on` object is truthy, so it still triggers that early return.
  An empty-string id counts as missing in `init`. In `updateImage`, though,
  an empty id is still a string key for `emit`.

Inputs from outside the engine are parameters:

- the viewport size (`Viewport`);
- the element's visibility and geometry, which are fields the environment
  may change between checks;
- the binding options, as `Config`, already unwrapped.

Callback invocations are recorded in `trace`. Debug output is recorded in
`log`. An error thrown by `update` is its `Some(message)` result.

## Model

| member | source | states |
|---|---|---|
| `Js.Split` | ko.lazyload.js:30 | `events.split(" ")` gives at least one piece, and no piece contains a space |
| `Js.SplitJoin` | ko.lazyload.js:30 | joining the pieces of a split with the separator gives back the original string |
| `Js.JoinSplit` | ko.lazyload.js:91 | splitting a join of separator-free pieces gives back exactly those pieces, so split loses nothing |
| `Js.SplitCons` | ko.lazyload.js:91 | a separator after a separator-free prefix ends exactly that piece, so names are taken left to right |
| `Js.SplitWithoutSeparator` | ko.lazyload.js:158 | a name without a space, such as "load", splits into itself alone |
| `Js.ToLower` | ko.lazyload.js:243 | the lower-cased tag has the same length, with each ASCII capital mapped to its lower-case letter |
| `Js.ToLowerIdempotent` | ko.lazyload.js:243-244 | lower-casing an already lower-cased name changes nothing |
| `Js.ToLowerImg` | ko.lazyload.js:243-244 | the tag names "IMG" and "img" both look up the "img" handler |
| `Geometry.Height` | ko.lazyload.js:128-129 | the viewport height is `innerHeight`, or the document's client height when `innerHeight` is 0 |
| `Geometry.Width` | ko.lazyload.js:130 | the viewport width is `innerWidth`, or the document's client width when `innerWidth` is 0 |
| `Geometry.IsInViewport` | ko.lazyload.js:123-132 | for a box of positive size and a non-empty viewport extended by the threshold, the edge test holds exactly when the box and the extended viewport share a pixel |
| `Geometry.ThresholdMonotone` | ko.lazyload.js:123-132 | raising the threshold never turns an in-view result into not-in-view |
| `Geometry.ThresholdShiftsTopOnly` | ko.lazyload.js:126-130 | once bottom > 0, right > 0 and left < width hold, the element is in view exactly when threshold > top - height |
| `Geometry.OutsideSidewaysForAnyThreshold` | ko.lazyload.js:126-130 | an element that fails the bottom, right or left test is out of view for every threshold |
| `Geometry.FortyBelowTheFold` | ko.lazyload.js:123-132 | with an 800px window, a top 40px below the fold is in view with threshold 50 and out of view with threshold 0 |
| `EventBus.AddHandler` | ko.lazyload.js:31-34 | one push appends `h` to the (key, event) list, creating the list and the key's entry when missing; every other event of the key and every other key are unchanged |
| `EventBus.AppendAll` | ko.lazyload.js:30-35 | the key's entry exists afterwards exactly when it did before or at least one name was pushed |
| `EventBus.Register` | ko.lazyload.js:22-29 | a handler that is not a function leaves the registry exactly as it was, without even an empty entry for the key; the key's entry exists afterwards exactly when it did before or the handler is a function |
| `EventBus.AppendAllLookup` | ko.lazyload.js:30-35 | after pushing `h` for each name, each (key, e) list is the old list plus one `h` per occurrence of `e`, and other keys' lists are unchanged |
| `EventBus.AppendAllFrame` | ko.lazyload.js:30-35 | pushing under one key leaves every other key's presence and whole entry unchanged |
| `EventBus.RegisterLookup` | ko.lazyload.js:22-36 | after `on(key, events, f)` the (key, e) list is the old list, then one `f` per occurrence of `e` among the space-separated names; a name repeated twice registers twice; all other lists are unchanged |
| `EventBus.RegisterFrame` | ko.lazyload.js:27-35 | `on` with a function creates the key's entry and leaves every other key's entry exactly as it was |
| `EventBus.Invocations` | ko.lazyload.js:99-101 | one invocation per listed callback, in list order, each with the same forwarded arguments |
| `EventBus.InvocationsAppend` | ko.lazyload.js:99-101 | calling the callbacks of two lists one after the other is calling those of the joined list |
| `EventBus.EmitSpec` | ko.lazyload.js:64-91 | an undefined key calls nothing and logs nothing; any other non-string key calls nothing and logs the id diagnostic; a string key with events that are neither a string nor an array calls nothing and logs the event diagnostic; callbacks run only when no diagnostic is logged |
| `EventBus.Dispatch` | ko.lazyload.js:93-103 | every invocation of a dispatch carries exactly the forwarded arguments |
| `EventBus.DispatchCallsRegistered` | ko.lazyload.js:93-101 | every callback a dispatch calls is registered for the key under one of the dispatched names |
| `EventBus.DispatchSingle` | ko.lazyload.js:93-101 | dispatching a single name calls exactly that name's callbacks, in registration order |
| `EventBus.DispatchConcat` | ko.lazyload.js:91-103 | event names are processed strictly in the given order: dispatching `a + b` is dispatching `a`, then `b` |
| `EventBus.DispatchUnregistered` | ko.lazyload.js:94 | names with no registered callbacks are skipped and call nothing |
| `EventBus.EmitTwoEvents` | ko.lazyload.js:89-103 | `emit(id, "a b", x)` calls the callbacks of "a" in registration order, then those of "b", each with argument `x`, and logs nothing |
| `EventBus.EmitStringAsArray` | ko.lazyload.js:80-91 | a string of event names dispatches exactly like the array of its space-separated pieces |
| `EventBus.RegisterThenEmit` | ko.lazyload.js:93-101 | emitting an event after registering a function for it makes the earlier calls, then one call of the new function with the same arguments |
| `EventBus.RegistrationOrder` | ko.lazyload.js:30-35 | callbacks A then B registered for the same (id, event) are called after the earlier ones, A immediately before B |
| `LazyLoad.ThresholdOf` | ko.lazyload.js:150 | the threshold is the configured value, or 0 when none is configured |
| `LazyLoad.LoadingSrc` | ko.lazyload.js:180-182 | the placeholder is `loadingSrc` when it is a non-empty string, otherwise the built-in 1x1 GIF data URI |
| `LazyLoad.Activate` | ko.lazyload.js:154-156 | after activation `kolazy` is set, `update` skips the element, `src` and `srcset` hold the configured values, and every other attribute and field is unchanged |
| `LazyLoad.Skips` | ko.lazyload.js:231-235 | the guard of `update`: hidden, `visibility: hidden`, or already activated (`Activate` ensures an activated element always satisfies it) |
| `LazyLoad.ImageStep` | ko.lazyload.js:149-159 | `updateImage` never throws or logs, and when the element is out of view nothing changes and nothing is called |
| `LazyLoad.UpdateSpec` | ko.lazyload.js:231-248 | a hidden, `visibility: hidden` or already-activated element is left unchanged with nothing called; an error is thrown exactly when the element is eligible and its lower-cased tag has no handler, and then nothing changes |
| `LazyLoad.RegisterAll` | ko.lazyload.js:193-195 | after registering the `on` entries, the id's entry exists exactly when it did before or some entry's value is a function |
| `LazyLoad.RegisterAllLookup` | ko.lazyload.js:193-195 | after `init` registers its `on` entries under `id`, each (id, e) list is the old list followed by the entries' functions for `e` in `Object.keys` order; lists of other ids are unchanged |
| `LazyLoad.RegisterAllIgnoresNonFunctions` | ko.lazyload.js:193-195 | `on` entries whose values are not functions leave the registry exactly as it was |
| `LazyLoad.RegisterAllFrame` | ko.lazyload.js:193-195 | registering under one id leaves every other id's entry exactly as it was |
| `LazyLoad.UpdateAfterActivation` | ko.lazyload.js:231-237 | once `kolazy` is set, `update` rewrites no attribute, emits no second "load" and throws nothing |
| `LazyLoad.UpdateIdempotent` | ko.lazyload.js:231-248 | a second check with the same options and viewport leaves the element as the first left it and calls and logs nothing |
| `LazyLoad.ActivationEmitsLoadOnce` | ko.lazyload.js:153-159 | an eligible image in view with an id gets `src` and `srcset` set to the configured values (an unset one recorded as `None`) and `kolazy` set, with nothing else changed; every "load" callback of its id is called exactly once, in registration order, with the element as its one argument |
| `LazyLoad.ActivationWithoutIdIsSilent` | ko.lazyload.js:153-158 | an eligible image in view without an id is activated exactly as `Activate` describes (`src`, `srcset`, `kolazy`, nothing else), but "load" reaches no callback, nothing is logged and nothing is thrown |
| `LazyLoad.UnknownTagThrows` | ko.lazyload.js:243-248 | an eligible element whose tag has no handler throws `No lazy handler defined for "<tag>"` with the lower-cased tag, and is left untouched |
| `LazyLoad.InitCallbacksRunOnLoad` | ko.lazyload.js:185-196 | the "load" callbacks registered by `init` are the ones activation calls, after those registered earlier for the same id |
| `LazyLoad.FortyBelowTheFoldActivates` | ko.lazyload.js:149-159 | `<img id="a">` with `src: 'x.png', threshold: 50`, 40px below the fold of an 800px window, gets `src` "x.png" and `kolazy`, and its "load" callbacks for "a" are called |
| `LazyLoad.CopyArguments` | ko.lazyload.js:52-57 | copying `arguments` from the last index down yields the same sequence |
| `LazyLoad.Snapshot` | ko.lazyload.js:95-98 | the copy of the listener list taken before any callback runs equals the list |
| `LazyLoad.CallEach` | ko.lazyload.js:99-101 | the calls on the copied list are one invocation per callback, in order |
| `LazyLoad.Element.constructor` | ko.lazyload.js:229-234 | a newly bound element has the given tag, id, visibility, rectangle and attributes, and is not yet marked `kolazy` |
| `LazyLoad.KoLazyLoad.constructor` | ko.lazyload.js:3-14 | a new engine has an empty registry, the handler table `{img: updateImage}`, `updatebit` true and nothing subscribed, invoked or logged |
| `LazyLoad.KoLazyLoad.On` | ko.lazyload.js:22-36 | the new registry is `Register(old registry, key, events, handler)` |
| `LazyLoad.KoLazyLoad.Emit` | ko.lazyload.js:46-91 | the invocations and debug lines are exactly those of `EmitSpec` on the current registry and the full argument list |
| `LazyLoad.KoLazyLoad.DispatchAll` | ko.lazyload.js:91-103 | for each name in order, the snapshot of its callbacks is called; the result is `Dispatch` of the registry |
| `LazyLoad.KoLazyLoad.FlagForLoadCheck` | ko.lazyload.js:109-111 | `updatebit` is negated |
| `LazyLoad.KoLazyLoad.UpdateImage` | ko.lazyload.js:142-160 | the element becomes `ImageStep`'s state; its calls are appended to the trace and its debug lines to the log |
| `LazyLoad.KoLazyLoad.Update` | ko.lazyload.js:222-249 | the element, error, trace and log follow `UpdateSpec`; an activated element is untouched; the trace only grows; an error means the tag has no handler |
| `LazyLoad.KoLazyLoad.Init` | ko.lazyload.js:170-210 | with `on` and no truthy id, only the diagnostic is logged. Otherwise `src` becomes the placeholder and nothing else on the element changes; the `on` entries are registered under the id; the binding is subscribed last; `updatebit` is toggled once |
| `LazyLoad.KoLazyLoad.Tick` | ko.lazyload.js:202-206 | running the subscribed closures in order leaves every already-activated subscribed element untouched and only extends the trace; without an error, `updatebit` ends toggled once per subscriber; an error means some subscribed element's tag has no handler |

## Left out

- The throttle on `updatebit` (ko.lazyload.js:6) is timer-driven behaviour of
  Knockout: its 50 ms delay and the coalescing of bursts. The same goes for
  `subscribe` notifications, reactive-library behaviour that is left out too.
  `Tick` stands for one delivered notification. Toggling the flag in `Init`
  or in a closure does not itself schedule another tick.
- Each toggle is an immediate negation, so the parity clause of `Tick`
  (`updatebit` flipped once per subscriber) describes only the model. In
  the source, every closure's `flagForLoadCheck` goes through the throttled
  write of ko.lazyload.js:6. Each such write still reads the old value, so
  the closures of one notification amount to one flip, and that flip
  schedules the next notification.
- `ko.unwrap(valueAccessor())`: the options arrive already unwrapped, as
  `Config`.
- The scroll and resize listeners on `window` (ko.lazyload.js:114-115) and the
  registration `ko.bindingHandlers.lazyload` (ko.lazyload.js:258) are I/O and
  wiring.
- jQuery and the DOM are foreign library calls, so the model uses element
  fields in their place: `:hidden`, the computed `visibility`,
  `getBoundingClientRect` and `.attr`. jQuery's `.data("kolazy")` also
  reads a `data-kolazy` HTML attribute; that is not modelled.
- What `.attr(name, undefined)` does inside jQuery is not modelled. The
  source passes the options' `src` and `srcset` to `.attr` even when they
  are unset (ko.lazyload.js:154-155). jQuery's setter ignores `undefined`,
  so the real element keeps its old `srcset`, and without a configured
  `src` it keeps the placeholder `src` too. `Activate` departs from that: it
  sets both attributes to `None`.
- Callback bodies are opaque tokens. They cannot re-enter `on` or `emit`, so
  the snapshot at ko.lazyload.js:95-98 is modelled as the copy it makes. The
  model does not show it guarding against registrations made during a
  dispatch. The call context `this` is not recorded.
- Fractional coordinates, NaN and undefined are left out. Coordinates,
  sizes and thresholds are integers, and a window size is falsy only
  when it is 0.
- The `if (!eventsListeners)` test at ko.lazyload.js:47 can never succeed, so
  it is not modelled.
- Array arguments to `emit` hold strings only. JavaScript turns a non-string
  item into a property key; that conversion is not modelled.
- Listener keys and event names that collide with `Object.prototype`
  properties, such as "constructor" or "__proto__", are taken as ordinary
  keys.
- `toLowerCase` lower-cases only the ASCII letters.
- The `on` entries are given in the order `Object.keys` returns them.
  JavaScript's rule that integer-like keys come first is not modelled.
- The threshold is an integer. A string threshold, which JavaScript coerces
  in the subtraction, is not modelled.
- The `handlers` table maps tags only to the built-in image handler. A host
  may add entries to it, but only entries mapping to that handler are
  modelled. `update` returns the handler's result through `apply`, which is
  undefined for `updateImage`; that return value is not modelled.
- LazyLoad.KoLazyLoad.Tick: for a tick that activates elements, the contract
  does not say which elements end up activated. The same element may be
  subscribed more than once, and only the preserved invariants stated
  above are proved.
