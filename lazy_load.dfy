/** The activation engine `KoLazyLoad`: the element set-up `init`, the guard
    and tag dispatcher `update`, the image handler `updateImage`, the
    listener registry written by `on` and read by `emit`, and the toggle
    `flagForLoadCheck` whose changes re-run every bound element's check. */
module LazyLoad {
  import opened Js
  import opened Geometry
  import opened EventBus

  /** The 1x1 transparent image shown until an element is activated. */
  const LoadingPlaceholder := "data:image/gif;base64,R0lGODlhAQABAGAAACH5BAEKAP8ALAAAAAABAAEAAAgEAP8FBAA7"

  const MissingIdDiag := "[DEBUG]: Failed to register the callback function. If you want to use a callback function, please specify the id attribute."

  /** The binding's options. `on` lists the entries of the callback object in
      the order `Object.keys` gives them; any object is truthy, so an empty
      object is `Some([])`. */
  datatype Config = Config(
    src: Option<string>,
    srcset: Option<string>,
    threshold: Option<int>,
    loadingSrc: Option<string>,
    on: Option<seq<(string, JsValue)>>)

  /** The activation functions a tag can be mapped to. */
  datatype Handler = ImageHandler

  /** A DOM element as the engine sees it. An attribute mapped to `None` was
      written with the value `undefined`. */
  datatype ElementState = ElementState(
    handle: nat,
    tag: string,
    id: Option<string>,
    hidden: bool,
    visibilityHidden: bool,
    rect: Rect,
    attrs: map<string, Option<string>>,
    kolazy: bool)

  /** What one check of one element does: the element afterwards, the
      callbacks called, the debug lines logged and the error thrown, if any. */
  datatype Step = Step(state: ElementState, calls: seq<Invocation>, diags: seq<string>, error: Option<string>)

  /** `attrs["threshold"] || 0` */
  function ThresholdOf(cfg: Config): (t: int)
    ensures cfg.threshold.Some? ==> t == cfg.threshold.value
    ensures cfg.threshold.None? ==> t == 0
  {
    if cfg.threshold.Some? then cfg.threshold.value else 0
  }

  /** `attrs["loadingSrc"] || placeholder`: an absent or empty value is falsy. */
  function LoadingSrc(cfg: Config): (s: string)
    ensures cfg.loadingSrc.Some? && cfg.loadingSrc.value != "" ==> s == cfg.loadingSrc.value
    ensures cfg.loadingSrc.None? || cfg.loadingSrc.value == "" ==> s == LoadingPlaceholder
  {
    if cfg.loadingSrc.Some? && cfg.loadingSrc.value != "" then cfg.loadingSrc.value else LoadingPlaceholder
  }

  /** `$(element).attr("id")` is truthy. */
  predicate HasId(id: Option<string>)
  {
    id.Some? && id.value != ""
  }

  /** `$(element).attr("id")` as a JavaScript value. */
  function IdArg(id: Option<string>): JsValue
  {
    if id.Some? then Str(id.value) else Undefined
  }

  /** The one-shot activation: `src` and `srcset` written from the options
      and the `kolazy` marker set. An unset option is passed to `.attr` as
      `undefined`, recorded here as `None`. Every other attribute and field
      stays as it was, and `update` skips the element from then on. */
  function Activate(st: ElementState, cfg: Config): (r: ElementState)
    ensures r.kolazy && Skips(r)
    ensures "src" in r.attrs && r.attrs["src"] == cfg.src
    ensures "srcset" in r.attrs && r.attrs["srcset"] == cfg.srcset
    ensures forall a :: a != "src" && a != "srcset" ==>
              (a in r.attrs <==> a in st.attrs) && (a in st.attrs ==> r.attrs[a] == st.attrs[a])
    ensures r.(attrs := st.attrs, kolazy := st.kolazy) == st
  {
    st.(attrs := st.attrs["src" := cfg.src]["srcset" := cfg.srcset], kolazy := true)
  }

  /** `updateImage`: activate the element and emit "load" for its id, with the
      element as the one argument, once it is in view; otherwise do nothing. */
  function ImageStep(st: ElementState, cfg: Config, vp: Viewport, reg: Registry): (r: Step)
    ensures r.error == None && r.diags == []
    ensures !IsInViewport(st.rect, vp, ThresholdOf(cfg)) ==> r == Step(st, [], [], None)
  {
    if IsInViewport(st.rect, vp, ThresholdOf(cfg)) then
      var out := EmitSpec(reg, [IdArg(st.id), Str("load"), Node(st.handle)]);
      Step(Activate(st, cfg), out.calls, out.diags, None)
    else
      Step(st, [], [], None)
  }

  /** The guard of `update`: hidden, `visibility: hidden` or already active. */
  predicate Skips(st: ElementState)
  {
    st.hidden || st.visibilityHidden || st.kolazy
  }

  function NoHandlerMessage(name: string): string
  {
    "No lazy handler defined for \"" + name + "\""
  }

  /** `update`: skip a guarded element; otherwise run the handler of the
      lower-cased tag, or throw when there is none. */
  function UpdateSpec(st: ElementState, cfg: Config, vp: Viewport, reg: Registry, handlers: map<string, Handler>): (r: Step)
    ensures Skips(st) ==> r == Step(st, [], [], None)
    ensures r.error.Some? <==> !Skips(st) && ToLower(st.tag) !in handlers
    ensures r.error.Some? ==> r.state == st && r.calls == [] && r.diags == []
  {
    if Skips(st) then Step(st, [], [], None)
    else
      var name := ToLower(st.tag);
      if name in handlers then
        match handlers[name]
        case ImageHandler => ImageStep(st, cfg, vp, reg)
      else
        Step(st, [], [], Some(NoHandlerMessage(name)))
  }

  /** The `on` entries of `init`, registered one after the other under `id`.
      The id's entry exists afterwards exactly when it existed before or some
      entry's value is a function. */
  function RegisterAll(reg: Registry, id: string, entries: seq<(string, JsValue)>): (r: Registry)
    ensures id in r <==> id in reg || exists i :: 0 <= i < |entries| && entries[i].1.Fn?
    decreases |entries|
  {
    if entries == [] then reg
    else
      assert forall i :: 1 <= i < |entries| ==> entries[i] == entries[1..][i - 1];
      RegisterAll(Register(reg, id, entries[0].0, entries[0].1), id, entries[1..])
  }

  /** The callbacks that the `on` entries add for event `e`, in order. */
  function CallbacksFor(entries: seq<(string, JsValue)>, e: string): seq<CallbackId>
    decreases |entries|
  {
    if entries == [] then []
    else
      var (names, handler) := entries[0];
      (if handler.Fn? then Repeat(handler.callback, Count(Split(names, ' '), e)) else [])
      + CallbacksFor(entries[1..], e)
  }

  /** After `init` registers its entries, the (id, e) list is the old list
      followed by the entries' function values for `e`, in entry order; no
      other key's lists change. */
  lemma {:induction false} RegisterAllLookup(reg: Registry, id: string, entries: seq<(string, JsValue)>, k: string, e: string)
    ensures Lookup(RegisterAll(reg, id, entries), k, e)
         == Lookup(reg, k, e) + (if k == id then CallbacksFor(entries, e) else [])
    decreases |entries|
  {
    if entries != [] {
      var next := Register(reg, id, entries[0].0, entries[0].1);
      RegisterLookup(reg, id, entries[0].0, entries[0].1, k, e);
      RegisterAllLookup(next, id, entries[1..], k, e);
    }
  }

  /** Entries whose values are not functions register nothing, and do not
      even create an entry for the id. */
  lemma {:induction false} RegisterAllIgnoresNonFunctions(reg: Registry, id: string, entries: seq<(string, JsValue)>)
    requires forall i :: 0 <= i < |entries| ==> !entries[i].1.Fn?
    ensures RegisterAll(reg, id, entries) == reg
    decreases |entries|
  {
    if entries != [] {
      RegisterAllIgnoresNonFunctions(reg, id, entries[1..]);
    }
  }

  /** Registration under one id leaves every other id's entry as it was. */
  lemma {:induction false} RegisterAllFrame(reg: Registry, id: string, entries: seq<(string, JsValue)>, k: string)
    requires k != id
    ensures k in RegisterAll(reg, id, entries) <==> k in reg
    ensures k in reg ==> RegisterAll(reg, id, entries)[k] == reg[k]
    decreases |entries|
  {
    if entries != [] {
      RegisterFrame(reg, id, entries[0].0, entries[0].1);
      RegisterAllFrame(Register(reg, id, entries[0].0, entries[0].1), id, entries[1..], k);
    }
  }

  /** An element that `update` skips is left exactly as it was, with no
      callback called: a second check after activation rewrites nothing and
      emits no second "load". */
  lemma UpdateAfterActivation(st: ElementState, cfg: Config, vp: Viewport, reg: Registry, handlers: map<string, Handler>)
    requires st.kolazy
    ensures UpdateSpec(st, cfg, vp, reg, handlers) == Step(st, [], [], None)
  {
  }

  /** Checking an element twice with the same options and viewport changes
      it no more than checking it once, and the second check calls nothing. */
  lemma UpdateIdempotent(st: ElementState, cfg: Config, vp: Viewport, reg: Registry, handlers: map<string, Handler>)
    ensures var first := UpdateSpec(st, cfg, vp, reg, handlers);
            var second := UpdateSpec(first.state, cfg, vp, reg, handlers);
            second.state == first.state && second.calls == [] && second.diags == []
  {
  }

  /** An eligible image in view with an id is activated: `src` and `srcset`
      are copied, the marker is set, nothing else changes, and every "load"
      callback of its id is called exactly once, in registration order, with
      the element as argument. */
  lemma ActivationEmitsLoadOnce(st: ElementState, cfg: Config, vp: Viewport, reg: Registry, handlers: map<string, Handler>)
    requires !Skips(st) && ToLower(st.tag) in handlers && handlers[ToLower(st.tag)] == ImageHandler
    requires IsInViewport(st.rect, vp, ThresholdOf(cfg))
    requires st.id.Some?
    ensures var r := UpdateSpec(st, cfg, vp, reg, handlers);
            && r.state == st.(attrs := st.attrs["src" := cfg.src]["srcset" := cfg.srcset], kolazy := true)
            && r.calls == Invocations(Lookup(reg, st.id.value, "load"), [Node(st.handle)])
            && r.diags == [] && r.error == None
  {
    SplitWithoutSeparator("load", ' ');
    var args := [IdArg(st.id), Str("load"), Node(st.handle)];
    assert args[2..] == [Node(st.handle)];
    var calls := Invocations(Lookup(reg, st.id.value, "load"), [Node(st.handle)]);
    DispatchSingle(reg, st.id.value, "load", [Node(st.handle)]);
    assert EmitSpec(reg, args) == EmitOutcome(calls, []);
    assert UpdateSpec(st, cfg, vp, reg, handlers) == ImageStep(st, cfg, vp, reg);
    assert ImageStep(st, cfg, vp, reg) == Step(Activate(st, cfg), calls, [], None);
  }

  /** Without an id the element is still activated, but "load" reaches no
      callback and nothing is logged. */
  lemma ActivationWithoutIdIsSilent(st: ElementState, cfg: Config, vp: Viewport, reg: Registry, handlers: map<string, Handler>)
    requires !Skips(st) && ToLower(st.tag) in handlers && handlers[ToLower(st.tag)] == ImageHandler
    requires IsInViewport(st.rect, vp, ThresholdOf(cfg))
    requires st.id.None?
    ensures UpdateSpec(st, cfg, vp, reg, handlers) == Step(Activate(st, cfg), [], [], None)
  {
  }

  /** An eligible element whose tag has no handler throws an error naming the
      lower-cased tag and is left untouched. */
  lemma UnknownTagThrows(st: ElementState, cfg: Config, vp: Viewport, reg: Registry, handlers: map<string, Handler>)
    requires !Skips(st) && ToLower(st.tag) !in handlers
    ensures UpdateSpec(st, cfg, vp, reg, handlers)
         == Step(st, [], [], Some("No lazy handler defined for \"" + ToLower(st.tag) + "\""))
  {
  }

  /** The callbacks `init` registers for "load" are exactly the ones the
      element's activation calls, after any registered earlier for its id. */
  lemma InitCallbacksRunOnLoad(st: ElementState, cfg: Config, vp: Viewport, reg: Registry, handlers: map<string, Handler>)
    requires cfg.on.Some? && HasId(st.id)
    requires !Skips(st) && ToLower(st.tag) in handlers && handlers[ToLower(st.tag)] == ImageHandler
    requires IsInViewport(st.rect, vp, ThresholdOf(cfg))
    ensures UpdateSpec(st, cfg, vp, RegisterAll(reg, st.id.value, cfg.on.value), handlers).calls
         == Invocations(Lookup(reg, st.id.value, "load"), [Node(st.handle)])
            + Invocations(CallbacksFor(cfg.on.value, "load"), [Node(st.handle)])
  {
    var reg' := RegisterAll(reg, st.id.value, cfg.on.value);
    ActivationEmitsLoadOnce(st, cfg, vp, reg', handlers);
    RegisterAllLookup(reg, st.id.value, cfg.on.value, st.id.value, "load");
    InvocationsAppend(Lookup(reg, st.id.value, "load"), CallbacksFor(cfg.on.value, "load"), [Node(st.handle)]);
  }

  /** `<img id="a">` with `src: 'x.png', threshold: 50`, its top 40 pixels
      below the fold of an 800 pixel window: activated, "load" emitted for "a". */
  lemma FortyBelowTheFoldActivates(reg: Registry, attrs: map<string, Option<string>>)
    ensures var st := ElementState(0, "IMG", Some("a"), false, false, Rect(840, 100, 940, 0), attrs, false);
            var cfg := Config(Some("x.png"), None, Some(50), None, None);
            var r := UpdateSpec(st, cfg, Viewport(1024, 800, 1024, 800), reg, map["img" := ImageHandler]);
            "src" in r.state.attrs && r.state.attrs["src"] == Some("x.png") && r.state.kolazy
            && r.calls == Invocations(Lookup(reg, "a", "load"), [Node(0)])
  {
    var st := ElementState(0, "IMG", Some("a"), false, false, Rect(840, 100, 940, 0), attrs, false);
    var cfg := Config(Some("x.png"), None, Some(50), None, None);
    ToLowerImg();
    ActivationEmitsLoadOnce(st, cfg, Viewport(1024, 800, 1024, 800), reg, map["img" := ImageHandler]);
  }

  /** `while (len--) args[len] = arguments[len]`: the copy of a call's
      arguments, from the last index down. */
  method CopyArguments(arguments: seq<JsValue>) returns (args: seq<JsValue>)
    ensures args == arguments
  {
    args := seq(|arguments|, _ => Undefined);
    var len := |arguments|;
    while len > 0
      invariant 0 <= len <= |arguments| && |args| == |arguments|
      invariant args[len..] == arguments[len..]
    {
      len := len - 1;
      args := args[len := arguments[len]];
    }
    assert args == args[0..] && arguments == arguments[0..];
  }

  /** The copy of a listener list taken before any of its callbacks runs. */
  method Snapshot(registered: seq<CallbackId>) returns (snapshot: seq<CallbackId>)
    ensures snapshot == registered
  {
    snapshot := [];
    var j := 0;
    while j < |registered|
      invariant 0 <= j <= |registered|
      invariant snapshot == registered[..j]
    {
      snapshot := snapshot + [registered[j]];
      j := j + 1;
    }
    assert registered[..j] == registered;
  }

  /** `handlers.forEach(h => h.apply(context, data))` */
  method CallEach(handlers: seq<CallbackId>, data: seq<JsValue>) returns (calls: seq<Invocation>)
    ensures calls == Invocations(handlers, data)
  {
    calls := [];
    var k := 0;
    while k < |handlers|
      invariant 0 <= k <= |handlers|
      invariant calls == Invocations(handlers[..k], data)
    {
      assert handlers[..k + 1] == handlers[..k] + [handlers[k]];
      InvocationsAppend(handlers[..k], [handlers[k]], data);
      calls := calls + [Invocation(handlers[k], data)];
      k := k + 1;
    }
    assert handlers[..k] == handlers;
  }

  /** A DOM element bound to the engine. Its tag and id are fixed; the
      environment may change its visibility and geometry between checks. */
  class Element {
    const handle: nat
    const tag: string
    const id: Option<string>
    var hidden: bool
    var visibilityHidden: bool
    var rect: Rect
    var attrs: map<string, Option<string>>
    var kolazy: bool

    constructor (handle: nat, tag: string, id: Option<string>, hidden: bool, visibilityHidden: bool,
                 rect: Rect, attrs: map<string, Option<string>>)
      ensures State() == ElementState(handle, tag, id, hidden, visibilityHidden, rect, attrs, false)
    {
      this.handle := handle;
      this.tag := tag;
      this.id := id;
      this.hidden := hidden;
      this.visibilityHidden := visibilityHidden;
      this.rect := rect;
      this.attrs := attrs;
      this.kolazy := false;
    }

    function State(): ElementState
      reads this
    {
      ElementState(handle, tag, id, hidden, visibilityHidden, rect, attrs, kolazy)
    }
  }

  /** A subscription made by `init`: the element and its options, which the
      closure passes back to `update`. */
  datatype Binding = Binding(element: Element, config: Config)

  class KoLazyLoad {
    /** `eventsListeners` */
    var listeners: Registry
    /** `handlers`, exposed to the host, which may add entries */
    var handlers: map<string, Handler>
    /** the value of the `updatebit` observable */
    var updatebit: bool
    /** the closures subscribed to `updatebit`, in subscription order */
    var subscribers: seq<Binding>
    /** every callback invocation made so far, in order */
    var trace: seq<Invocation>
    /** the debug console */
    var log: seq<string>

    ghost function SubscribedElements(): set<Element>
      reads this
    {
      set b | b in subscribers :: b.element
    }

    constructor ()
      ensures listeners == map[] && handlers == map["img" := ImageHandler]
      ensures updatebit && subscribers == [] && trace == [] && log == []
    {
      listeners := map[];
      handlers := map["img" := ImageHandler];
      updatebit := true;
      subscribers := [];
      trace := [];
      log := [];
    }

    /** `on(key, events, handler)` */
    method On(key: string, events: string, handler: JsValue)
      modifies this`listeners
      ensures listeners == Register(old(listeners), key, events, handler)
    {
      if !handler.Fn? {
        return;
      }
      if key !in listeners {
        listeners := listeners[key := map[]];
      }
      var names := Split(events, ' ');
      ghost var target := AppendAll(listeners, key, names, handler.callback);
      var i := 0;
      while i < |names|
        invariant 0 <= i <= |names|
        invariant key in listeners
        invariant AppendAll(listeners, key, names[i..], handler.callback) == target
      {
        var event := names[i];
        var forKey := listeners[key];
        var list := if event in forKey then forKey[event] else [];
        assert names[i..][0] == event && names[i..][1..] == names[i + 1..];
        listeners := listeners[key := forKey[event := list + [handler.callback]]];
        i := i + 1;
      }
      assert names[i..] == [];
    }

    /** `emit(key, events, ...data)`: the invocations it makes and the debug
      lines it logs. Callbacks are opaque here, so they cannot re-enter the
      registry; the list is still copied before the first call, as the
      source does. */
    method Emit(arguments: seq<JsValue>) returns (calls: seq<Invocation>, diags: seq<string>)
      ensures EmitOutcome(calls, diags) == EmitSpec(listeners, arguments)
    {
      var args := CopyArguments(arguments);
      calls, diags := [], [];
      var first := Arg(args, 0);
      if first == Undefined {
        return;
      } else if !first.Str? {
        diags := [BadKeyDiag];
        return;
      }
      var key := first.s;
      var events := Arg(args, 1);
      if !(events.Str? || events.Arr?) {
        diags := [BadEventsDiag];
        return;
      }
      var data := if |args| > 2 then args[2..] else [];
      var names := if events.Arr? then events.items else Split(events.s, ' ');

      calls := DispatchAll(key, names, data);
    }

    /** `eventsArray.forEach(...)`: for each name in turn, the callbacks
      registered for (key, name), copied and then called; names with no
      callbacks are skipped. */
    method DispatchAll(key: string, names: seq<string>, data: seq<JsValue>) returns (calls: seq<Invocation>)
      ensures calls == Dispatch(listeners, key, names, data)
    {
      var reg := listeners;
      calls := [];
      var i := 0;
      while i < |names|
        invariant 0 <= i <= |names|
        invariant calls == Dispatch(reg, key, names[..i], data)
      {
        var event := names[i];
        assert names[..i + 1] == names[..i] + [event];
        DispatchConcat(reg, key, names[..i], [event], data);
        assert Dispatch(reg, key, [event], data) == Invocations(Lookup(reg, key, event), data);
        if key in reg && event in reg[key] {
          var snapshot := Snapshot(reg[key][event]);
          var pass := CallEach(snapshot, data);
          calls := calls + pass;
        } else {
          assert Lookup(reg, key, event) == [];
        }
        i := i + 1;
      }
      assert names[..i] == names;
    }

    /** `flagForLoadCheck()` */
    method FlagForLoadCheck()
      modifies this`updatebit
      ensures updatebit == !old(updatebit)
    {
      updatebit := !updatebit;
    }

    /** `updateImage(element, valueAccessor)` */
    method UpdateImage(e: Element, cfg: Config, vp: Viewport)
      modifies e, this`trace, this`log
      ensures var step := ImageStep(old(e.State()), cfg, vp, listeners);
              e.State() == step.state && trace == old(trace) + step.calls && log == old(log) + step.diags
    {
      var threshold := ThresholdOf(cfg);
      if IsInViewport(e.rect, vp, threshold) {
        e.attrs := e.attrs["src" := cfg.src];
        e.attrs := e.attrs["srcset" := cfg.srcset];
        e.kolazy := true;
        var calls, diags := Emit([IdArg(e.id), Str("load"), Node(e.handle)]);
        trace := trace + calls;
        log := log + diags;
      }
    }

    /** `update(element, valueAccessor)`; an error result is the thrown Error. */
    method Update(e: Element, cfg: Config, vp: Viewport) returns (error: Option<string>)
      modifies e, this`trace, this`log
      ensures var step := UpdateSpec(old(e.State()), cfg, vp, listeners, handlers);
              && e.State() == step.state && error == step.error
              && trace == old(trace) + step.calls && log == old(log) + step.diags
      ensures old(e.kolazy) ==> e.State() == old(e.State())
      ensures old(trace) <= trace
      ensures error.Some? ==> ToLower(e.tag) !in handlers
    {
      if e.hidden || e.visibilityHidden || e.kolazy {
        return None;
      }
      var name := ToLower(e.tag);
      if name in handlers {
        match handlers[name]
        case ImageHandler =>
          UpdateImage(e, cfg, vp);
        error := None;
      } else {
        error := Some(NoHandlerMessage(name));
      }
    }

    /** `init(element, valueAccessor)` */
    method Init(e: Element, cfg: Config)
      modifies e, this`listeners, this`subscribers, this`updatebit, this`log
      ensures cfg.on.Some? && !HasId(e.id) ==>
                && e.State() == old(e.State()) && listeners == old(listeners)
                && subscribers == old(subscribers) && updatebit == old(updatebit)
                && log == old(log) + [MissingIdDiag]
      ensures !(cfg.on.Some? && !HasId(e.id)) ==>
                && e.State() == old(e.State()).(attrs := old(e.attrs)["src" := Some(LoadingSrc(cfg))])
                && listeners == (if cfg.on.Some? then RegisterAll(old(listeners), e.id.value, cfg.on.value)
                                 else old(listeners))
                && subscribers == old(subscribers) + [Binding(e, cfg)]
                && updatebit == !old(updatebit)
                && log == old(log)
    {
      var loadingSrc := LoadingSrc(cfg);
      if cfg.on.Some? {
        if !HasId(e.id) {
          log := log + [MissingIdDiag];
          return;
        }
        var id := e.id.value;
        var entries := cfg.on.value;
        ghost var target := RegisterAll(listeners, id, entries);
        var i := 0;
        while i < |entries|
          invariant 0 <= i <= |entries|
          invariant RegisterAll(listeners, id, entries[i..]) == target
          invariant e.State() == old(e.State()) && log == old(log)
          invariant subscribers == old(subscribers) && updatebit == old(updatebit)
        {
          assert entries[i..][0] == entries[i] && entries[i..][1..] == entries[i + 1..];
          On(id, entries[i].0, entries[i].1);
          i := i + 1;
        }
        assert entries[i..] == [];
      }
      e.attrs := e.attrs["src" := Some(loadingSrc)];
      subscribers := subscribers + [Binding(e, cfg)];
      FlagForLoadCheck();
    }

    /** One notification of `updatebit`: each subscribed closure, in
      subscription order, runs `update` on its element and then toggles the
      flag again; an error thrown by `update` ends the notification. */
    method Tick(vp: Viewport) returns (error: Option<string>)
      modifies this`trace, this`log, this`updatebit, SubscribedElements()
      ensures forall b :: b in subscribers && old(b.element.kolazy) ==> b.element.State() == old(b.element.State())
      ensures old(trace) <= trace
      ensures error.None? ==> updatebit == (old(updatebit) != (|subscribers| % 2 == 1))
      ensures error.Some? ==> exists b :: b in subscribers && ToLower(b.element.tag) !in handlers
    {
      error := None;
      var i := 0;
      while i < |subscribers|
        invariant 0 <= i <= |subscribers|
        invariant forall b :: b in subscribers && old(b.element.kolazy) ==> b.element.State() == old(b.element.State())
        invariant old(trace) <= trace
        invariant updatebit == (old(updatebit) != (i % 2 == 1))
        invariant error.None?
      {
        var b := subscribers[i];
        error := Update(b.element, b.config, vp);
        if error.Some? {
          assert b in subscribers && ToLower(b.element.tag) !in handlers;
          return;
        }
        FlagForLoadCheck();
        i := i + 1;
      }
    }
  }
}
