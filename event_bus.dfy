/** The listener registry behind `on` and `emit`, as values: which callbacks a
    registration leaves under each (key, event) pair, and which invocations,
    in which order, a dispatch performs. The engine's methods are proved
    against these functions. */
module EventBus {
  import opened Js

  /** element id -> event name -> callbacks, in registration order */
  type Registry = map<string, map<string, seq<CallbackId>>>

  /** One call of a callback, with the arguments forwarded to it. */
  datatype Invocation = Invocation(callback: CallbackId, args: seq<JsValue>)

  /** What one `emit` does: the callbacks it calls and the debug lines it logs. */
  datatype EmitOutcome = EmitOutcome(calls: seq<Invocation>, diags: seq<string>)

  const BadKeyDiag := "[DEBUG]:The id attribute is not set in the correct format. Please set it in string format."
  const BadEventsDiag := "[DEBUG]:The event is not set in the correct format. Please set it in string or array format."

  /** The callbacks registered for (key, event); none when either is absent. */
  function Lookup(reg: Registry, key: string, event: string): seq<CallbackId>
  {
    if key in reg && event in reg[key] then reg[key][event] else []
  }

  /** Push `h` onto the (key, event) list, creating the list when missing. */
  function AddHandler(reg: Registry, key: string, event: string, h: CallbackId): (r: Registry)
    ensures key in r && Lookup(r, key, event) == Lookup(reg, key, event) + [h]
    ensures forall e :: e != event ==> Lookup(r, key, e) == Lookup(reg, key, e)
    ensures forall k :: k != key ==> (k in r <==> k in reg) && (k in reg ==> r[k] == reg[k])
  {
    var forKey := if key in reg then reg[key] else map[];
    reg[key := forKey[event := Lookup(reg, key, event) + [h]]]
  }

  /** Push `h` for each name of `names`, in order. The key's entry exists
      afterwards exactly when it existed before or some name was pushed. */
  function AppendAll(reg: Registry, key: string, names: seq<string>, h: CallbackId): (r: Registry)
    ensures key in r <==> key in reg || names != []
    decreases |names|
  {
    if names == [] then reg else AppendAll(AddHandler(reg, key, names[0], h), key, names[1..], h)
  }

  /** `on(key, events, handler)`: nothing at all for a handler that is not a
      function; otherwise the key's entry is created when missing and the
      handler is pushed for every space-separated name of `events`. */
  function Register(reg: Registry, key: string, events: string, handler: JsValue): (r: Registry)
    ensures !handler.Fn? ==> r == reg
    ensures key in r <==> key in reg || handler.Fn?
  {
    if !handler.Fn? then reg
    else
      var base := if key in reg then reg else reg[key := map[]];
      AppendAll(base, key, Split(events, ' '), handler.callback)
  }

  lemma {:induction false} AppendAllLookup(reg: Registry, key: string, names: seq<string>, h: CallbackId, k: string, e: string)
    ensures Lookup(AppendAll(reg, key, names, h), k, e)
         == Lookup(reg, k, e) + (if k == key then Repeat(h, Count(names, e)) else [])
    decreases |names|
  {
    if names != [] {
      var next := AddHandler(reg, key, names[0], h);
      AppendAllLookup(next, key, names[1..], h, k, e);
      assert Lookup(next, k, e) == Lookup(reg, k, e) + (if k == key && names[0] == e then [h] else []);
    }
  }

  lemma {:induction false} AppendAllFrame(reg: Registry, key: string, names: seq<string>, h: CallbackId, k: string)
    requires k != key
    ensures k in AppendAll(reg, key, names, h) <==> k in reg
    ensures k in reg ==> AppendAll(reg, key, names, h)[k] == reg[k]
    decreases |names|
  {
    if names != [] {
      AppendAllFrame(AddHandler(reg, key, names[0], h), key, names[1..], h, k);
    }
  }

  /** After `on(key, events, h)` the list for (key, e) is the old list followed
      by one copy of `h` per occurrence of `e` among the names of `events`;
      every other list is unchanged. */
  lemma RegisterLookup(reg: Registry, key: string, events: string, handler: JsValue, k: string, e: string)
    ensures Lookup(Register(reg, key, events, handler), k, e)
         == Lookup(reg, k, e)
            + (if handler.Fn? && k == key then Repeat(handler.callback, Count(Split(events, ' '), e)) else [])
  {
    if handler.Fn? {
      var base := if key in reg then reg else reg[key := map[]];
      assert Lookup(base, k, e) == Lookup(reg, k, e);
      AppendAllLookup(base, key, Split(events, ' '), handler.callback, k, e);
    }
  }

  /** `on` creates the key's entry for a function handler and leaves every
      other key's entry exactly as it was. */
  lemma RegisterFrame(reg: Registry, key: string, events: string, handler: JsValue)
    ensures handler.Fn? ==> key in Register(reg, key, events, handler)
    ensures forall k :: k != key ==>
              (k in Register(reg, key, events, handler) <==> k in reg)
              && (k in reg ==> Register(reg, key, events, handler)[k] == reg[k])
  {
    if handler.Fn? {
      var base := if key in reg then reg else reg[key := map[]];
      forall k | k != key
        ensures (k in Register(reg, key, events, handler) <==> k in reg)
                && (k in reg ==> Register(reg, key, events, handler)[k] == reg[k])
      {
        AppendAllFrame(base, key, Split(events, ' '), handler.callback, k);
      }
    }
  }

  /** One invocation per callback, in order, each with the same arguments. */
  function Invocations(hs: seq<CallbackId>, data: seq<JsValue>): (r: seq<Invocation>)
    ensures |r| == |hs|
    ensures forall i :: 0 <= i < |hs| ==> r[i] == Invocation(hs[i], data)
  {
    if hs == [] then [] else [Invocation(hs[0], data)] + Invocations(hs[1..], data)
  }

  lemma InvocationsAppend(a: seq<CallbackId>, b: seq<CallbackId>, data: seq<JsValue>)
    ensures Invocations(a + b, data) == Invocations(a, data) + Invocations(b, data)
  {
  }

  /** The event names are taken in the given order; for each, the callbacks
      registered for (key, name) are called in registration order. */
  function Dispatch(reg: Registry, key: string, names: seq<string>, data: seq<JsValue>): (r: seq<Invocation>)
    ensures forall i :: 0 <= i < |r| ==> r[i].args == data
    decreases |names|
  {
    if names == [] then []
    else Invocations(Lookup(reg, key, names[0]), data) + Dispatch(reg, key, names[1..], data)
  }

  /** Every call a dispatch makes is of a callback registered for the key
      under one of the names. */
  lemma {:induction false} DispatchCallsRegistered(reg: Registry, key: string, names: seq<string>, data: seq<JsValue>, i: nat)
    requires i < |Dispatch(reg, key, names, data)|
    ensures exists j :: 0 <= j < |names| && Dispatch(reg, key, names, data)[i].callback in Lookup(reg, key, names[j])
    decreases |names|
  {
    var first := Invocations(Lookup(reg, key, names[0]), data);
    if i < |first| {
      assert Dispatch(reg, key, names, data)[i] == first[i];
      assert Lookup(reg, key, names[0])[i] in Lookup(reg, key, names[0]);
    } else {
      var rest := Dispatch(reg, key, names[1..], data);
      assert Dispatch(reg, key, names, data)[i] == rest[i - |first|];
      DispatchCallsRegistered(reg, key, names[1..], data, i - |first|);
      var j :| 0 <= j < |names[1..]| && rest[i - |first|].callback in Lookup(reg, key, names[1..][j]);
      assert names[1..][j] == names[j + 1];
    }
  }

  /** A string names its events separated by single spaces; an array names
      them as they are; anything else is malformed. */
  function EventNames(v: JsValue): Option<seq<string>>
  {
    match v
    case Str(s) => Some(Split(s, ' '))
    case Arr(items) => Some(items)
    case _ => None
  }

  /** `args[i]`, which is undefined past the end. */
  function Arg(args: seq<JsValue>, i: nat): JsValue
  {
    if i < |args| then args[i] else Undefined
  }

  /** `args.slice(2, args.length)` */
  function Payload(args: seq<JsValue>): seq<JsValue>
  {
    if |args| > 2 then args[2..] else []
  }

  /** `emit(key, events, ...data)` */
  function EmitSpec(reg: Registry, args: seq<JsValue>): (r: EmitOutcome)
    ensures Arg(args, 0) == Undefined ==> r == EmitOutcome([], [])
    ensures !Arg(args, 0).Str? && Arg(args, 0) != Undefined ==> r == EmitOutcome([], [BadKeyDiag])
    ensures Arg(args, 0).Str? && !(Arg(args, 1).Str? || Arg(args, 1).Arr?) ==> r == EmitOutcome([], [BadEventsDiag])
    ensures r.calls != [] ==> r.diags == []
  {
    match Arg(args, 0)
    case Str(key) =>
      (match EventNames(Arg(args, 1))
       case None => EmitOutcome([], [BadEventsDiag])
       case Some(names) => EmitOutcome(Dispatch(reg, key, names, Payload(args)), []))
    case Undefined => EmitOutcome([], [])
    case _ => EmitOutcome([], [BadKeyDiag])
  }

  /** Dispatching a list of names is dispatching its parts one after the other. */
  lemma {:induction false} DispatchConcat(reg: Registry, key: string, a: seq<string>, b: seq<string>, data: seq<JsValue>)
    ensures Dispatch(reg, key, a + b, data) == Dispatch(reg, key, a, data) + Dispatch(reg, key, b, data)
    decreases |a|
  {
    if a != [] {
      assert (a + b)[0] == a[0];
      assert (a + b)[1..] == a[1..] + b;
      DispatchConcat(reg, key, a[1..], b, data);
    } else {
      assert a + b == b;
    }
  }

  /** Dispatching one name calls that name's callbacks, in order. */
  lemma DispatchSingle(reg: Registry, key: string, name: string, data: seq<JsValue>)
    ensures Dispatch(reg, key, [name], data) == Invocations(Lookup(reg, key, name), data)
  {
    assert [name][1..] == [];
    assert Dispatch(reg, key, [], data) == [];
  }

  /** Names with no callbacks registered are skipped: nothing is called. */
  lemma {:induction false} DispatchUnregistered(reg: Registry, key: string, names: seq<string>, data: seq<JsValue>)
    requires forall i :: 0 <= i < |names| ==> Lookup(reg, key, names[i]) == []
    ensures Dispatch(reg, key, names, data) == []
    decreases |names|
  {
    if names != [] {
      DispatchUnregistered(reg, key, names[1..], data);
    }
  }

  /** `emit(key, "a b", x)` calls the callbacks of "a" in registration order,
      then those of "b". */
  lemma EmitTwoEvents(reg: Registry, key: string, a: string, b: string, x: JsValue)
    requires ' ' !in a && ' ' !in b
    ensures EmitSpec(reg, [Str(key), Str(a + " " + b), x])
         == EmitOutcome(Invocations(Lookup(reg, key, a), [x]) + Invocations(Lookup(reg, key, b), [x]), [])
  {
    SplitCons(a, ' ', b);
    SplitWithoutSeparator(b, ' ');
    assert Split(a + " " + b, ' ') == [a, b];
    assert [Str(key), Str(a + " " + b), x][2..] == [x];
    assert [a, b][1..] == [b];
    DispatchSingle(reg, key, b, [x]);
  }

  /** A string of event names and the array of its pieces dispatch alike. */
  lemma EmitStringAsArray(reg: Registry, key: string, events: string, data: seq<JsValue>)
    ensures EmitSpec(reg, [Str(key), Str(events)] + data) == EmitSpec(reg, [Str(key), Arr(Split(events, ' '))] + data)
  {
  }

  /** Emitting one event after registering a function for it calls what was
      called before, then the new callback, with the same arguments. */
  lemma RegisterThenEmit(reg: Registry, key: string, event: string, h: CallbackId, data: seq<JsValue>)
    requires ' ' !in event
    ensures EmitSpec(Register(reg, key, event, Fn(h)), [Str(key), Str(event)] + data).calls
         == EmitSpec(reg, [Str(key), Str(event)] + data).calls + [Invocation(h, data)]
  {
    var args := [Str(key), Str(event)] + data;
    assert Payload(args) == data;
    SplitWithoutSeparator(event, ' ');
    RegisterLookup(reg, key, event, Fn(h), key, event);
    assert Count([event], event) == 1;
    var reg' := Register(reg, key, event, Fn(h));
    assert Lookup(reg', key, event) == Lookup(reg, key, event) + [h];
    InvocationsAppend(Lookup(reg, key, event), [h], data);
    DispatchSingle(reg', key, event, data);
    DispatchSingle(reg, key, event, data);
  }

  /** Callbacks A then B registered for the same (key, event) are called A
      strictly before B, after those registered earlier. */
  lemma RegistrationOrder(reg: Registry, key: string, event: string, a: CallbackId, b: CallbackId, data: seq<JsValue>)
    requires ' ' !in event
    ensures EmitSpec(Register(Register(reg, key, event, Fn(a)), key, event, Fn(b)), [Str(key), Str(event)] + data).calls
         == EmitSpec(reg, [Str(key), Str(event)] + data).calls + [Invocation(a, data), Invocation(b, data)]
  {
    RegisterThenEmit(reg, key, event, a, data);
    RegisterThenEmit(Register(reg, key, event, Fn(a)), key, event, b, data);
  }
}
