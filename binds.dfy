/** `Binds`: the ordered handler list (`Binder`) and its replaying decorator
    (`retentive`). */
module Binds {
  import opened Values
  import opened Matches
  import opened HashArrays

  /** The first argument of `bind`, `unbind` and `trigger`: a type string, a
      filter object (with its identity and its properties) or a predicate
      function (with its identity). */
  datatype TypeArg =
    | Named(name: string)
    | Fields(oid: nat, fields: Record)
    | Predicate(fid: nat, test: Entry -> bool)

  /** A handler's return value: `Stop` is exactly `false`, anything else
      (including other falsy values) is `Continue`. */
  datatype Ret = Continue | Stop

  /** The argument itself, as a value stored in a record. */
  function TypeValue(t: TypeArg): Value
  {
    match t
    case Named(s) => Str(s)
    case Fields(oid, _) => Obj(oid)
    case Predicate(fid, _) => Fn(fid)
  }

  /** A type string becomes `{type: s}`; a filter object or a predicate is
      used as it is. */
  function Normalize(t: TypeArg): Filter
  {
    match t
    case Named(s) => EqMap(map["type" := Str(s)])
    case Fields(_, m) => EqMap(m)
    case Predicate(_, p) => Pred(p)
  }

  /** The properties `$.extend` copies from the normalized argument; a
      predicate function has none. */
  function CopiedFields(t: TypeArg): Record
  {
    match t
    case Named(s) => map["type" := Str(s)]
    case Fields(_, m) => m
    case Predicate(_, _) => map[]
  }

  /** `$.extend({fn: fn}, filter)`: the handler record `bind` stores, and the
      filter `unbind` uses when narrowed to a callback. A filter property
      named `fn` replaces the callback. */
  function HandlerRecord(t: TypeArg, fn: nat): Record
  {
    Extend(map["fn" := Fn(fn)], CopiedFields(t))
  }

  /** The filter `unbind(t, fn)` removes by. */
  function UnbindFilter(t: TypeArg, fn: Option<nat>): Filter
  {
    match fn
    case None => Normalize(t)
    case Some(f) => EqMap(HandlerRecord(t, f))
  }

  /** `{type: '*'}`. */
  function Wildcard(): Filter
  {
    EqMap(map["type" := Str("*")])
  }

  /** The list a trigger dispatches to, fixed before the first call: the
      handlers matching the filter, then those bound to `'*'`, each group in
      binding order. */
  function DispatchList(handlers: seq<Entry>, f: Filter): seq<Entry>
  {
    Selected(handlers, f) + Selected(handlers, Wildcard())
  }

  /** The handler's `fn` property, `undefined` for an undefined element. */
  function Callee(e: Entry): Value
  {
    if e.Present? then Get(e.fields, "fn") else Undefined
  }

  /** What dispatching `items` with `args` does when the `j`-th invocation
      returns `answer(j)`: it invokes the items' callbacks in order, each with
      `args`, until one returns `Stop` (that one included) or the list ends,
      and returns how many it invoked. Reaching an item whose `fn` is not a
      function throws, after the preceding invocations. */
  predicate Dispatched(items: seq<Entry>, args: seq<Value>, answer: nat -> Ret,
                       r: Outcome<nat>, calls: seq<Call>)
  {
    && |calls| <= |items|
    && (forall k :: 0 <= k < |calls| ==>
          Callee(items[k]).Fn? && calls[k] == Call(Callee(items[k]).fid, args))
    && (forall k :: 0 <= k < |calls| - 1 ==> answer(k) == Continue)
    && match r
       case Return(count) =>
         && count == |calls|
         && (|calls| == |items| || (|calls| > 0 && answer(|calls| - 1) == Stop))
       case Throw(e) =>
         && e == NotAFunction
         && |calls| < |items|
         && !Callee(items[|calls|]).Fn?
         && (|calls| == 0 || answer(|calls| - 1) == Continue)
  }

  /** `Dispatched` determines the outcome and the invocations completely. */
  lemma DispatchedUnique(items: seq<Entry>, args: seq<Value>, answer: nat -> Ret,
                         r1: Outcome<nat>, calls1: seq<Call>, r2: Outcome<nat>, calls2: seq<Call>)
    requires Dispatched(items, args, answer, r1, calls1)
    requires Dispatched(items, args, answer, r2, calls2)
    ensures r1 == r2 && calls1 == calls2
  {
  }

  /** `Binds.simple()`: an ordered list of handler records. */
  class Binder {
    var handlers: seq<Entry>

    constructor ()
      ensures handlers == []
    {
      handlers := [];
    }

    /** `bind(t, fn)`: appends `{fn, ...filter}` and returns the new length
        (not a stable handle: lengths repeat after an `unbind`). */
    method Bind(t: TypeArg, fn: nat) returns (len: nat)
      modifies this
      ensures handlers == old(handlers) + [Present(HandlerRecord(t, fn))]
      ensures len == |handlers|
    {
      handlers := handlers + [Present(HandlerRecord(t, fn))];
      len := |handlers|;
    }

    /** `unbind(t, fn)`: removes every handler matching the filter, narrowed to
        the callback when one is given; the others stay in order. */
    method Unbind(t: TypeArg, fn: Option<nat>)
      modifies this
      ensures handlers == Rejected(old(handlers), UnbindFilter(t, fn))
    {
      var rest, _ := Remove(handlers, UnbindFilter(t, fn));
      handlers := rest;
    }

    /** `trigger(t, ...args)`: dispatches over the matching handlers and then
        the wildcard handlers, counting each invocation and stopping right
        after a handler returns `false`. */
    method Trigger(t: TypeArg, args: seq<Value>, answer: nat -> Ret) returns (r: Outcome<nat>, calls: seq<Call>)
      ensures Dispatched(DispatchList(handlers, Normalize(t)), args, answer, r, calls)
    {
      var matches := Find(handlers, Normalize(t));
      var wildcards := Find(handlers, Wildcard());
      var items := matches + wildcards;
      var count := 0;
      calls := [];
      var j := 0;
      while j < |items|
        invariant 0 <= j <= |items|
        invariant count == j == |calls|
        invariant forall k :: 0 <= k < j ==>
                    Callee(items[k]).Fn? && calls[k] == Call(Callee(items[k]).fid, args)
        invariant forall k :: 0 <= k < j ==> answer(k) == Continue
      {
        count := count + 1;
        var callee := Callee(items[j]);
        if !callee.Fn? {
          return Throw(NotAFunction), calls;
        }
        calls := calls + [Call(callee.fid, args)];
        if answer(j) == Stop {
          break;
        }
        j := j + 1;
      }
      r := Return(count);
    }
  }

  /** The record `retentive.trigger` logs. */
  function EventRecord(t: Value, args: seq<Value>): Record
  {
    map["type" := t, "arguments" := Arr(args)]
  }

  /** The `arguments` of a logged event, applied as the call's arguments. */
  function ArgumentsOf(e: Entry): seq<Value>
  {
    if e.Present? && Get(e.fields, "arguments").Arr? then Get(e.fields, "arguments").items else []
  }

  /** The logged events `retentive.bind(t, ...)` replays: all of them for
      `'*'`, and otherwise those whose `type` is strictly equal to `t`. */
  function ReplayList(events: seq<Entry>, t: TypeArg): seq<Entry>
  {
    if t.Named? && t.name == "*" then events
    else Selected(events, EqMap(map["type" := TypeValue(t)]))
  }

  /** `fn` invoked once per event, in log order, with that event's arguments. */
  function Replays(fn: nat, events: seq<Entry>): seq<Call>
  {
    if events == [] then []
    else Replays(fn, events[..|events| - 1]) + [Call(fn, ArgumentsOf(events[|events| - 1]))]
  }

  /** Appending an event appends its replay. */
  lemma ReplaysSnoc(fn: nat, events: seq<Entry>, e: Entry)
    ensures Replays(fn, events + [e]) == Replays(fn, events) + [Call(fn, ArgumentsOf(e))]
  {
    assert (events + [e])[..|events|] == events;
  }

  /** The replay loop of `retentive.bind`: `fn` called with each event's
      arguments in turn. */
  method ReplayAll(fn: nat, matched: seq<Entry>) returns (replayed: seq<Call>)
    ensures replayed == Replays(fn, matched)
  {
    replayed := [];
    var i := 0;
    while i < |matched|
      invariant 0 <= i <= |matched|
      invariant replayed == Replays(fn, matched[..i])
    {
      assert matched[..i + 1] == matched[..i] + [matched[i]];
      ReplaysSnoc(fn, matched[..i], matched[i]);
      replayed := replayed + [Call(fn, ArgumentsOf(matched[i]))];
      i := i + 1;
    }
    assert matched[..|matched|] == matched;
  }

  /** `Binds.retentive()`: a `Binder` plus an append-only log of triggered
      events that a late `bind` replays. */
  class Retentive {
    const inner: Binder
    var events: seq<Entry>

    constructor ()
      ensures fresh(inner) && inner.handlers == [] && events == []
    {
      inner := new Binder();
      events := [];
    }

    /** `bind(t, fn)`: binds on the inner binder, then invokes `fn` with each
        logged event of the same type (every event for `'*'`), in log order. */
    method Bind(t: TypeArg, fn: nat) returns (len: nat, replayed: seq<Call>)
      modifies inner
      ensures inner.handlers == old(inner.handlers) + [Present(HandlerRecord(t, fn))]
      ensures len == |inner.handlers|
      ensures replayed == Replays(fn, ReplayList(events, t))
    {
      len := inner.Bind(t, fn);
      var matched;
      if t.Named? && t.name == "*" {
        matched := events;
      } else {
        matched := Find(events, EqMap(map["type" := TypeValue(t)]));
      }
      replayed := ReplayAll(fn, matched);
    }

    /** `unbind(t, fn)`: the inner binder's; the log is untouched. */
    method Unbind(t: TypeArg, fn: Option<nat>)
      modifies inner
      ensures inner.handlers == Rejected(old(inner.handlers), UnbindFilter(t, fn))
    {
      inner.Unbind(t, fn);
    }

    /** `trigger(t, ...args)`: the inner binder's dispatch and count; once it
        has returned, `{type: t, arguments: args}` is appended to the log
        whether or not any handler matched. */
    method Trigger(t: TypeArg, args: seq<Value>, answer: nat -> Ret) returns (r: Outcome<nat>, calls: seq<Call>)
      modifies this
      ensures Dispatched(DispatchList(inner.handlers, Normalize(t)), args, answer, r, calls)
      ensures events == if r.Return? then old(events) + [Present(EventRecord(TypeValue(t), args))]
                        else old(events)
    {
      r, calls := inner.Trigger(t, args, answer);
      if r.Throw? {
        return;
      }
      events := events + [Present(EventRecord(TypeValue(t), args))];
    }

    /** `forget()`: empties the log; handlers stay bound. Returns the binder
        itself, so that calls can be chained. */
    method Forget() returns (self: Retentive)
      modifies this
      ensures events == []
      ensures self == this
    {
      events := [];
      self := this;
    }
  }

  /** A one-key equality filter `{k: v}` matches a defined entry whose `k`
      property is `v`, and nothing else. */
  lemma SingleKeyFilter(e: Entry, k: string, v: Value)
    ensures Satisfies(e, EqMap(map[k := v])) <==> e.Present? && Get(e.fields, k) == v
  {
    assert k in map[k := v];
  }

  /** What the normalized argument matches: a type string `s` matches the
      defined entries whose `type` is `s`, a filter object is used as an
      equality map, and a predicate decides by itself. */
  lemma NormalizeMeaning(t: TypeArg, e: Entry)
    ensures t.Named? ==> (Satisfies(e, Normalize(t)) <==> e.Present? && Get(e.fields, "type") == Str(t.name))
    ensures t.Fields? ==> (Satisfies(e, Normalize(t)) <==> Satisfies(e, EqMap(t.fields)))
    ensures t.Predicate? ==> (Satisfies(e, Normalize(t)) <==> t.test(e))
  {
    if t.Named? {
      SingleKeyFilter(e, "type", Str(t.name));
    }
  }

  /** A handler bound with `(t, fn)` is matched by `unbind(t, fn)`. */
  lemma HandlerMatchesOwnUnbind(t: TypeArg, fn: nat)
    ensures Satisfies(Present(HandlerRecord(t, fn)), UnbindFilter(t, Some(fn)))
  {
    var r := HandlerRecord(t, fn);
    assert "fn" in r;
    assert |r.Keys| > 0;
  }

  /** Binding and then unbinding the same `(t, fn)` restores the handler list,
      provided no earlier handler matched that pair. */
  lemma BindUnbindRoundTrip(handlers: seq<Entry>, t: TypeArg, fn: nat)
    requires forall i :: 0 <= i < |handlers| ==> !Satisfies(handlers[i], UnbindFilter(t, Some(fn)))
    ensures Rejected(handlers + [Present(HandlerRecord(t, fn))], UnbindFilter(t, Some(fn))) == handlers
  {
    var f := UnbindFilter(t, Some(fn));
    var x := Present(HandlerRecord(t, fn));
    RejectedAppend(handlers, [x], f);
    NoneSelected(handlers, f);
    HandlerMatchesOwnUnbind(t, fn);
    Singleton(x, f);
  }

  /** A newly bound handler joins the end of each dispatch group it matches:
      after the older matching handlers, and among the wildcard handlers after
      the older ones, which all come after the type-specific group. */
  lemma BindThenDispatch(handlers: seq<Entry>, x: Entry, f: Filter)
    ensures DispatchList(handlers + [x], f)
         == Selected(handlers, f) + (if Satisfies(x, f) then [x] else [])
          + Selected(handlers, Wildcard()) + (if Satisfies(x, Wildcard()) then [x] else [])
  {
    SelectedAppend(handlers, [x], f);
    SelectedAppend(handlers, [x], Wildcard());
    Singleton(x, f);
    Singleton(x, Wildcard());
  }

  /** A handler bound to a type other than `'*'` is dispatched by a trigger of
      that type, last among the type-specific handlers and before every
      wildcard handler. */
  lemma BoundLastOfItsType(handlers: seq<Entry>, s: string, fn: nat)
    requires s != "*"
    ensures DispatchList(handlers + [Present(HandlerRecord(Named(s), fn))], Normalize(Named(s)))
         == Selected(handlers, Normalize(Named(s))) + [Present(HandlerRecord(Named(s), fn))]
          + Selected(handlers, Wildcard())
  {
    var x := Present(HandlerRecord(Named(s), fn));
    BindThenDispatch(handlers, x, Normalize(Named(s)));
    assert Get(x.fields, "type") == Str(s);
    assert !Satisfies(x, Wildcard());
    assert Satisfies(x, Normalize(Named(s)));
  }

  /** `trigger('*')` dispatches every wildcard handler twice: once as a match
      and once as a wildcard. */
  lemma WildcardTriggerTwice(handlers: seq<Entry>, x: Entry)
    ensures multiset(DispatchList(handlers, Normalize(Named("*"))))[x]
         == if Satisfies(x, Wildcard()) then 2 * multiset(handlers)[x] else 0
  {
    SelectedCount(handlers, Wildcard(), x);
  }

  /** Apart from `'*'`, a logged event is replayed exactly when its `type` is
      strictly equal to the `bind` argument, as often as it was logged: a
      filter object or predicate replays only events triggered with that very
      object, never by its properties. */
  lemma ReplayByStrictType(events: seq<Entry>, t: TypeArg, e: Entry)
    requires !(t.Named? && t.name == "*")
    ensures multiset(ReplayList(events, t))[e]
         == if e.Present? && Get(e.fields, "type") == TypeValue(t) then multiset(events)[e] else 0
  {
    SelectedCount(events, EqMap(map["type" := TypeValue(t)]), e);
    SingleKeyFilter(e, "type", TypeValue(t));
  }

  /** Replay preserves the order of the log: replaying a log that grew by
      `later` replays the earlier part first. */
  lemma ReplayInLogOrder(earlier: seq<Entry>, later: seq<Entry>, t: TypeArg)
    ensures ReplayList(earlier + later, t) == ReplayList(earlier, t) + ReplayList(later, t)
  {
    if !(t.Named? && t.name == "*") {
      SelectedAppend(earlier, later, EqMap(map["type" := TypeValue(t)]));
    }
  }

  /** An event logged by `trigger(s, ...args)` is replayed, last, by a later
      `bind(s, fn)` and by a later `bind('*', fn)`, with its own arguments. */
  lemma TriggeredEventReplayed(events: seq<Entry>, s: string, b: string, args: seq<Value>)
    requires b == s || b == "*"
    ensures ReplayList(events + [Present(EventRecord(Str(s), args))], Named(b))
         == ReplayList(events, Named(b)) + [Present(EventRecord(Str(s), args))]
    ensures ArgumentsOf(Present(EventRecord(Str(s), args))) == args
  {
    var e := Present(EventRecord(Str(s), args));
    ReplayInLogOrder(events, [e], Named(b));
    if b != "*" {
      SingleKeyFilter(e, "type", Str(b));
      Singleton(e, EqMap(map["type" := Str(b)]));
    }
  }
}
