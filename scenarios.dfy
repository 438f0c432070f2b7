/** Clients that use only the contracts of the coordination primitives to
    derive the behaviour of a few concrete call sequences. */
module Scenarios {
  import opened Values
  import opened Matches
  import opened HashArrays
  import opened Threads
  import opened Binds

  /** Handlers 1 and 3 bound to `"a"`, handler 2 to `"*"`: `trigger("a", 1)`
      runs 1, 3, then 2; when handler 3 stops, handler 2 never runs and the
      count is 2. */
  method WildcardsRunLast() {
    var b := new Binder();
    var _ := b.Bind(Named("a"), 1);
    var _ := b.Bind(Named("*"), 2);
    var _ := b.Bind(Named("a"), 3);
    var h1 := Present(HandlerRecord(Named("a"), 1));
    var h2 := Present(HandlerRecord(Named("*"), 2));
    var h3 := Present(HandlerRecord(Named("a"), 3));
    assert b.handlers == [h1, h2, h3];
    NamedHandler("a", 1);
    NamedHandler("*", 2);
    NamedHandler("a", 3);
    var items := DispatchList(b.handlers, Normalize(Named("a")));
    DispatchOrder(h1, h2, h3);
    assert items == [h1, h3, h2];

    var stopAtSecond := (j: nat) => if j == 1 then Stop else Continue;
    var r, calls := b.Trigger(Named("a"), [Num(1)], stopAtSecond);
    var expected := [Call(1, [Num(1)]), Call(3, [Num(1)])];
    StopsAfterSecond(h1, h3, h2, [Num(1)], stopAtSecond);
    DispatchedUnique(items, [Num(1)], stopAtSecond, r, calls, Return(2), expected);
    assert r == Return(2) && calls == expected;
  }

  /** Dispatching to two callable handlers of which the second stops. */
  lemma StopsAfterSecond(x: Entry, y: Entry, z: Entry, args: seq<Value>, answer: nat -> Ret)
    requires Callee(x).Fn? && Callee(y).Fn?
    requires answer(0) == Continue && answer(1) == Stop
    ensures Dispatched([x, y, z], args, answer, Return(2),
                       [Call(Callee(x).fid, args), Call(Callee(y).fid, args)])
  {
  }

  /** A handler bound to a type string holds the callback and the type. */
  lemma NamedHandler(s: string, fn: nat)
    ensures HandlerRecord(Named(s), fn) == map["fn" := Fn(fn), "type" := Str(s)]
  {
  }

  lemma SelectedOfThree(x: Entry, y: Entry, z: Entry, f: Filter)
    ensures Selected([x, y, z], f) == Selected([x], f) + Selected([y], f) + Selected([z], f)
  {
    SelectedAppend([y], [z], f);
    assert [y] + [z] == [y, z];
    SelectedAppend([x], [y, z], f);
    assert [x] + [y, z] == [x, y, z];
  }

  /** The dispatch list of `trigger("a")` over handlers of types `"a"`, `"*"`
      and `"a"`. */
  lemma DispatchOrder(h1: Entry, h2: Entry, h3: Entry)
    requires h1.Present? && Get(h1.fields, "type") == Str("a")
    requires h2.Present? && Get(h2.fields, "type") == Str("*")
    requires h3.Present? && Get(h3.fields, "type") == Str("a")
    ensures DispatchList([h1, h2, h3], Normalize(Named("a"))) == [h1, h3, h2]
  {
    SelectedByType(h1, h2, h3, "a", "*");
  }

  /** Selecting by type `s` among a first and a last item of type `s` and a
      middle one of another type. */
  lemma SelectedByType(x: Entry, y: Entry, z: Entry, s: string, o: string)
    requires s != o
    requires x.Present? && Get(x.fields, "type") == Str(s)
    requires y.Present? && Get(y.fields, "type") == Str(o)
    requires z.Present? && Get(z.fields, "type") == Str(s)
    ensures Selected([x, y, z], EqMap(map["type" := Str(s)])) == [x, z]
    ensures Selected([x, y, z], EqMap(map["type" := Str(o)])) == [y]
  {
    var f, g := EqMap(map["type" := Str(s)]), EqMap(map["type" := Str(o)]);
    SingleKeyFilter(x, "type", Str(s));
    SingleKeyFilter(y, "type", Str(s));
    SingleKeyFilter(z, "type", Str(s));
    SingleKeyFilter(x, "type", Str(o));
    SingleKeyFilter(y, "type", Str(o));
    SingleKeyFilter(z, "type", Str(o));
    SelectedOfThree(x, y, z, f);
    SelectedOfThree(x, y, z, g);
    Singleton(x, f);
    Singleton(y, f);
    Singleton(z, f);
    Singleton(x, g);
    Singleton(y, g);
    Singleton(z, g);
  }

  /** Two `"evt"` triggers, then `bind("evt", cb)`: `cb` is replayed 5 and 6 in
      that order; after `forget()` a new binding is replayed nothing, and the
      earlier one is still bound. */
  method ReplayThenForget(answer: nat -> Ret) {
    var rb := new Retentive();
    NothingToDispatch(Named("evt"), [Num(5)], answer);
    var r1, c1 := rb.Trigger(Named("evt"), [Num(5)], answer);
    DispatchedUnique([], [Num(5)], answer, r1, c1, Return(0), []);
    NothingToDispatch(Named("evt"), [Num(6)], answer);
    var r2, c2 := rb.Trigger(Named("evt"), [Num(6)], answer);
    DispatchedUnique([], [Num(6)], answer, r2, c2, Return(0), []);
    TwoEventsReplayed(rb.events);

    var _, replayed := rb.Bind(Named("evt"), 10);
    assert replayed == [Call(10, [Num(5)]), Call(10, [Num(6)])];

    var same := rb.Forget();
    assert same == rb;
    var _, none := rb.Bind(Named("evt"), 11);
    assert none == [];
    assert rb.inner.handlers[0] == Present(HandlerRecord(Named("evt"), 10));
  }

  lemma TwoEventsReplayed(events: seq<Entry>)
    requires events == [] + [Present(EventRecord(Str("evt"), [Num(5)]))]
                          + [Present(EventRecord(Str("evt"), [Num(6)]))]
    ensures Replays(10, ReplayList(events, Named("evt"))) == [Call(10, [Num(5)]), Call(10, [Num(6)])]
  {
    var e5 := Present(EventRecord(Str("evt"), [Num(5)]));
    var e6 := Present(EventRecord(Str("evt"), [Num(6)]));
    assert ReplayList([], Named("evt")) == [];
    TriggeredEventReplayed([], "evt", "evt", [Num(5)]);
    TriggeredEventReplayed([] + [e5], "evt", "evt", [Num(6)]);
    ReplaysSnoc(10, [], e5);
    ReplaysSnoc(10, [e5], e6);
    assert [] + [e5] == [e5] && [e5] + [e6] == [e5, e6];
  }

  /** With no handler bound, a trigger invokes nothing and returns 0. */
  lemma NothingToDispatch(t: TypeArg, args: seq<Value>, answer: nat -> Ret)
    ensures DispatchList([], Normalize(t)) == []
    ensures Dispatched([], args, answer, Return(0), [])
  {
  }

  /** Three callbacks bound before `latch("x")` run in order with `"x"`; a
      later binding runs at once with `"x"`; a second latch changes nothing. */
  method LatchOnce() {
    var l := new LatchBinder();
    CallsOfSnoc([], 1, [Str("x")]);
    CallsOfSnoc([1], 2, [Str("x")]);
    CallsOfSnoc([1, 2], 3, [Str("x")]);
    CallsOfSnoc([1, 2, 3], 4, [Str("x")]);
    assert [1] + [2] == [1, 2] && [1, 2] + [3] == [1, 2, 3] && [1, 2, 3] + [4] == [1, 2, 3, 4];
    var c1 := l.Bind(1);
    var c2 := l.Bind(2);
    var c3 := l.Bind(3);
    assert c1 == c2 == c3 == [];
    var flushed := l.Latch([Str("x")]);
    assert flushed == [Call(1, [Str("x")]), Call(2, [Str("x")]), Call(3, [Str("x")])];
    var late := l.Bind(4);
    assert late == [Call(4, [Str("x")])];
    var again := l.Latch([Str("y")]);
    assert again == [] && l.args == [Str("x")];
    assert l.served == CallsOf([1, 2, 3, 4], [Str("x")]);
  }

  /** A second `branch` of the same name throws and registers nothing. */
  method DuplicateBranch() {
    var river := new River();
    var a := river.Branch("entry");
    var dup := river.Branch("entry");
    assert a == Return("entry") && dup == Throw(DuplicatedName);
    assert river.names == {"entry"};
  }

  /** Both branches complete before `join`: the final callback fires inside
      `join` with both captured argument lists. */
  method JoinAfterCompletion() {
    var river := new River();
    var _ := river.Branch("entry");
    var _ := river.Branch("group");
    var _, f1 := river.Complete("entry", [Num(1)]);
    assert "group" !in river.args;
    var _, f2 := river.Complete("group", [Num(2)]);
    assert f1 == f2 == [];
    var _, fired := river.Join(Fn(7));
    assert fired == [Joined(7, map["entry" := [Num(1)], "group" := [Num(2)]])];
  }

  /** A repeat completion is discarded: the first arguments stay and the final
      callback does not fire again. */
  method RepeatCompletion() {
    var river := new River();
    var _ := river.Branch("entry");
    var _, before := river.Join(Fn(7));
    assert before == [];
    var _, first := river.Complete("entry", [Num(1)]);
    assert first == [Joined(7, map["entry" := [Num(1)]])];
    var _, again := river.Complete("entry", [Num(3)]);
    assert again == [] && river.args == map["entry" := [Num(1)]];
  }

  /** A branch registered after the join has fired makes the final callback
      fire a second time once it completes. */
  method RefiresAfterLateBranch() {
    var river := new River();
    var _ := river.Branch("entry");
    var _, early := river.Join(Fn(7));
    var _, first := river.Complete("entry", [Num(1)]);
    assert early == [] && first == [Joined(7, map["entry" := [Num(1)]])];
    var _ := river.Branch("late");
    var _, second := river.Complete("late", [Num(2)]);
    assert second == [Joined(7, map["entry" := [Num(1)], "late" := [Num(2)]])];
  }
}
