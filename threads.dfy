/** `Threads`: the fan-in join ("river") and the one-shot latch. */
module Threads {
  import opened Values

  /** An invocation of the river's final callback with the joined results:
      each branch name mapped to the argument list its completion received. */
  datatype Joined = Joined(fn: nat, results: map<string, seq<Value>>)

  /** Among registered branches, the completed ones are all of them exactly
      when there are as many of them: the test `count === size` means
      "every branch has completed". */
  lemma AllCompleted(names: set<string>, done: set<string>)
    requires done <= names
    ensures |done| == |names| <==> done == names
  {
    if |done| == |names| && done != names {
      var x :| x in names && x !in done;
      SubsetNoLarger(done, names - {x});
    }
  }

  lemma {:induction false} SubsetNoLarger(a: set<string>, b: set<string>)
    requires a <= b
    ensures |a| <= |b|
  {
    if a != {} {
      var y :| y in a;
      SubsetNoLarger(a - {y}, b - {y});
    }
  }

  /** `Threads.river()`: branches are registered by name and completed by
      calling the callback `branch` returned; `join` stores the final callback
      and fires it at once when nothing is outstanding. `names` is the set of
      registered names, `args` the captured arguments of completed branches. */
  class River {
    var names: set<string>
    var args: map<string, seq<Value>>
    var size: nat
    var count: nat
    var fun: Value

    ghost predicate Valid()
      reads this
    {
      && args.Keys <= names
      && size == |names|
      && count == |args|
    }

    /** Every registered branch has completed. */
    ghost predicate AllDone()
      reads this
    {
      args.Keys == names
    }

    constructor ()
      ensures Valid()
      ensures names == {} && args == map[] && fun == Undefined
    {
      names, args := {}, map[];
      size, count := 0, 0;
      fun := Undefined;
    }

    /** `branch(name)`: throws on a name already registered, and otherwise
        registers it and hands back its completion callback (named by `name`). */
    method Branch(name: string) returns (r: Outcome<string>)
      requires Valid()
      modifies this
      ensures Valid()
      ensures r == if name in old(names) then Throw(DuplicatedName) else Return(name)
      ensures names == old(names) + {name}
      ensures args == old(args) && fun == old(fun)
    {
      if name in names {
        return Throw(DuplicatedName);
      }
      names := names + {name};
      size := size + 1;
      r := Return(name);
    }

    /** Calling the completion callback of branch `name` with `callArgs`. The
        first call captures the arguments; once that makes every branch
        complete, a set (truthy) final callback is invoked with the joined
        results, and a truthy value that is not a function throws. A repeat
        call is discarded: nothing changes and nothing is invoked. */
    method Complete(name: string, callArgs: seq<Value>) returns (r: Outcome<()>, fired: seq<Joined>)
      requires Valid() && name in names
      modifies this
      ensures Valid()
      ensures names == old(names) && fun == old(fun)
      ensures name in old(args) ==> args == old(args) && r == Return(()) && fired == []
      ensures name !in old(args) ==> args == old(args)[name := callArgs]
      ensures fired != [] ==> name !in old(args) && AllDone() && fun.Fn? && fired == [Joined(fun.fid, args)]
      ensures name !in old(args) && AllDone() && fun.Fn? ==> fired == [Joined(fun.fid, args)]
      ensures r.Throw? <==> name !in old(args) && AllDone() && Truthy(fun) && !fun.Fn?
      ensures r.Throw? ==> r.error == NotAFunction
    {
      fired := [];
      r := Return(());
      if name !in args {
        count := count + 1;
        args := args[name := callArgs];
        AllCompleted(names, args.Keys);
        if count == size {
          if Truthy(fun) {
            if fun.Fn? {
              fired := [Joined(fun.fid, args)];
            } else {
              r := Throw(NotAFunction);
            }
          }
        }
      }
    }

    /** `join(..., last)`: stores `last` as the final callback, throws unless
        it is a function, and invokes it at once when every branch has already
        completed (also when there are no branches at all). */
    method Join(last: Value) returns (r: Outcome<()>, fired: seq<Joined>)
      requires Valid()
      modifies this
      ensures Valid()
      ensures names == old(names) && args == old(args) && fun == last
      ensures r == if IsNonNullFn(last) then Return(()) else Throw(ParameterIsNull)
      ensures fired == if IsNonNullFn(last) && AllDone() then [Joined(last.fid, args)] else []
    {
      fun := last;
      fired := [];
      if !IsNonNullFn(fun) {
        return Throw(ParameterIsNull), [];
      }
      AllCompleted(names, args.Keys);
      if count == size {
        fired := [Joined(fun.fid, args)];
      }
      r := Return(());
    }
  }

  /** Each of `fns` invoked once, in order, with `args`. */
  function CallsOf(fns: seq<nat>, args: seq<Value>): seq<Call>
  {
    if fns == [] then [] else CallsOf(fns[..|fns| - 1], args) + [Call(fns[|fns| - 1], args)]
  }

  /** Binding one more callback adds its invocation at the end. */
  lemma CallsOfSnoc(fns: seq<nat>, fn: nat, args: seq<Value>)
    ensures CallsOf(fns + [fn], args) == CallsOf(fns, args) + [Call(fn, args)]
  {
    assert (fns + [fn])[..|fns|] == fns;
  }

  /** `Threads.latchbinder()`: callbacks bound before the latch wait in
      `queue`; the first `latch` freezes its arguments and flushes the queue;
      afterwards `bind` calls back at once. `bound` and `served` record every
      callback bound and every invocation made, and `Valid` says that each
      bound callback has been invoked exactly once, in binding order, with the
      frozen arguments, once the latch has closed, and none before. */
  class LatchBinder {
    var latched: bool
    var args: seq<Value>
    var queue: seq<nat>
    ghost var bound: seq<nat>
    ghost var served: seq<Call>

    ghost predicate Valid()
      reads this
    {
      if latched then queue == [] && served == CallsOf(bound, args)
      else served == [] && queue == bound
    }

    constructor ()
      ensures Valid() && !latched && queue == [] && bound == []
    {
      latched, args, queue := false, [], [];
      bound, served := [], [];
    }

    /** `latch(...a)`: the first call freezes `a` and invokes every queued
        callback in order; later calls change nothing. */
    method Latch(a: seq<Value>) returns (calls: seq<Call>)
      requires Valid()
      modifies this
      ensures Valid() && latched && bound == old(bound)
      ensures old(latched) ==> args == old(args) && calls == [] && served == old(served)
      ensures !old(latched) ==> args == a && calls == CallsOf(old(queue), a) && served == calls
    {
      calls := [];
      if !latched {
        latched, args := true, a;
        var pending := queue;
        var i := 0;
        while i < |pending|
          invariant 0 <= i <= |pending|
          invariant calls == CallsOf(pending[..i], a)
        {
          assert pending[..i + 1][..i] == pending[..i];
          calls := calls + [Call(pending[i], a)];
          i := i + 1;
        }
        assert pending[..|pending|] == pending;
        queue := [];
        served := calls;
      }
    }

    /** `bind(fn)`: invokes `fn` at once with the frozen arguments once the
        latch has closed, and queues it otherwise. */
    method Bind(fn: nat) returns (calls: seq<Call>)
      requires Valid()
      modifies this
      ensures Valid() && latched == old(latched) && args == old(args)
      ensures bound == old(bound) + [fn]
      ensures calls == if latched then [Call(fn, args)] else []
      ensures served == old(served) + calls
    {
      CallsOfSnoc(bound, fn, args);
      bound := bound + [fn];
      if latched {
        calls := [Call(fn, args)];
      } else {
        queue := queue + [fn];
        calls := [];
      }
      served := served + calls;
    }
  }
}
