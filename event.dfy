/**
 * The observable capability every File inherits: a table from
 * signal name to a set of callbacks, with registration, deregistration and
 * synchronous dispatch to the exact signal and then to the "all" wildcard.
 */
module Event {
  import opened Results

  /** A registered callable, identified by its identity (Python hashes by object). */
  datatype Callback = Callback(id: nat)

  /** An argument passed to a callback. */
  datatype Value = Str(s: string) | Num(x: real) | Ref(id: nat)

  /** One invocation performed by trigger: which callback, with which positional arguments. */
  datatype Call = Call(cb: Callback, args: seq<Value>)

  type Table = map<string, set<Callback>>

  /** The wildcard signal whose callbacks observe every trigger. */
  const ALL: string := "all"

  /** `table.get(signal, ())` viewed as a set. */
  function Lookup(table: Table, signal: string): (cbs: set<Callback>)
    ensures signal in table ==> cbs == table[signal]
    ensures signal !in table ==> cbs == {}
  {
    if signal in table then table[signal] else {}
  }

  /** `table.setdefault(signal, set()).add(cb)`. */
  function Add(table: Table, signal: string, cb: Callback): (t: Table)
    ensures t.Keys == table.Keys + {signal}
    ensures Lookup(t, signal) == Lookup(table, signal) + {cb}
    ensures forall s :: s in table && s != signal ==> t[s] == table[s]
  {
    table[signal := Lookup(table, signal) + {cb}]
  }

  /**
   * `if signal in table: table[signal].remove(cb)`: a no-op for an unknown
   * signal, KeyError when the signal is known but cb is not in its set.
   * Removing the last callback keeps the key with an empty set.
   */
  function Remove(table: Table, signal: string, cb: Callback): (r: Result<Table>)
    ensures signal !in table ==> r == Ok(table)
    ensures r.Err? <==> signal in table && cb !in table[signal]
    ensures r.Err? ==> r.error == KeyError
    ensures r.Ok? && signal in table ==>
      r.value.Keys == table.Keys && r.value[signal] == table[signal] - {cb}
    ensures r.Ok? ==> forall s :: s in table && s != signal ==> r.value[s] == table[s]
  {
    if signal !in table then Ok(table)
    else if cb !in table[signal] then Err(KeyError)
    else Ok(table[signal := table[signal] - {cb}])
  }

  function Targets(calls: seq<Call>): (r: seq<Callback>)
    ensures |r| == |calls|
    ensures forall i :: 0 <= i < |calls| ==> r[i] == calls[i].cb
  {
    if calls == [] then [] else [calls[0].cb] + Targets(calls[1..])
  }

  /**
   * The calls invoke every member of cbs exactly once, each with args, and
   * nothing else.
   */
  ghost predicate EachOnce(calls: seq<Call>, cbs: set<Callback>, args: seq<Value>) {
    (forall i :: 0 <= i < |calls| ==> calls[i].args == args) &&
    multiset(Targets(calls)) == multiset(cbs)
  }

  lemma {:induction false} TargetsAppend(xs: seq<Call>, ys: seq<Call>)
    ensures Targets(xs + ys) == Targets(xs) + Targets(ys)
  {
    if xs != [] {
      assert (xs + ys)[1..] == xs[1..] + ys;
      TargetsAppend(xs[1..], ys);
    }
  }

  lemma EachOnceMembers(calls: seq<Call>, cbs: set<Callback>, args: seq<Value>)
    requires EachOnce(calls, cbs, args)
    ensures |calls| == |cbs|
    ensures forall i :: 0 <= i < |calls| ==> calls[i].cb in cbs
    ensures forall cb :: cb in cbs ==> multiset(Targets(calls))[cb] == 1
  {
    assert |multiset(Targets(calls))| == |Targets(calls)|;
    forall i | 0 <= i < |calls| ensures calls[i].cb in cbs {
      assert Targets(calls)[i] in multiset(Targets(calls));
    }
  }

  /**
   * trigger("all", *args) reaches every wildcard callback twice: once from
   * the exact-match group with args, once from the wildcard group with
   * ("all", *args).
   */
  lemma WildcardTwice(exact: seq<Call>, wild: seq<Call>, cbs: set<Callback>, args: seq<Value>)
    requires EachOnce(exact, cbs, args)
    requires EachOnce(wild, cbs, [Str(ALL)] + args)
    ensures forall cb :: cb in cbs ==> multiset(Targets(exact + wild))[cb] == 2
    ensures forall i :: 0 <= i < |exact| ==> (exact + wild)[i] == Call(exact[i].cb, args)
    ensures forall i :: |exact| <= i < |exact + wild| ==>
      (exact + wild)[i] == Call(wild[i - |exact|].cb, [Str(ALL)] + args)
  {
    TargetsAppend(exact, wild);
    EachOnceMembers(exact, cbs, args);
    EachOnceMembers(wild, cbs, [Str(ALL)] + args);
  }

  /** Dispatching cb, one of the callbacks still to call, keeps the invariants of Dispatch. */
  lemma DispatchStep(calls: seq<Call>, todo: set<Callback>, cb: Callback, args: seq<Value>)
    requires cb in todo
    requires forall i :: 0 <= i < |calls| ==> calls[i].args == args
    ensures |todo - {cb}| == |todo| - 1
    ensures forall i :: 0 <= i < |calls + [Call(cb, args)]| ==> (calls + [Call(cb, args)])[i].args == args
    ensures multiset(Targets(calls + [Call(cb, args)])) + multiset(todo - {cb})
         == multiset(Targets(calls)) + multiset(todo)
  {
    TargetsAppend(calls, [Call(cb, args)]);
    assert multiset(todo - {cb}) + multiset{cb} == multiset(todo);
  }

  /** An object that can be observed: EventHandler in the source. */
  class EventHandler {
    var callbacks: Table

    /** The callbacks currently registered for signal. */
    function CallbacksFor(signal: string): set<Callback>
      reads this
    {
      Lookup(callbacks, signal)
    }

    /** A fresh handler has no callbacks. */
    constructor ()
      ensures callbacks == map[]
    {
      callbacks := map[];
    }

    /**
     * Invokes each callback registered for signal once with args, then each
     * "all" callback once with (signal, *args). Sets are iterated in no
     * particular order, so the order inside each group is left open.
     */
    method Trigger(signal: string, args: seq<Value>) returns (calls: seq<Call>)
      ensures |calls| == |CallbacksFor(signal)| + |CallbacksFor(ALL)|
      ensures EachOnce(calls[..|CallbacksFor(signal)|], CallbacksFor(signal), args)
      ensures EachOnce(calls[|CallbacksFor(signal)|..], CallbacksFor(ALL), [Str(signal)] + args)
      ensures signal == ALL ==>
        forall cb :: cb in CallbacksFor(ALL) ==> multiset(Targets(calls))[cb] == 2
    {
      var exact := Dispatch(CallbacksFor(signal), args);
      var wild := Dispatch(CallbacksFor(ALL), [Str(signal)] + args);
      calls := exact + wild;
      assert calls[..|exact|] == exact;
      assert calls[|exact|..] == wild;
      if signal == ALL {
        WildcardTwice(exact, wild, CallbacksFor(ALL), args);
      }
    }

    /** `for cb in cbs: cb(*args)` */
    static method Dispatch(cbs: set<Callback>, args: seq<Value>) returns (calls: seq<Call>)
      ensures |calls| == |cbs|
      ensures EachOnce(calls, cbs, args)
    {
      var todo := cbs;
      calls := [];
      while todo != {}
        invariant todo <= cbs
        invariant |calls| + |todo| == |cbs|
        invariant forall i :: 0 <= i < |calls| ==> calls[i].args == args
        invariant multiset(Targets(calls)) + multiset(todo) == multiset(cbs)
        decreases |todo|
      {
        var cb :| cb in todo;
        DispatchStep(calls, todo, cb, args);
        calls := calls + [Call(cb, args)];
        todo := todo - {cb};
      }
    }

    /** `on(signal, cb)`: add cb to the set for signal, creating it if needed. */
    method On(signal: string, cb: Callback)
      modifies this
      ensures callbacks == Add(old(callbacks), signal, cb)
    {
      callbacks := callbacks[signal := CallbacksFor(signal) + {cb}];
    }

    /** `off(signal, cb)`; the table is left as it was when KeyError is raised. */
    method Off(signal: string, cb: Callback) returns (r: Result<()>)
      modifies this
      ensures var t := Remove(old(callbacks), signal, cb);
        (t.Ok? ==> r == Ok(()) && callbacks == t.value) &&
        (t.Err? ==> r == Err(t.error) && callbacks == old(callbacks))
    {
      if signal in callbacks {
        if cb !in callbacks[signal] {
          return Err(KeyError);
        }
        callbacks := callbacks[signal := callbacks[signal] - {cb}];
      }
      r := Ok(());
    }
  }

  /** Triggering a freshly constructed handler invokes nothing. */
  method TriggerFresh(signal: string, args: seq<Value>) returns (calls: seq<Call>)
    ensures calls == []
  {
    var h := new EventHandler();
    calls := h.Trigger(signal, args);
  }

  /** Registering the same callback twice leaves one registration. */
  lemma AddIdempotent(table: Table, signal: string, cb: Callback)
    ensures Add(Add(table, signal, cb), signal, cb) == Add(table, signal, cb)
  {
  }

  /**
   * After on(s, cb), off(s, cb) succeeds and leaves the key s with the set
   * it had before minus cb (empty if cb was its only callback).
   */
  lemma RemoveAfterAdd(table: Table, signal: string, cb: Callback)
    ensures Remove(Add(table, signal, cb), signal, cb)
         == Ok(table[signal := Lookup(table, signal) - {cb}])
  {
    var added := Add(table, signal, cb);
    assert added[signal] == Lookup(table, signal) + {cb};
    assert added[signal] - {cb} == Lookup(table, signal) - {cb};
    assert added[signal := added[signal] - {cb}] == table[signal := Lookup(table, signal) - {cb}];
  }

  /** Once the last callback of s is removed, s triggers no exact-match calls. */
  lemma RemoveLast(table: Table, signal: string, cb: Callback)
    requires signal in table && table[signal] == {cb}
    ensures Remove(table, signal, cb).Ok?
    ensures signal in Remove(table, signal, cb).value
    ensures Lookup(Remove(table, signal, cb).value, signal) == {}
  {
  }
}
