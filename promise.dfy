/**
 * The single-threaded, non-generic promise (Promise_NonGeneric.cs).
 *
 * Promises live in an arena and are named by their index. A record holds the
 * state, the stored value and the ordered list of resolve handlers. The
 * closures the C# code registers are represented by what they do:
 *
 *   ThenH(cb, r)      `Then(cb)` on a pending promise: run cb, then resolve r
 *   ForwardH(r)       `Then(null)` / `ContinueWith(null)`: resolve r
 *   ContinueH(fn, r)  `ContinueWith(fn)`: run fn, chain r to the promise fn returns
 *
 * A callback is a user callback (an opaque id, recorded in the trace when it
 * runs), the chaining lambda of ContinueWith, or the countdown lambda of All.
 * Which promise a user ContinueWith callback returns is an oracle (`conts`);
 * a missing entry is a callback returning null.
 *
 * A cascade of resolutions is the nested recursion Resolve -> handler ->
 * Resolve; it is specified by `Run`, a machine over an explicit stack of
 * pending tasks whose front is processed first, which is the same depth-first
 * order.
 */
module Promises {

  datatype PromiseState = Pending | Rejected | Resolved

  datatype Option<T> = None | Some(value: T)

  /** The `object` a promise carries: null, some engine object, or the array All produces. */
  datatype Value = Null | Obj(id: nat) | Many(items: seq<Value>)

  datatype Callback = User(id: nat) | ResolveWith(target: nat) | CountDown(join: nat)

  datatype Handler = ThenH(cb: Callback, result: nat) | ForwardH(result: nat) | ContinueH(fn: nat, result: nat)

  datatype Rec = Rec(state: PromiseState, value: Value, handlers: seq<Handler>)

  /** The captured state of one `All` call: the counter, the input array and the result promise. */
  datatype Join = Join(remaining: int, inputs: seq<nat>, result: nat)

  /** A user callback ran with the given argument. */
  datatype Event = Called(cb: nat, arg: Value)

  datatype World = World(recs: seq<Rec>, joins: seq<Join>, trace: seq<Event>)

  /** What is left to do in a cascade: resolve a promise, or run one detached handler. */
  datatype Task = Settle(p: nat, v: Value) | Fire(h: Handler, v: Value)

  // ---------------------------------------------------------------- well-formedness

  predicate HandlerOk(h: Handler, n: nat, nj: nat)
  {
    h.result < n &&
    (h.ThenH? ==> (h.cb.ResolveWith? ==> h.cb.target < n) && (h.cb.CountDown? ==> h.cb.join < nj))
  }

  predicate TaskOk(t: Task, n: nat, nj: nat)
  {
    match t
    case Settle(p, _) => p < n
    case Fire(h, _) => HandlerOk(h, n, nj)
  }

  predicate TasksOk(ts: seq<Task>, n: nat, nj: nat)
  {
    forall i :: 0 <= i < |ts| ==> TaskOk(ts[i], n, nj)
  }

  predicate RecOk(r: Rec, n: nat, nj: nat)
  {
    (r.state != Pending ==> r.handlers == []) &&
    forall k :: 0 <= k < |r.handlers| ==> HandlerOk(r.handlers[k], n, nj)
  }

  predicate JoinOk(j: Join, n: nat)
  {
    j.result < n && forall k :: 0 <= k < |j.inputs| ==> j.inputs[k] < n
  }

  /**
   * Every id refers to an existing promise or join, the oracle only returns
   * existing promises, and a promise that is no longer pending holds no handler.
   */
  predicate WellFormed(w: World, conts: map<nat, nat>)
  {
    (forall i :: 0 <= i < |w.recs| ==> RecOk(w.recs[i], |w.recs|, |w.joins|)) &&
    (forall i :: 0 <= i < |w.joins| ==> JoinOk(w.joins[i], |w.recs|)) &&
    (forall fn :: fn in conts ==> conts[fn] < |w.recs|)
  }

  // ---------------------------------------------------------------- termination measure

  function HandlerWeight(h: Handler): nat
  {
    match h
    case ThenH(_, _) => 3
    case ForwardH(_) => 2
    case ContinueH(_, _) => 4
  }

  function HandlersWeight(hs: seq<Handler>): nat
  {
    if hs == [] then 0 else HandlerWeight(hs[0]) + HandlersWeight(hs[1..])
  }

  function Potential(recs: seq<Rec>): nat
  {
    if recs == [] then 0 else HandlersWeight(recs[0].handlers) + Potential(recs[1..])
  }

  function TaskWeight(t: Task): nat
  {
    match t
    case Settle(_, _) => 1
    case Fire(h, _) => HandlerWeight(h)
  }

  function StackWeight(ts: seq<Task>): nat
  {
    if ts == [] then 0 else TaskWeight(ts[0]) + StackWeight(ts[1..])
  }

  lemma {:induction false} HandlersWeightAppend(hs: seq<Handler>, h: Handler)
    ensures HandlersWeight(hs + [h]) == HandlersWeight(hs) + HandlerWeight(h)
  {
    if hs != [] {
      assert (hs + [h])[1..] == hs[1..] + [h];
      HandlersWeightAppend(hs[1..], h);
    }
  }

  lemma {:induction false} StackWeightAppend(a: seq<Task>, b: seq<Task>)
    ensures StackWeight(a + b) == StackWeight(a) + StackWeight(b)
  {
    if a != [] {
      assert (a + b)[1..] == a[1..] + b;
      StackWeightAppend(a[1..], b);
    } else {
      assert a + b == b;
    }
  }

  /** Replacing one record changes the potential by the difference of its handler weights. */
  lemma {:induction false} PotentialUpdate(recs: seq<Rec>, i: nat, r: Rec)
    requires i < |recs|
    ensures Potential(recs[i := r]) + HandlersWeight(recs[i].handlers) == Potential(recs) + HandlersWeight(r.handlers)
  {
    if i > 0 {
      assert recs[i := r][1..] == recs[1..][i - 1 := r];
      PotentialUpdate(recs[1..], i - 1, r);
    }
  }

  /** A new record without handlers adds nothing to the potential. */
  lemma {:induction false} PotentialAppend(recs: seq<Rec>, r: Rec)
    requires r.handlers == []
    ensures Potential(recs + [r]) == Potential(recs)
  {
    if recs != [] {
      assert (recs + [r])[1..] == recs[1..] + [r];
      PotentialAppend(recs[1..], r);
    }
  }

  // ---------------------------------------------------------------- one step of a cascade

  datatype Next = Next(w: World, pushed: seq<Task>)

  /** The handlers of a promise being resolved, as tasks in registration order. */
  function FireAll(hs: seq<Handler>, v: Value): (ts: seq<Task>)
    ensures |ts| == |hs|
    ensures forall i :: 0 <= i < |hs| ==> ts[i] == Fire(hs[i], v)
    ensures StackWeight(ts) == HandlersWeight(hs)
  {
    if hs == [] then [] else [Fire(hs[0], v)] + FireAll(hs[1..], v)
  }

  /** The array All resolves with: the current value of every input, in input order. */
  function JoinValue(recs: seq<Rec>, inputs: seq<nat>): (v: Value)
    requires forall k :: 0 <= k < |inputs| ==> inputs[k] < |recs|
    ensures v.Many? && |v.items| == |inputs|
    ensures forall k :: 0 <= k < |inputs| ==> v.items[k] == recs[inputs[k]].value
  {
    Many(seq(|inputs|, k requires 0 <= k < |inputs| => recs[inputs[k]].value))
  }

  /** A new promise record in the given state (`new Promise()` or `new Promise(state)`). */
  function AddRec(w: World, state: PromiseState): (w': World)
    ensures |w'.recs| == |w.recs| + 1 && w'.recs[..|w.recs|] == w.recs
    ensures w'.recs[|w.recs|] == Rec(state, Null, [])
    ensures w'.joins == w.joins && w'.trace == w.trace
    ensures Potential(w'.recs) == Potential(w.recs)
  {
    PotentialAppend(w.recs, Rec(state, Null, []));
    w.(recs := w.recs + [Rec(state, Null, [])])
  }

  lemma AddRecValid(w: World, state: PromiseState, conts: map<nat, nat>)
    requires WellFormed(w, conts)
    ensures WellFormed(AddRec(w, state), conts)
  {
    var w' := AddRec(w, state);
    forall i | 0 <= i < |w'.recs|
      ensures RecOk(w'.recs[i], |w'.recs|, |w'.joins|)
    {
      if i < |w.recs| {
        assert w'.recs[i] == w.recs[i];
        assert RecOk(w.recs[i], |w.recs|, |w.joins|);
      }
    }
  }

  /** Registers a handler on a pending promise. */
  function AddHandler(w: World, p: nat, h: Handler): (w': World)
    requires p < |w.recs|
    ensures |w'.recs| == |w.recs| && w'.joins == w.joins && w'.trace == w.trace
    ensures w'.recs[p] == w.recs[p].(handlers := w.recs[p].handlers + [h])
    ensures forall i :: 0 <= i < |w.recs| && i != p ==> w'.recs[i] == w.recs[i]
    ensures Potential(w'.recs) == Potential(w.recs) + HandlerWeight(h)
  {
    var r := w.recs[p].(handlers := w.recs[p].handlers + [h]);
    HandlersWeightAppend(w.recs[p].handlers, h);
    PotentialUpdate(w.recs, p, r);
    w.(recs := w.recs[p := r])
  }

  lemma AddHandlerValid(w: World, p: nat, h: Handler, conts: map<nat, nat>)
    requires WellFormed(w, conts) && p < |w.recs| && w.recs[p].state == Pending
    requires HandlerOk(h, |w.recs|, |w.joins|)
    ensures WellFormed(AddHandler(w, p, h), conts)
  {
    var w' := AddHandler(w, p, h);
    forall i | 0 <= i < |w'.recs|
      ensures RecOk(w'.recs[i], |w'.recs|, |w'.joins|)
    {
      assert RecOk(w.recs[i], |w.recs|, |w.joins|);
      if i == p {
        var hs := w.recs[p].handlers;
        assert forall k :: 0 <= k < |hs| + 1 ==> (hs + [h])[k] == if k < |hs| then hs[k] else h;
      }
    }
  }

  /** Resolving one promise: store state and value, detach the handlers and queue them. */
  function SettleStep(w: World, p: nat, v: Value, conts: map<nat, nat>): (n: Next)
    requires WellFormed(w, conts) && p < |w.recs|
    ensures WellFormed(n.w, conts) && TasksOk(n.pushed, |n.w.recs|, |n.w.joins|)
    ensures |n.w.recs| == |w.recs| && n.w.joins == w.joins && n.w.trace == w.trace
    ensures n.w.recs[p] == Rec(Resolved, v, [])
    ensures forall i :: 0 <= i < |w.recs| && i != p ==> n.w.recs[i] == w.recs[i]
    ensures n.pushed == FireAll(w.recs[p].handlers, v)
    ensures Potential(n.w.recs) + StackWeight(n.pushed) == Potential(w.recs)
  {
    var hs := w.recs[p].handlers;
    var w' := w.(recs := w.recs[p := Rec(Resolved, v, [])]);
    PotentialUpdate(w.recs, p, Rec(Resolved, v, []));
    assert RecOk(w.recs[p], |w.recs|, |w.joins|);
    assert forall i :: 0 <= i < |w'.recs| ==> RecOk(w'.recs[i], |w'.recs|, |w'.joins|) by {
      forall i | 0 <= i < |w'.recs|
        ensures RecOk(w'.recs[i], |w'.recs|, |w'.joins|)
      {
        assert RecOk(w.recs[i], |w.recs|, |w.joins|);
      }
    }
    Next(w', FireAll(hs, v))
  }

  /** `q.Then(chained => r.Resolve(chained))`, the chaining step of ContinueWith. */
  function ChainStep(w: World, q: nat, r: nat, conts: map<nat, nat>): (n: Next)
    requires WellFormed(w, conts) && q < |w.recs| && r < |w.recs|
    ensures WellFormed(n.w, conts) && TasksOk(n.pushed, |n.w.recs|, |n.w.joins|)
    ensures |w.recs| <= |n.w.recs| && n.w.joins == w.joins && n.w.trace == w.trace
    ensures Potential(n.w.recs) + StackWeight(n.pushed) <= Potential(w.recs) + 3
  {
    if w.recs[q].state != Pending then
      Next(w, [Settle(r, w.recs[q].value)])
    else
      var f := |w.recs|;
      var w1 := AddRec(w, Pending);
      AddRecValid(w, Pending, conts);
      assert w1.recs[q] == w.recs[q];
      AddHandlerValid(w1, q, ThenH(ResolveWith(r), f), conts);
      Next(AddHandler(w1, q, ThenH(ResolveWith(r), f)), [])
  }

  /** Running one detached handler with the value its promise was resolved with. */
  function FireStep(w: World, h: Handler, v: Value, conts: map<nat, nat>): (n: Next)
    requires WellFormed(w, conts) && HandlerOk(h, |w.recs|, |w.joins|)
    ensures WellFormed(n.w, conts) && TasksOk(n.pushed, |n.w.recs|, |n.w.joins|)
    ensures |w.recs| <= |n.w.recs| && |n.w.joins| == |w.joins|
    ensures Potential(n.w.recs) + StackWeight(n.pushed) < Potential(w.recs) + HandlerWeight(h)
  {
    match h
    case ForwardH(r) => Next(w, [Settle(r, v)])
    case ThenH(User(c), r) => Next(w.(trace := w.trace + [Called(c, v)]), [Settle(r, v)])
    case ThenH(ResolveWith(t), r) =>
      TwoSettles(t, v, r, v);
      Next(w, [Settle(t, v), Settle(r, v)])
    case ThenH(CountDown(j), r) => CountDownStep(w, j, r, v, conts)
    case ContinueH(fn, r) => ContinueStep(w, fn, r, v, conts)
  }

  /** The countdown lambda of All run by a resolving input, then its own result promise resolved. */
  function CountDownStep(w: World, j: nat, r: nat, v: Value, conts: map<nat, nat>): (n: Next)
    requires WellFormed(w, conts) && j < |w.joins| && r < |w.recs|
    ensures WellFormed(n.w, conts) && TasksOk(n.pushed, |n.w.recs|, |n.w.joins|)
    ensures |n.w.recs| == |w.recs| && |n.w.joins| == |w.joins|
    ensures Potential(n.w.recs) == Potential(w.recs) && StackWeight(n.pushed) <= 2
  {
    var jn := w.joins[j];
    var w' := w.(joins := w.joins[j := jn.(remaining := jn.remaining - 1)]);
    CountDownKeeps(w, j, conts);
    if jn.remaining - 1 <= 0 && w.recs[jn.result].state == Pending then
      TwoSettles(jn.result, JoinValue(w.recs, jn.inputs), r, v);
      Next(w', [Settle(jn.result, JoinValue(w.recs, jn.inputs)), Settle(r, v)])
    else
      Next(w', [Settle(r, v)])
  }

  /** The ContinueWith handler: fn runs, and the result is chained to the promise it returned. */
  function ContinueStep(w: World, fn: nat, r: nat, v: Value, conts: map<nat, nat>): (n: Next)
    requires WellFormed(w, conts) && r < |w.recs|
    ensures WellFormed(n.w, conts) && TasksOk(n.pushed, |n.w.recs|, |n.w.joins|)
    ensures |w.recs| <= |n.w.recs| && n.w.joins == w.joins
    ensures Potential(n.w.recs) + StackWeight(n.pushed) <= Potential(w.recs) + 3
  {
    var w1 := w.(trace := w.trace + [Called(fn, v)]);
    if fn in conts then
      ChainStep(w1, conts[fn], r, conts)
    else
      var q := |w1.recs|;
      AddRecValid(w1, Resolved, conts);
      ChainStep(AddRec(w1, Resolved), q, r, conts)
  }

  /** The countdown's decrement keeps the world well formed. */
  lemma CountDownKeeps(w: World, j: nat, conts: map<nat, nat>)
    requires WellFormed(w, conts) && j < |w.joins|
    ensures var jn := w.joins[j];
      WellFormed(w.(joins := w.joins[j := jn.(remaining := jn.remaining - 1)]), conts) &&
      jn.result < |w.recs| && forall k :: 0 <= k < |jn.inputs| ==> jn.inputs[k] < |w.recs|
  {
    var jn := w.joins[j];
    var w' := w.(joins := w.joins[j := jn.(remaining := jn.remaining - 1)]);
    assert JoinOk(jn, |w.recs|);
    forall i | 0 <= i < |w'.recs|
      ensures RecOk(w'.recs[i], |w'.recs|, |w'.joins|)
    {
      assert RecOk(w.recs[i], |w.recs|, |w.joins|);
    }
  }

  lemma TwoSettles(p: nat, v: Value, q: nat, u: Value)
    ensures StackWeight([Settle(p, v), Settle(q, u)]) == 2
  {
    var s := [Settle(p, v), Settle(q, u)];
    assert s[1..] == [Settle(q, u)];
    assert s[1..][1..] == [];
    assert StackWeight(s[1..]) == TaskWeight(Settle(q, u)) + StackWeight(s[1..][1..]);
  }

  function Step(w: World, t: Task, conts: map<nat, nat>): (n: Next)
    requires WellFormed(w, conts) && TaskOk(t, |w.recs|, |w.joins|)
    ensures WellFormed(n.w, conts) && TasksOk(n.pushed, |n.w.recs|, |n.w.joins|)
    ensures |w.recs| <= |n.w.recs| && |n.w.joins| == |w.joins|
    ensures Potential(n.w.recs) + StackWeight(n.pushed) < Potential(w.recs) + TaskWeight(t)
  {
    match t
    case Settle(p, v) => SettleStep(w, p, v, conts)
    case Fire(h, v) => FireStep(w, h, v, conts)
  }

  lemma TasksOkGrow(ts: seq<Task>, n: nat, nj: nat, n': nat)
    requires TasksOk(ts, n, nj) && n <= n'
    ensures TasksOk(ts, n', nj)
  {
    forall i | 0 <= i < |ts|
      ensures TaskOk(ts[i], n', nj)
    {
      assert TaskOk(ts[i], n, nj);
    }
  }

  /** A whole cascade: process the stack, front first, until nothing is left. */
  function Run(w: World, stack: seq<Task>, conts: map<nat, nat>): (r: World)
    requires WellFormed(w, conts) && TasksOk(stack, |w.recs|, |w.joins|)
    ensures WellFormed(r, conts) && |w.recs| <= |r.recs| && |r.joins| == |w.joins|
    decreases Potential(w.recs) + StackWeight(stack)
  {
    if stack == [] then w
    else
      var n := Step(w, stack[0], conts);
      StackWeightAppend(n.pushed, stack[1..]);
      TasksOkGrow(stack[1..], |w.recs|, |w.joins|, |n.w.recs|);
      Run(n.w, n.pushed + stack[1..], conts)
  }

  // ---------------------------------------------------------------- facts about cascades

  /** Running two task lists one after the other is running their concatenation. */
  lemma {:induction false} RunAppend(w: World, a: seq<Task>, b: seq<Task>, conts: map<nat, nat>)
    requires WellFormed(w, conts) && TasksOk(a, |w.recs|, |w.joins|) && TasksOk(b, |w.recs|, |w.joins|)
    ensures TasksOk(a + b, |w.recs|, |w.joins|)
    ensures TasksOk(b, |Run(w, a, conts).recs|, |Run(w, a, conts).joins|)
    ensures Run(w, a + b, conts) == Run(Run(w, a, conts), b, conts)
    decreases Potential(w.recs) + StackWeight(a)
  {
    assert TasksOk(a + b, |w.recs|, |w.joins|) by {
      forall i | 0 <= i < |a + b|
        ensures TaskOk((a + b)[i], |w.recs|, |w.joins|)
      {
        if i < |a| { assert (a + b)[i] == a[i]; } else { assert (a + b)[i] == b[i - |a|]; }
      }
    }
    TasksOkGrow(b, |w.recs|, |w.joins|, |Run(w, a, conts).recs|);
    if a == [] {
      assert a + b == b;
    } else {
      var n := Step(w, a[0], conts);
      assert (a + b)[0] == a[0];
      assert (a + b)[1..] == a[1..] + b;
      assert n.pushed + (a[1..] + b) == (n.pushed + a[1..]) + b;
      StackWeightAppend(n.pushed, a[1..]);
      TasksOkGrow(a[1..], |w.recs|, |w.joins|, |n.w.recs|);
      TasksOkGrow(b, |w.recs|, |w.joins|, |n.w.recs|);
      assert TasksOk(n.pushed + a[1..], |n.w.recs|, |n.w.joins|) by {
        forall i | 0 <= i < |n.pushed + a[1..]|
          ensures TaskOk((n.pushed + a[1..])[i], |n.w.recs|, |n.w.joins|)
        {
          if i < |n.pushed| {
            assert (n.pushed + a[1..])[i] == n.pushed[i];
          } else {
            assert (n.pushed + a[1..])[i] == a[1..][i - |n.pushed|];
          }
        }
      }
      RunAppend(n.w, n.pushed + a[1..], b, conts);
    }
  }

  /**
   * A cascade never un-resolves a promise, never shortens the trace, and only
   * ever appends promises.
   */
  lemma {:induction false} RunMonotone(w: World, stack: seq<Task>, conts: map<nat, nat>)
    requires WellFormed(w, conts) && TasksOk(stack, |w.recs|, |w.joins|)
    ensures w.trace <= Run(w, stack, conts).trace
    ensures forall i :: 0 <= i < |w.recs| && w.recs[i].state == Resolved ==>
      Run(w, stack, conts).recs[i].state == Resolved
    decreases Potential(w.recs) + StackWeight(stack)
  {
    if stack != [] {
      var n := Step(w, stack[0], conts);
      StackWeightAppend(n.pushed, stack[1..]);
      TasksOkGrow(stack[1..], |w.recs|, |w.joins|, |n.w.recs|);
      StepMonotone(w, stack[0], conts);
      RunMonotone(n.w, n.pushed + stack[1..], conts);
    }
  }

  lemma StepMonotone(w: World, t: Task, conts: map<nat, nat>)
    requires WellFormed(w, conts) && TaskOk(t, |w.recs|, |w.joins|)
    ensures w.trace <= Step(w, t, conts).w.trace
    ensures forall i :: 0 <= i < |w.recs| && w.recs[i].state == Resolved ==>
      Step(w, t, conts).w.recs[i].state == Resolved
  {
    match t
    case Settle(p, v) =>
    case Fire(h, v) =>
      match h
      case ContinueH(fn, r) =>
        var w1 := w.(trace := w.trace + [Called(fn, v)]);
        if fn !in conts {
          var w2 := AddRec(w1, Resolved);
          assert forall i :: 0 <= i < |w.recs| ==> w2.recs[i] == w.recs[i];
        }
      case _ =>
  }

  /**
   * A handler whose work ends with itself: a user `Then` callback or a
   * forward, whose result promise has nothing registered on it.
   */
  predicate Plain(h: Handler, w: World)
  {
    (h.ForwardH? || (h.ThenH? && h.cb.User?)) && h.result < |w.recs| && w.recs[h.result].handlers == []
  }

  /** The user callbacks a handler list runs, in order, all with the value `v`. */
  function Calls(hs: seq<Handler>, v: Value): seq<Event>
  {
    if hs == [] then []
    else (if hs[0].ThenH? && hs[0].cb.User? then [Called(hs[0].cb.id, v)] else []) + Calls(hs[1..], v)
  }

  predicate IsResult(hs: seq<Handler>, i: nat)
  {
    exists k :: 0 <= k < |hs| && hs[k].result == i
  }

  lemma RunSingleSettle(w: World, r: nat, v: Value, conts: map<nat, nat>)
    requires WellFormed(w, conts) && r < |w.recs| && w.recs[r].handlers == []
    ensures Run(w, [Settle(r, v)], conts) == w.(recs := w.recs[r := Rec(Resolved, v, [])])
  {
    var n := Step(w, Settle(r, v), conts);
    assert n.pushed == [];
    assert n.pushed + [Settle(r, v)][1..] == [];
  }

  /** One plain handler: its user callback (if any) runs, then its result resolves. */
  lemma RunPlainOne(w: World, h: Handler, v: Value, conts: map<nat, nat>)
    requires WellFormed(w, conts) && Plain(h, w)
    ensures TasksOk([Fire(h, v)], |w.recs|, |w.joins|)
    ensures Run(w, [Fire(h, v)], conts) ==
      w.(trace := w.trace + Calls([h], v), recs := w.recs[h.result := Rec(Resolved, v, [])])
  {
    RunUnfold(w, [Fire(h, v)], conts);
    FirePlain(w, h, v, conts);
    var n := Step(w, Fire(h, v), conts);
    assert n.pushed + [Fire(h, v)][1..] == [Settle(h.result, v)];
    RunSingleSettle(n.w, h.result, v, conts);
  }

  lemma FirePlain(w: World, h: Handler, v: Value, conts: map<nat, nat>)
    requires WellFormed(w, conts) && Plain(h, w)
    ensures HandlerOk(h, |w.recs|, |w.joins|)
    ensures FireStep(w, h, v, conts) == Next(w.(trace := w.trace + Calls([h], v)), [Settle(h.result, v)])
  {
    assert [h][1..] == [];
    if h.ForwardH? {
      assert Calls([h], v) == [];
      assert w.(trace := w.trace + []) == w;
    } else {
      assert Calls([h], v) == [Called(h.cb.id, v)];
    }
  }

  lemma CallsCons(hs: seq<Handler>, v: Value)
    requires hs != []
    ensures Calls(hs, v) == Calls([hs[0]], v) + Calls(hs[1..], v)
  {
    var ev := if hs[0].ThenH? && hs[0].cb.User? then [Called(hs[0].cb.id, v)] else [];
    assert [hs[0]][1..] == [];
    assert Calls([hs[0]], v) == ev + [];
  }

  lemma Assoc<T>(a: seq<T>, b: seq<T>, c: seq<T>)
    ensures a + b + c == a + (b + c)
  {
  }

  lemma IsResultCons(hs: seq<Handler>, i: nat)
    requires hs != []
    ensures IsResult(hs, i) <==> (i == hs[0].result || IsResult(hs[1..], i))
  {
    if IsResult(hs, i) {
      var k :| 0 <= k < |hs| && hs[k].result == i;
      if k > 0 {
        assert hs[1..][k - 1].result == i;
      }
    }
    if IsResult(hs[1..], i) {
      var k :| 0 <= k < |hs[1..]| && hs[1..][k].result == i;
      assert hs[k + 1].result == i;
    }
  }

  /** The effect of plain handlers, one after the other. */
  function PlainEffect(w: World, hs: seq<Handler>, v: Value): World
    requires forall k :: 0 <= k < |hs| ==> hs[k].result < |w.recs|
    decreases |hs|
  {
    if hs == [] then w
    else PlainEffect(w.(trace := w.trace + Calls([hs[0]], v), recs := w.recs[hs[0].result := Rec(Resolved, v, [])]), hs[1..], v)
  }

  lemma {:induction false} RunPlainIsEffect(w: World, hs: seq<Handler>, v: Value, conts: map<nat, nat>)
    requires WellFormed(w, conts)
    requires forall k :: 0 <= k < |hs| ==> Plain(hs[k], w)
    ensures TasksOk(FireAll(hs, v), |w.recs|, |w.joins|)
    ensures Run(w, FireAll(hs, v), conts) == PlainEffect(w, hs, v)
    decreases |hs|
  {
    PlainTasksOk(w, hs, v);
    if hs != [] {
      var h := hs[0];
      assert Plain(h, w);
      var rest := FireAll(hs[1..], v);
      assert FireAll(hs, v) == [Fire(h, v)] + rest;
      PlainTasksOk(w, hs[1..], v);
      RunPlainOne(w, h, v, conts);
      RunAppend(w, [Fire(h, v)], rest, conts);
      var w2 := w.(trace := w.trace + Calls([h], v), recs := w.recs[h.result := Rec(Resolved, v, [])]);
      PlainAfterOne(w, hs, v);
      RunPlainIsEffect(w2, hs[1..], v, conts);
    }
  }

  lemma PlainTasksOk(w: World, hs: seq<Handler>, v: Value)
    requires forall k :: 0 <= k < |hs| ==> Plain(hs[k], w)
    ensures TasksOk(FireAll(hs, v), |w.recs|, |w.joins|)
  {
    var ts := FireAll(hs, v);
    forall k | 0 <= k < |ts|
      ensures TaskOk(ts[k], |w.recs|, |w.joins|)
    {
      assert Plain(hs[k], w);
    }
  }

  /** The handlers after the first stay plain once the first has run. */
  lemma PlainAfterOne(w: World, hs: seq<Handler>, v: Value)
    requires hs != [] && Plain(hs[0], w) && forall k :: 0 <= k < |hs| ==> Plain(hs[k], w)
    ensures var w2 := w.(trace := w.trace + Calls([hs[0]], v), recs := w.recs[hs[0].result := Rec(Resolved, v, [])]);
      forall k :: 0 <= k < |hs[1..]| ==> Plain(hs[1..][k], w2)
  {
    var w2 := w.(trace := w.trace + Calls([hs[0]], v), recs := w.recs[hs[0].result := Rec(Resolved, v, [])]);
    forall k | 0 <= k < |hs[1..]|
      ensures Plain(hs[1..][k], w2)
    {
      assert Plain(hs[k + 1], w);
    }
  }

  lemma {:induction false} PlainEffectMeaning(w: World, hs: seq<Handler>, v: Value)
    requires forall k :: 0 <= k < |hs| ==> hs[k].result < |w.recs|
    ensures var r := PlainEffect(w, hs, v);
      r.trace == w.trace + Calls(hs, v) && r.joins == w.joins && |r.recs| == |w.recs| &&
      forall i :: 0 <= i < |w.recs| ==> r.recs[i] == if IsResult(hs, i) then Rec(Resolved, v, []) else w.recs[i]
    decreases |hs|
  {
    if hs == [] {
      assert w.trace + [] == w.trace;
    } else {
      var h := hs[0];
      var w2 := w.(trace := w.trace + Calls([h], v), recs := w.recs[h.result := Rec(Resolved, v, [])]);
      PlainEffectMeaning(w2, hs[1..], v);
      CallsCons(hs, v);
      Assoc(w.trace, Calls([h], v), Calls(hs[1..], v));
      forall i | 0 <= i < |w.recs|
        ensures PlainEffect(w, hs, v).recs[i] == if IsResult(hs, i) then Rec(Resolved, v, []) else w.recs[i]
      {
        IsResultCons(hs, i);
      }
    }
  }

  /**
   * `Resolve(v)` on a promise whose handlers are plain: the promise becomes
   * Resolved with `v` and no handlers, every user callback runs once, in
   * registration order, with `v`, and every result promise resolves with `v`.
   */
  lemma ResolveRunsHandlersInOrder(w: World, p: nat, v: Value, conts: map<nat, nat>)
    requires WellFormed(w, conts) && p < |w.recs|
    requires forall k :: 0 <= k < |w.recs[p].handlers| ==> Plain(w.recs[p].handlers[k], w)
    ensures var hs := w.recs[p].handlers;
      var r := Run(w, [Settle(p, v)], conts);
      r.trace == w.trace + Calls(hs, v) && |r.recs| == |w.recs| &&
      r.recs[p] == Rec(Resolved, v, []) &&
      (forall k :: 0 <= k < |hs| ==> r.recs[hs[k].result] == Rec(Resolved, v, [])) &&
      (forall i :: 0 <= i < |w.recs| && i != p && !IsResult(hs, i) ==> r.recs[i] == w.recs[i])
  {
    var hs := w.recs[p].handlers;
    var w1 := w.(recs := w.recs[p := Rec(Resolved, v, [])]);
    ResolveIsPlainEffect(w, p, v, conts);
    PlainEffectMeaning(w1, hs, v);
    forall k | 0 <= k < |hs|
      ensures Run(w, [Settle(p, v)], conts).recs[hs[k].result] == Rec(Resolved, v, [])
    {
      assert IsResult(hs, hs[k].result);
    }
  }

  /** Resolving a promise whose handlers are plain is their combined effect on the world where it is resolved. */
  lemma ResolveIsPlainEffect(w: World, p: nat, v: Value, conts: map<nat, nat>)
    requires WellFormed(w, conts) && p < |w.recs|
    requires forall k :: 0 <= k < |w.recs[p].handlers| ==> Plain(w.recs[p].handlers[k], w)
    ensures var w1 := w.(recs := w.recs[p := Rec(Resolved, v, [])]);
      (forall k :: 0 <= k < |w.recs[p].handlers| ==> w.recs[p].handlers[k].result < |w1.recs|) &&
      Run(w, [Settle(p, v)], conts) == PlainEffect(w1, w.recs[p].handlers, v)
  {
    var hs := w.recs[p].handlers;
    RunUnfold(w, [Settle(p, v)], conts);
    var n := SettleStep(w, p, v, conts);
    assert n.pushed + [Settle(p, v)][1..] == FireAll(hs, v);
    assert forall k :: 0 <= k < |hs| ==> Plain(hs[k], n.w) by {
      forall k | 0 <= k < |hs|
        ensures Plain(hs[k], n.w)
      {
        assert Plain(hs[k], w);
      }
    }
    RunPlainIsEffect(n.w, hs, v, conts);
  }

  // ---------------------------------------------------------------- the public operations

  /** A world after an operation, and the promise the operation returned. */
  datatype Reg = Reg(w: World, id: nat)

  /**
   * `p.Then(cb)`, `cb` a user callback or null. On a settled promise the
   * callback runs at once and `p` itself is returned; a null callback throws
   * there, and the catch marks `p` Rejected. On a pending promise a fresh
   * result promise is created and a handler registered.
   */
  function ThenOn(w: World, p: nat, cb: Option<nat>): (g: Reg)
    requires p < |w.recs|
    ensures g.w.joins == w.joins
    ensures w.recs[p].state != Pending ==> g.id == p && |g.w.recs| == |w.recs|
    ensures w.recs[p].state != Pending && cb.Some? ==>
      g.w.recs == w.recs && g.w.trace == w.trace + [Called(cb.value, w.recs[p].value)]
    ensures w.recs[p].state != Pending && cb.None? ==>
      g.w.trace == w.trace && g.w.recs == w.recs[p := w.recs[p].(state := Rejected)]
    ensures w.recs[p].state == Pending ==>
      g.id == |w.recs| && |g.w.recs| == |w.recs| + 1 && g.w.recs[g.id] == Rec(Pending, Null, []) &&
      g.w.recs[p] == w.recs[p].(handlers := w.recs[p].handlers + [if cb.Some? then ThenH(User(cb.value), g.id) else ForwardH(g.id)]) &&
      g.w.trace == w.trace && forall i :: 0 <= i < |w.recs| && i != p ==> g.w.recs[i] == w.recs[i]
  {
    if w.recs[p].state != Pending then
      if cb.None? then Reg(w.(recs := w.recs[p := w.recs[p].(state := Rejected)]), p)
      else Reg(w.(trace := w.trace + [Called(cb.value, w.recs[p].value)]), p)
    else
      var r := |w.recs|;
      var w1 := AddRec(w, Pending);
      Reg(AddHandler(w1, p, if cb.Some? then ThenH(User(cb.value), r) else ForwardH(r)), r)
  }

  /**
   * `p.ContinueWith(fn)`. On a settled promise fn runs at once and its promise
   * is returned (a fresh resolved one when fn returns null); a null fn throws,
   * the catch marks `p` Rejected and returns a fresh resolved promise. On a
   * pending promise a fresh result promise is created and a handler registered.
   */
  function ContinueOn(w: World, p: nat, fn: Option<nat>, conts: map<nat, nat>): (g: Reg)
    requires WellFormed(w, conts) && p < |w.recs|
    ensures g.id < |g.w.recs| && |w.recs| <= |g.w.recs| && g.w.joins == w.joins
    ensures w.recs[p].state != Pending && fn.Some? ==>
      g.w.trace == w.trace + [Called(fn.value, w.recs[p].value)]
    ensures w.recs[p].state != Pending && fn.Some? && fn.value in conts ==>
      g.id == conts[fn.value] && g.w.recs == w.recs
    ensures w.recs[p].state != Pending && fn.Some? && fn.value !in conts ==>
      g.id == |w.recs| && g.w.recs == w.recs + [Rec(Resolved, Null, [])]
    ensures w.recs[p].state != Pending && fn.None? ==>
      g.id == |w.recs| && g.w.trace == w.trace &&
      g.w.recs == w.recs[p := w.recs[p].(state := Rejected)] + [Rec(Resolved, Null, [])]
    ensures w.recs[p].state == Pending ==>
      g.id == |w.recs| && |g.w.recs| == |w.recs| + 1 && g.w.recs[g.id] == Rec(Pending, Null, []) &&
      g.w.recs[p] == w.recs[p].(handlers := w.recs[p].handlers + [if fn.Some? then ContinueH(fn.value, g.id) else ForwardH(g.id)]) &&
      g.w.trace == w.trace && forall i :: 0 <= i < |w.recs| && i != p ==> g.w.recs[i] == w.recs[i]
  {
    if w.recs[p].state != Pending then
      if fn.None? then
        Reg(AddRec(w.(recs := w.recs[p := w.recs[p].(state := Rejected)]), Resolved), |w.recs|)
      else
        var w1 := w.(trace := w.trace + [Called(fn.value, w.recs[p].value)]);
        if fn.value in conts then Reg(w1, conts[fn.value])
        else Reg(AddRec(w1, Resolved), |w.recs|)
    else
      var r := |w.recs|;
      var w1 := AddRec(w, Pending);
      Reg(AddHandler(w1, p, if fn.Some? then ContinueH(fn.value, r) else ForwardH(r)), r)
  }

  lemma ThenOnWellFormed(w: World, p: nat, cb: Option<nat>, conts: map<nat, nat>)
    requires WellFormed(w, conts) && p < |w.recs|
    ensures WellFormed(ThenOn(w, p, cb).w, conts)
  {
    if w.recs[p].state != Pending {
      if cb.None? {
        var w' := ThenOn(w, p, cb).w;
        forall i | 0 <= i < |w'.recs|
          ensures RecOk(w'.recs[i], |w'.recs|, |w'.joins|)
        {
          assert RecOk(w.recs[i], |w.recs|, |w.joins|);
        }
      }
    } else {
      var r := |w.recs|;
      AddRecValid(w, Pending, conts);
      var w1 := AddRec(w, Pending);
      assert w1.recs[p] == w.recs[p];
      AddHandlerValid(w1, p, if cb.Some? then ThenH(User(cb.value), r) else ForwardH(r), conts);
    }
  }

  lemma ContinueOnWellFormed(w: World, p: nat, fn: Option<nat>, conts: map<nat, nat>)
    requires WellFormed(w, conts) && p < |w.recs|
    ensures WellFormed(ContinueOn(w, p, fn, conts).w, conts)
  {
    if w.recs[p].state != Pending {
      if fn.None? {
        var w0 := w.(recs := w.recs[p := w.recs[p].(state := Rejected)]);
        forall i | 0 <= i < |w0.recs|
          ensures RecOk(w0.recs[i], |w0.recs|, |w0.joins|)
        {
          assert RecOk(w.recs[i], |w.recs|, |w.joins|);
        }
        AddRecValid(w0, Resolved, conts);
      } else {
        var w1 := w.(trace := w.trace + [Called(fn.value, w.recs[p].value)]);
        AddRecValid(w1, Resolved, conts);
      }
    } else {
      var r := |w.recs|;
      AddRecValid(w, Pending, conts);
      var w1 := AddRec(w, Pending);
      assert w1.recs[p] == w.recs[p];
      AddHandlerValid(w1, p, if fn.Some? then ContinueH(fn.value, r) else ForwardH(r), conts);
    }
  }

  /**
   * `Then` on a pending promise whose handlers are plain, followed by
   * `Resolve(v)`: the earlier callbacks run, then this callback, once, with
   * `v`, and the promise `Then` returned ends Resolved with `v`.
   */
  lemma ThenThenResolve(w: World, p: nat, c: nat, v: Value, conts: map<nat, nat>)
    requires WellFormed(w, conts) && p < |w.recs| && w.recs[p].state == Pending
    requires forall k :: 0 <= k < |w.recs[p].handlers| ==> Plain(w.recs[p].handlers[k], w)
    ensures var g := ThenOn(w, p, Some(c));
      WellFormed(g.w, conts) &&
      var r := Run(g.w, [Settle(p, v)], conts);
      r.trace == w.trace + Calls(w.recs[p].handlers, v) + [Called(c, v)] &&
      r.recs[p] == Rec(Resolved, v, []) && r.recs[g.id] == Rec(Resolved, v, [])
  {
    var g := ThenOn(w, p, Some(c));
    var hs := w.recs[p].handlers;
    var h := ThenH(User(c), g.id);
    ThenKeepsPlain(w, p, c, conts);
    ResolveRunsHandlersInOrder(g.w, p, v, conts);
    var r := Run(g.w, [Settle(p, v)], conts);
    assert (hs + [h])[|hs|] == h;
    assert r.recs[g.id] == Rec(Resolved, v, []);
    CallsAppend(hs, [h], v);
    assert Calls([h], v) == [Called(c, v)] by {
      assert [h][1..] == [];
    }
    calc {
      r.trace;
      w.trace + Calls(hs + [h], v);
      w.trace + (Calls(hs, v) + [Called(c, v)]);
      { Assoc(w.trace, Calls(hs, v), [Called(c, v)]); }
      w.trace + Calls(hs, v) + [Called(c, v)];
    }
  }

  /** `Then(c)` on a pending promise with plain handlers leaves only plain handlers on it. */
  lemma ThenKeepsPlain(w: World, p: nat, c: nat, conts: map<nat, nat>)
    requires WellFormed(w, conts) && p < |w.recs| && w.recs[p].state == Pending
    requires forall k :: 0 <= k < |w.recs[p].handlers| ==> Plain(w.recs[p].handlers[k], w)
    ensures var g := ThenOn(w, p, Some(c));
      WellFormed(g.w, conts) && p < |g.w.recs| && g.w.trace == w.trace &&
      g.w.recs[p].handlers == w.recs[p].handlers + [ThenH(User(c), g.id)] &&
      forall k :: 0 <= k < |g.w.recs[p].handlers| ==> Plain(g.w.recs[p].handlers[k], g.w)
  {
    var g := ThenOn(w, p, Some(c));
    ThenOnWellFormed(w, p, Some(c), conts);
    var hs := w.recs[p].handlers;
    var h := ThenH(User(c), g.id);
    assert g.w.recs[p].handlers == hs + [h];
    forall k | 0 <= k < |hs + [h]|
      ensures Plain((hs + [h])[k], g.w)
    {
      if k < |hs| {
        assert Plain(hs[k], w);
        assert (hs + [h])[k] == hs[k];
        assert hs[k].result != p by {
          assert w.recs[hs[k].result].handlers == [];
        }
      }
    }
  }

  lemma {:induction false} CallsAppend(a: seq<Handler>, b: seq<Handler>, v: Value)
    ensures Calls(a + b, v) == Calls(a, v) + Calls(b, v)
  {
    if a == [] {
      assert a + b == b;
    } else {
      assert (a + b)[0] == a[0] && (a + b)[1..] == a[1..] + b;
      CallsAppend(a[1..], b, v);
    }
  }

  /** One unfolding of Run, named so that proofs can step through a cascade. */
  lemma RunUnfold(w: World, stack: seq<Task>, conts: map<nat, nat>)
    requires WellFormed(w, conts) && TasksOk(stack, |w.recs|, |w.joins|) && stack != []
    ensures var n := Step(w, stack[0], conts);
      TasksOk(n.pushed + stack[1..], |n.w.recs|, |n.w.joins|) &&
      Run(w, stack, conts) == Run(n.w, n.pushed + stack[1..], conts)
  {
    var n := Step(w, stack[0], conts);
    TasksOkGrow(stack[1..], |w.recs|, |w.joins|, |n.w.recs|);
    TasksOkAppend(n.pushed, stack[1..], |n.w.recs|, |n.w.joins|);
  }

  lemma TasksOkAppend(a: seq<Task>, b: seq<Task>, n: nat, nj: nat)
    requires TasksOk(a, n, nj) && TasksOk(b, n, nj)
    ensures TasksOk(a + b, n, nj)
  {
    forall i | 0 <= i < |a + b|
      ensures TaskOk((a + b)[i], n, nj)
    {
      if i < |a| {
        assert (a + b)[i] == a[i];
      } else {
        assert (a + b)[i] == b[i - |a|];
      }
    }
  }

  /**
   * `ContinueWith(fn)` on a pending promise with no other handler, followed by
   * `Resolve(v)`: fn runs once with `v`; when fn returned null the result
   * resolves with null (the substituted `Promise.Resolved()`); when it returned
   * a settled promise the result resolves with that promise's value; when it
   * returned a pending promise the result stays pending and is chained to it.
   */
  lemma ContinueWithThenResolve(w: World, p: nat, fn: nat, v: Value, conts: map<nat, nat>)
    requires WellFormed(w, conts) && p < |w.recs| && w.recs[p] == Rec(Pending, Null, [])
    ensures var g := ContinueOn(w, p, Some(fn), conts);
      WellFormed(g.w, conts) &&
      var r := Run(g.w, [Settle(p, v)], conts);
      r.trace == w.trace + [Called(fn, v)] &&
      r.recs[p] == Rec(Resolved, v, []) &&
      (fn !in conts ==> r.recs[g.id] == Rec(Resolved, Null, [])) &&
      (fn in conts && conts[fn] == p ==> r.recs[g.id] == Rec(Resolved, v, [])) &&
      (fn in conts && conts[fn] != p && w.recs[conts[fn]].state != Pending ==>
        r.recs[g.id] == Rec(Resolved, w.recs[conts[fn]].value, [])) &&
      (fn in conts && conts[fn] != p && w.recs[conts[fn]].state == Pending ==>
        r.recs[g.id] == Rec(Pending, Null, []) &&
        r.recs[conts[fn]].handlers == w.recs[conts[fn]].handlers + [ThenH(ResolveWith(g.id), |w.recs| + 1)])
  {
    var g := ContinueOn(w, p, Some(fn), conts);
    ContinueFront(w, p, fn, v, conts);
    if fn !in conts {
      ContinueNullCase(w, p, fn, v, conts);
    } else if conts[fn] == p || w.recs[conts[fn]].state != Pending {
      ContinueSettledCase(w, p, fn, v, conts);
    } else {
      ContinuePendingCase(w, p, fn, v, conts);
    }
  }

  /** The first two steps of resolving `p` after ContinueWith: `p` resolves, then its one handler fires. */
  lemma ContinueFront(w: World, p: nat, fn: nat, v: Value, conts: map<nat, nat>)
    requires WellFormed(w, conts) && p < |w.recs| && w.recs[p] == Rec(Pending, Null, [])
    ensures var g := ContinueOn(w, p, Some(fn), conts);
      WellFormed(g.w, conts) && g.id == |w.recs| &&
      var w1 := g.w.(recs := g.w.recs[p := Rec(Resolved, v, [])]);
      WellFormed(w1, conts) && HandlerOk(ContinueH(fn, g.id), |w1.recs|, |w1.joins|) &&
      w1.trace == w.trace && |w1.recs| == |w.recs| + 1 && w1.recs[g.id] == Rec(Pending, Null, []) &&
      (forall i :: 0 <= i < |w.recs| && i != p ==> w1.recs[i] == w.recs[i]) &&
      var n := FireStep(w1, ContinueH(fn, g.id), v, conts);
      Run(g.w, [Settle(p, v)], conts) == Run(n.w, n.pushed, conts)
  {
    var g := ContinueOn(w, p, Some(fn), conts);
    ContinueOnWellFormed(w, p, Some(fn), conts);
    var id := g.id;
    assert g.w.recs[p].handlers == [ContinueH(fn, id)];
    RunUnfold(g.w, [Settle(p, v)], conts);
    var n1 := Step(g.w, Settle(p, v), conts);
    assert n1.pushed + [Settle(p, v)][1..] == [Fire(ContinueH(fn, id), v)];
    RunUnfold(n1.w, [Fire(ContinueH(fn, id), v)], conts);
    var n2 := Step(n1.w, Fire(ContinueH(fn, id), v), conts);
    assert n2.pushed + [Fire(ContinueH(fn, id), v)][1..] == n2.pushed;
  }

  lemma ContinueNullCase(w: World, p: nat, fn: nat, v: Value, conts: map<nat, nat>)
    requires WellFormed(w, conts) && p < |w.recs| && w.recs[p] == Rec(Pending, Null, []) && fn !in conts
    ensures var g := ContinueOn(w, p, Some(fn), conts);
      WellFormed(g.w, conts) &&
      var r := Run(g.w, [Settle(p, v)], conts);
      r.trace == w.trace + [Called(fn, v)] && r.recs[p] == Rec(Resolved, v, []) && r.recs[g.id] == Rec(Resolved, Null, [])
  {
    var g := ContinueOn(w, p, Some(fn), conts);
    ContinueFront(w, p, fn, v, conts);
    var w1 := g.w.(recs := g.w.recs[p := Rec(Resolved, v, [])]);
    var w2 := w1.(trace := w1.trace + [Called(fn, v)]);
    AddRecValid(w2, Resolved, conts);
    var n := ChainStep(AddRec(w2, Resolved), |w2.recs|, g.id, conts);
    assert n == FireStep(w1, ContinueH(fn, g.id), v, conts);
    assert n.pushed == [Settle(g.id, Null)] && n.w == AddRec(w2, Resolved);
    RunSingleSettle(n.w, g.id, Null, conts);
  }

  lemma ContinueSettledCase(w: World, p: nat, fn: nat, v: Value, conts: map<nat, nat>)
    requires WellFormed(w, conts) && p < |w.recs| && w.recs[p] == Rec(Pending, Null, [])
    requires fn in conts && (conts[fn] == p || w.recs[conts[fn]].state != Pending)
    ensures var g := ContinueOn(w, p, Some(fn), conts);
      WellFormed(g.w, conts) &&
      var r := Run(g.w, [Settle(p, v)], conts);
      r.trace == w.trace + [Called(fn, v)] && r.recs[p] == Rec(Resolved, v, []) &&
      r.recs[g.id] == Rec(Resolved, if conts[fn] == p then v else w.recs[conts[fn]].value, [])
  {
    var g := ContinueOn(w, p, Some(fn), conts);
    ContinueFront(w, p, fn, v, conts);
    var q := conts[fn];
    var w1 := g.w.(recs := g.w.recs[p := Rec(Resolved, v, [])]);
    var w2 := w1.(trace := w1.trace + [Called(fn, v)]);
    assert q < |w.recs|;
    assert w2.recs[q] == if q == p then Rec(Resolved, v, []) else w.recs[q];
    var n := ChainStep(w2, q, g.id, conts);
    assert n == FireStep(w1, ContinueH(fn, g.id), v, conts);
    assert n.pushed == [Settle(g.id, w2.recs[q].value)] && n.w == w2;
    RunSingleSettle(w2, g.id, w2.recs[q].value, conts);
  }

  lemma ContinuePendingCase(w: World, p: nat, fn: nat, v: Value, conts: map<nat, nat>)
    requires WellFormed(w, conts) && p < |w.recs| && w.recs[p] == Rec(Pending, Null, [])
    requires fn in conts && conts[fn] != p && w.recs[conts[fn]].state == Pending
    ensures var g := ContinueOn(w, p, Some(fn), conts);
      WellFormed(g.w, conts) &&
      var r := Run(g.w, [Settle(p, v)], conts);
      r.trace == w.trace + [Called(fn, v)] && r.recs[p] == Rec(Resolved, v, []) &&
      r.recs[g.id] == Rec(Pending, Null, []) &&
      r.recs[conts[fn]].handlers == w.recs[conts[fn]].handlers + [ThenH(ResolveWith(g.id), |w.recs| + 1)]
  {
    var g := ContinueOn(w, p, Some(fn), conts);
    ContinueFront(w, p, fn, v, conts);
    var q := conts[fn];
    var w1 := g.w.(recs := g.w.recs[p := Rec(Resolved, v, [])]);
    var w2 := w1.(trace := w1.trace + [Called(fn, v)]);
    assert q < |w.recs| && w2.recs[q] == w.recs[q];
    var n := ChainStep(w2, q, g.id, conts);
    assert n == FireStep(w1, ContinueH(fn, g.id), v, conts);
    var w3 := AddRec(w2, Pending);
    assert w3.recs[q] == w.recs[q] && w3.recs[g.id] == Rec(Pending, Null, []) && w3.recs[p] == Rec(Resolved, v, []);
    assert n.pushed == [] && n.w == AddHandler(w3, q, ThenH(ResolveWith(g.id), |w2.recs|));
  }

  /**
   * The chaining half of ContinueWith: when the promise fn returned later
   * resolves with `u` (the chain being its only handler), the ContinueWith
   * result resolves with `u` too.
   */
  lemma ChainedPromiseResolves(w: World, q: nat, t: nat, f: nat, u: Value, conts: map<nat, nat>)
    requires WellFormed(w, conts) && q < |w.recs| && w.recs[q].handlers == [ThenH(ResolveWith(t), f)]
    requires t < |w.recs| && f < |w.recs|
    requires w.recs[t] == Rec(Pending, Null, []) && w.recs[f] == Rec(Pending, Null, [])
    ensures var r := Run(w, [Settle(q, u)], conts);
      r.recs[q] == Rec(Resolved, u, []) && r.recs[t] == Rec(Resolved, u, []) && r.recs[f] == Rec(Resolved, u, []) &&
      r.trace == w.trace
  {
    var h := ThenH(ResolveWith(t), f);
    assert RecOk(w.recs[q], |w.recs|, |w.joins|);
    assert w.recs[q].handlers[0] == h;
    RunUnfold(w, [Settle(q, u)], conts);
    var n1 := Step(w, Settle(q, u), conts);
    assert n1.pushed + [Settle(q, u)][1..] == [Fire(h, u)];
    RunUnfold(n1.w, [Fire(h, u)], conts);
    var n2 := Step(n1.w, Fire(h, u), conts);
    assert n2.w == n1.w && n2.pushed == [Settle(t, u), Settle(f, u)];
    assert n2.pushed + [Fire(h, u)][1..] == [Settle(t, u), Settle(f, u)];
    RunTwoSettles(n1.w, t, f, u, conts);
  }

  /** Resolving two promises that have no handlers. */
  lemma RunTwoSettles(w: World, t: nat, f: nat, u: Value, conts: map<nat, nat>)
    requires WellFormed(w, conts) && t < |w.recs| && f < |w.recs| && w.recs[t].handlers == [] && w.recs[f].handlers == []
    ensures TasksOk([Settle(t, u), Settle(f, u)], |w.recs|, |w.joins|)
    ensures Run(w, [Settle(t, u), Settle(f, u)], conts) == w.(recs := w.recs[t := Rec(Resolved, u, [])][f := Rec(Resolved, u, [])])
  {
    assert [Settle(t, u), Settle(f, u)] == [Settle(t, u)] + [Settle(f, u)];
    RunAppend(w, [Settle(t, u)], [Settle(f, u)], conts);
    RunSingleSettle(w, t, u, conts);
    var w3 := w.(recs := w.recs[t := Rec(Resolved, u, [])]);
    RunSingleSettle(w3, f, u, conts);
  }

  // ---------------------------------------------------------------- All

  /** The countdown lambda run at once, on an input that is already settled. */
  function CountDownNow(w: World, j: nat, conts: map<nat, nat>): (w': World)
    requires WellFormed(w, conts) && j < |w.joins|
    ensures WellFormed(w', conts) && |w.recs| <= |w'.recs| && |w'.joins| == |w.joins|
  {
    var jn := w.joins[j];
    var w1 := w.(joins := w.joins[j := jn.(remaining := jn.remaining - 1)]);
    CountDownKeeps(w, j, conts);
    if jn.remaining - 1 <= 0 && w.recs[jn.result].state == Pending then
      Run(w1, [Settle(jn.result, JoinValue(w.recs, jn.inputs))], conts)
    else w1
  }

  /**
   * One turn of AllInternal's loop: a null input is replaced by a fresh
   * resolved promise, the input is stored in the captured array, and the
   * countdown is attached with `Then`.
   */
  function AllStep(w: World, j: nat, input: Option<nat>, conts: map<nat, nat>): (w': World)
    requires WellFormed(w, conts) && j < |w.joins| && (input.Some? ==> input.value < |w.recs|)
    ensures WellFormed(w', conts) && |w.recs| <= |w'.recs| && |w'.joins| == |w.joins|
  {
    var w1 := if input.None? then AddRec(w, Resolved) else w;
    AddRecValid(w, Resolved, conts);
    var q := if input.None? then |w.recs| else input.value;
    var jn := w1.joins[j];
    var w2 := w1.(joins := w1.joins[j := jn.(inputs := jn.inputs + [q])]);
    assert WellFormed(w2, conts) by {
      assert JoinOk(jn, |w1.recs|);
      forall i | 0 <= i < |w2.recs|
        ensures RecOk(w2.recs[i], |w2.recs|, |w2.joins|)
      {
        assert RecOk(w1.recs[i], |w1.recs|, |w1.joins|);
      }
      forall i | 0 <= i < |w2.joins|
        ensures JoinOk(w2.joins[i], |w2.recs|)
      {
        assert JoinOk(w1.joins[i], |w1.recs|);
        if i == j {
          var ins := jn.inputs + [q];
          assert forall k :: 0 <= k < |ins| ==> ins[k] == if k < |jn.inputs| then jn.inputs[k] else q;
        }
      }
    }
    if w2.recs[q].state != Pending then CountDownNow(w2, j, conts)
    else
      AddRecValid(w2, Pending, conts);
      var w3 := AddRec(w2, Pending);
      assert w3.recs[q] == w2.recs[q];
      AddHandlerValid(w3, q, ThenH(CountDown(j), |w2.recs|), conts);
      AddHandler(w3, q, ThenH(CountDown(j), |w2.recs|))
  }

  predicate InputsOk(inputs: seq<Option<nat>>, n: nat)
  {
    forall k :: 0 <= k < |inputs| && inputs[k].Some? ==> inputs[k].value < n
  }

  /** The remaining turns of AllInternal's loop, from input `i` on. */
  function AllFrom(w: World, j: nat, inputs: seq<Option<nat>>, i: nat, conts: map<nat, nat>): (w': World)
    requires WellFormed(w, conts) && j < |w.joins| && InputsOk(inputs, |w.recs|) && i <= |inputs|
    ensures WellFormed(w', conts) && |w.recs| <= |w'.recs| && |w'.joins| == |w.joins|
    decreases |inputs| - i
  {
    if i == |inputs| then w
    else
      var w' := AllStep(w, j, inputs[i], conts);
      AllFrom(w', j, inputs, i + 1, conts)
  }

  /**
   * `Promise.All(inputs)`, inputs possibly null: no input gives a fresh
   * resolved promise; otherwise a fresh pending result and a join whose
   * counter starts at the number of inputs.
   */
  function AllOf(w: World, inputs: seq<Option<nat>>, conts: map<nat, nat>): (g: Reg)
    requires WellFormed(w, conts) && InputsOk(inputs, |w.recs|)
    ensures WellFormed(g.w, conts) && g.id == |w.recs| && g.id < |g.w.recs|
    ensures inputs == [] ==> g.w.recs[g.id] == Rec(Resolved, Null, [])
  {
    if inputs == [] then
      AddRecValid(w, Resolved, conts);
      Reg(AddRec(w, Resolved), |w.recs|)
    else
      var r := |w.recs|;
      AddRecValid(w, Pending, conts);
      var w1 := AddRec(w, Pending);
      var w2 := w1.(joins := w1.joins + [Join(|inputs|, [], r)]);
      assert WellFormed(w2, conts) by {
        forall i | 0 <= i < |w2.recs|
          ensures RecOk(w2.recs[i], |w2.recs|, |w2.joins|)
        {
          assert RecOk(w1.recs[i], |w1.recs|, |w1.joins|);
        }
        forall i | 0 <= i < |w2.joins|
          ensures JoinOk(w2.joins[i], |w2.recs|)
        {
          if i < |w1.joins| {
            assert JoinOk(w1.joins[i], |w1.recs|);
          }
        }
      }
      Reg(AllFrom(w2, |w.joins|, inputs, 0, conts), r)
  }

  lemma CountDownNowCases(w: World, j: nat, conts: map<nat, nat>)
    requires WellFormed(w, conts) && j < |w.joins|
    ensures var jn := w.joins[j];
      var w1 := w.(joins := w.joins[j := jn.(remaining := jn.remaining - 1)]);
      WellFormed(w1, conts) && jn.result < |w.recs| &&
      (forall k :: 0 <= k < |jn.inputs| ==> jn.inputs[k] < |w.recs|) &&
      CountDownNow(w, j, conts) ==
        if jn.remaining - 1 <= 0 && w.recs[jn.result].state == Pending
        then Run(w1, [Settle(jn.result, JoinValue(w.recs, jn.inputs))], conts) else w1
  {
    CountDownKeeps(w, j, conts);
  }

  /** The promises in the captured array so far are settled, carry `vals`, and are not the result. */
  predicate SettledPrefix(w: World, ids: seq<nat>, r: nat, vals: seq<Value>)
  {
    |ids| <= |vals| &&
    forall k :: 0 <= k < |ids| ==>
      (ids[k] < |w.recs| && ids[k] != r && w.recs[ids[k]].state != Pending && w.recs[ids[k]].value == vals[k])
  }

  /**
   * What holds after `i` turns of All over inputs that are all settled: the
   * captured array holds `i` settled promises carrying `vals[..i]`, the counter
   * is down by `i`, and the result is still pending until the last turn, after
   * which it is Resolved with all the values.
   */
  predicate AllSettledInv(w: World, j: nat, r: nat, vals: seq<Value>, i: nat)
  {
    j < |w.joins| && r < |w.recs| && i <= |vals| &&
    var jn := w.joins[j];
    jn.result == r && |jn.inputs| == i && jn.remaining == |vals| - i &&
    (i < |vals| ==> w.recs[r] == Rec(Pending, Null, [])) &&
    (i == |vals| ==> w.recs[r] == Rec(Resolved, Many(vals), [])) &&
    SettledPrefix(w, jn.inputs, r, vals)
  }

  /** The upcoming inputs are settled promises (or null) carrying `vals`, other than the result. */
  predicate SettledInputs(w: World, inputs: seq<Option<nat>>, r: nat, vals: seq<Value>)
  {
    |inputs| == |vals| &&
    forall k :: 0 <= k < |inputs| ==>
      if inputs[k].Some? then
        inputs[k].value < |w.recs| && inputs[k].value != r &&
        w.recs[inputs[k].value].state != Pending && w.recs[inputs[k].value].value == vals[k]
      else vals[k] == Null
  }

  /** Worlds that agree on the first `n` records keep settled prefixes and inputs. */
  lemma SettledStable(w: World, w': World, inputs: seq<Option<nat>>, ids: seq<nat>, r: nat, vals: seq<Value>)
    requires |w.recs| <= |w'.recs| && forall x :: 0 <= x < |w.recs| && x != r ==> w'.recs[x] == w.recs[x]
    requires SettledPrefix(w, ids, r, vals) && SettledInputs(w, inputs, r, vals)
    ensures SettledPrefix(w', ids, r, vals) && SettledInputs(w', inputs, r, vals)
  {
  }

  /** The first half of a turn of All: the input (or its stand-in) is added to the captured array. */
  function StoreInput(w: World, j: nat, input: Option<nat>): (w2: World)
    requires j < |w.joins| && (input.Some? ==> input.value < |w.recs|)
  {
    var w1 := if input.None? then AddRec(w, Resolved) else w;
    var q := if input.None? then |w.recs| else input.value;
    w1.(joins := w1.joins[j := w1.joins[j].(inputs := w1.joins[j].inputs + [q])])
  }

  lemma StoreSettledInput(w: World, j: nat, inputs: seq<Option<nat>>, i: nat, r: nat, vals: seq<Value>, conts: map<nat, nat>)
    requires WellFormed(w, conts) && i < |inputs| && InputsOk(inputs, |w.recs|)
    requires AllSettledInv(w, j, r, vals, i) && SettledInputs(w, inputs, r, vals)
    ensures var w2 := StoreInput(w, j, inputs[i]);
      WellFormed(w2, conts) && AllStep(w, j, inputs[i], conts) == CountDownNow(w2, j, conts) &&
      j < |w2.joins| && |w2.joins[j].inputs| == i + 1 && w2.joins[j].result == r &&
      w2.joins[j].remaining == |vals| - i && w2.recs[r] == Rec(Pending, Null, []) &&
      SettledPrefix(w2, w2.joins[j].inputs, r, vals) && SettledInputs(w2, inputs, r, vals) &&
      InputsOk(inputs, |w2.recs|)
  {
    var input := inputs[i];
    var w1 := if input.None? then AddRec(w, Resolved) else w;
    var q := if input.None? then |w.recs| else input.value;
    var jn := w1.joins[j];
    var ins := jn.inputs + [q];
    var w2 := StoreInput(w, j, input);
    AddRecValid(w, Resolved, conts);
    SettledStable(w, w2, inputs, jn.inputs, r, vals);
    assert w2.recs[q].state != Pending && w2.recs[q].value == vals[i];
    assert SettledPrefix(w2, ins, r, vals) by {
      forall k | 0 <= k < |ins|
        ensures ins[k] < |w2.recs| && ins[k] != r && w2.recs[ins[k]].state != Pending && w2.recs[ins[k]].value == vals[k]
      {
        if k < i {
          assert ins[k] == jn.inputs[k];
        } else {
          assert ins[k] == q;
        }
      }
    }
  }

  lemma AllStepSettled(w: World, j: nat, inputs: seq<Option<nat>>, i: nat, r: nat, vals: seq<Value>, conts: map<nat, nat>)
    requires WellFormed(w, conts) && i < |inputs| && InputsOk(inputs, |w.recs|)
    requires AllSettledInv(w, j, r, vals, i) && SettledInputs(w, inputs, r, vals)
    ensures var w' := AllStep(w, j, inputs[i], conts);
      AllSettledInv(w', j, r, vals, i + 1) && SettledInputs(w', inputs, r, vals) &&
      InputsOk(inputs, |w'.recs|)
  {
    StoreSettledInput(w, j, inputs, i, r, vals, conts);
    var w2 := StoreInput(w, j, inputs[i]);
    var ins := w2.joins[j].inputs;
    CountDownNowCases(w2, j, conts);
    var w3 := w2.(joins := w2.joins[j := w2.joins[j].(remaining := w2.joins[j].remaining - 1)]);
    if i + 1 == |vals| {
      var v := JoinValue(w2.recs, ins);
      assert v == Many(vals);
      RunSingleSettle(w3, r, v, conts);
      SettledStable(w3, Run(w3, [Settle(r, v)], conts), inputs, ins, r, vals);
    }
  }

  lemma {:induction false} AllFromSettled(w: World, j: nat, inputs: seq<Option<nat>>, i: nat, r: nat, vals: seq<Value>, conts: map<nat, nat>)
    requires WellFormed(w, conts) && i <= |inputs| && InputsOk(inputs, |w.recs|)
    requires AllSettledInv(w, j, r, vals, i) && SettledInputs(w, inputs, r, vals)
    ensures AllSettledInv(AllFrom(w, j, inputs, i, conts), j, r, vals, |vals|)
    decreases |inputs| - i
  {
    if i < |inputs| {
      AllStepSettled(w, j, inputs, i, r, vals, conts);
      AllFromSettled(AllStep(w, j, inputs[i], conts), j, inputs, i + 1, r, vals, conts);
    }
  }

  /**
   * `All` over inputs that are all settled or null resolves its result at
   * once, with the inputs' values in input order (null for a null input).
   */
  lemma AllOfSettledInputs(w: World, inputs: seq<Option<nat>>, vals: seq<Value>, conts: map<nat, nat>)
    requires WellFormed(w, conts) && InputsOk(inputs, |w.recs|) && inputs != []
    requires SettledInputs(w, inputs, |w.recs|, vals)
    ensures var g := AllOf(w, inputs, conts);
      g.w.recs[g.id] == Rec(Resolved, Many(vals), [])
  {
    var r := |w.recs|;
    AddRecValid(w, Pending, conts);
    var w1 := AddRec(w, Pending);
    var w2 := w1.(joins := w1.joins + [Join(|inputs|, [], r)]);
    var j := |w.joins|;
    assert WellFormed(w2, conts) by {
      forall i | 0 <= i < |w2.recs|
        ensures RecOk(w2.recs[i], |w2.recs|, |w2.joins|)
      {
        assert RecOk(w1.recs[i], |w1.recs|, |w1.joins|);
      }
      forall i | 0 <= i < |w2.joins|
        ensures JoinOk(w2.joins[i], |w2.recs|)
      {
        if i < |w1.joins| {
          assert JoinOk(w1.joins[i], |w1.recs|);
        }
      }
    }
    SettledStable(w, w2, inputs, [], r, vals);
    assert AllSettledInv(w2, j, r, vals, 0);
    AllFromSettled(w2, j, inputs, 0, r, vals, conts);
  }

  /** Input `k` of an All call is a promise that was pending when All was called. */
  predicate PendingInput(w0: World, inputs: seq<Option<nat>>, k: nat)
  {
    k < |inputs| && inputs[k].Some? && inputs[k].value < |w0.recs| && w0.recs[inputs[k].value].state == Pending
  }

  /**
   * What holds after `i` turns of All: the counter still counts every turn to
   * come, plus one if a pending input was met; while it is positive the result
   * is untouched; and no other promise of the original world changed state.
   */
  predicate AllPendingInv(w: World, w0: World, j: nat, r: nat, n: nat, i: nat, saw: bool)
  {
    j < |w.joins| && r < |w.recs| && |w0.recs| <= |w.recs| && w.joins[j].result == r &&
    w.joins[j].remaining >= n - i + (if saw then 1 else 0) &&
    (w.joins[j].remaining >= 1 ==> w.recs[r] == Rec(Pending, Null, [])) &&
    forall x :: 0 <= x < |w0.recs| && x != r ==> w.recs[x].state == w0.recs[x].state
  }

  /** AllStep is StoreInput followed by either an immediate countdown or a registered one. */
  lemma AllStepUnfold(w: World, j: nat, input: Option<nat>, conts: map<nat, nat>)
    requires WellFormed(w, conts) && j < |w.joins| && (input.Some? ==> input.value < |w.recs|)
    ensures var w2 := StoreInput(w, j, input);
      var q := if input.None? then |w.recs| else input.value;
      WellFormed(w2, conts) && |w.recs| <= |w2.recs| && q < |w2.recs| && |w2.joins| == |w.joins| &&
      (forall x :: 0 <= x < |w.recs| ==> w2.recs[x] == w.recs[x]) &&
      w2.joins[j].remaining == w.joins[j].remaining && w2.joins[j].result == w.joins[j].result &&
      (input.None? ==> w2.recs[q].state == Resolved) &&
      AllStep(w, j, input, conts) ==
        if w2.recs[q].state != Pending then CountDownNow(w2, j, conts)
        else AddHandler(AddRec(w2, Pending), q, ThenH(CountDown(j), |w2.recs|))
  {
    StoreInputWellFormed(w, j, input, conts);
  }

  /** An immediate countdown keeps the pending invariant one turn further on. */
  lemma CountDownPending(w2: World, w0: World, j: nat, r: nat, n: nat, i: nat, saw: bool, conts: map<nat, nat>)
    requires WellFormed(w2, conts) && i < n && AllPendingInv(w2, w0, j, r, n, i, saw)
    ensures AllPendingInv(CountDownNow(w2, j, conts), w0, j, r, n, i + 1, saw)
  {
    CountDownNowCases(w2, j, conts);
    var jn := w2.joins[j];
    var w3 := w2.(joins := w2.joins[j := jn.(remaining := jn.remaining - 1)]);
    if jn.remaining - 1 <= 0 && w2.recs[r].state == Pending {
      RunSingleSettle(w3, r, JoinValue(w2.recs, jn.inputs), conts);
    }
  }

  /** Registering the countdown on a pending input keeps the invariant, now with a pending input seen. */
  lemma RegisterPending(w2: World, w0: World, j: nat, q: nat, r: nat, n: nat, i: nat, saw: bool, conts: map<nat, nat>)
    requires i < n && q < |w2.recs| && q != r && AllPendingInv(w2, w0, j, r, n, i, saw)
    ensures AllPendingInv(AddHandler(AddRec(w2, Pending), q, ThenH(CountDown(j), |w2.recs|)), w0, j, r, n, i + 1, true)
  {
    var w3 := AddRec(w2, Pending);
    assert forall x :: 0 <= x < |w2.recs| ==> w3.recs[x] == w2.recs[x];
  }

  lemma AllStepPending(w: World, w0: World, j: nat, inputs: seq<Option<nat>>, i: nat, r: nat, saw: bool, conts: map<nat, nat>)
    requires WellFormed(w, conts) && i < |inputs| && InputsOk(inputs, |w0.recs|) && r == |w0.recs|
    requires AllPendingInv(w, w0, j, r, |inputs|, i, saw)
    ensures AllPendingInv(AllStep(w, j, inputs[i], conts), w0, j, r, |inputs|, i + 1, saw || PendingInput(w0, inputs, i))
  {
    var input := inputs[i];
    var q := if input.None? then |w.recs| else input.value;
    AllStepUnfold(w, j, input, conts);
    var w2 := StoreInput(w, j, input);
    assert AllPendingInv(w2, w0, j, r, |inputs|, i, saw);
    if input.Some? {
      assert w2.recs[q] == w.recs[q];
      assert w2.recs[q].state == Pending <==> PendingInput(w0, inputs, i);
    }
    if w2.recs[q].state != Pending {
      CountDownPending(w2, w0, j, r, |inputs|, i, saw, conts);
    } else {
      RegisterPending(w2, w0, j, q, r, |inputs|, i, saw, conts);
    }
  }

  /** Some input from `i` on was pending when All was called. */
  predicate PendingFrom(w0: World, inputs: seq<Option<nat>>, i: nat)
  {
    exists k :: i <= k < |inputs| && PendingInput(w0, inputs, k)
  }

  lemma PendingFromCons(w0: World, inputs: seq<Option<nat>>, i: nat)
    requires i < |inputs|
    ensures PendingFrom(w0, inputs, i) == (PendingInput(w0, inputs, i) || PendingFrom(w0, inputs, i + 1))
  {
    if PendingFrom(w0, inputs, i) && !PendingInput(w0, inputs, i) {
      var k :| i <= k < |inputs| && PendingInput(w0, inputs, k);
      assert i + 1 <= k;
    }
  }

  lemma {:induction false} AllFromPending(w: World, w0: World, j: nat, inputs: seq<Option<nat>>, i: nat, r: nat, saw: bool, conts: map<nat, nat>)
    requires WellFormed(w, conts) && i <= |inputs| && InputsOk(inputs, |w0.recs|) && r == |w0.recs|
    requires InputsOk(inputs, |w.recs|)
    requires AllPendingInv(w, w0, j, r, |inputs|, i, saw)
    ensures AllPendingInv(AllFrom(w, j, inputs, i, conts), w0, j, r, |inputs|, |inputs|, saw || PendingFrom(w0, inputs, i))
    decreases |inputs| - i
  {
    if i < |inputs| {
      AllStepPending(w, w0, j, inputs, i, r, saw, conts);
      var w' := AllStep(w, j, inputs[i], conts);
      var saw' := saw || PendingInput(w0, inputs, i);
      AllFromPending(w', w0, j, inputs, i + 1, r, saw', conts);
      PendingFromCons(w0, inputs, i);
    }
  }

  /**
   * `All` does not resolve its result while one of its inputs is still
   * pending: the countdown of that input has not run, so the counter is
   * still positive.
   */
  lemma AllOfPendingInput(w: World, inputs: seq<Option<nat>>, k: nat, conts: map<nat, nat>)
    requires WellFormed(w, conts) && InputsOk(inputs, |w.recs|) && PendingInput(w, inputs, k)
    ensures var g := AllOf(w, inputs, conts);
      g.w.recs[g.id] == Rec(Pending, Null, []) && g.w.joins[|w.joins|].remaining >= 1
  {
    var r := |w.recs|;
    AddRecValid(w, Pending, conts);
    var w1 := AddRec(w, Pending);
    var j := |w.joins|;
    AddJoinWellFormed(w1, Join(|inputs|, [], r), conts);
    var w2 := w1.(joins := w1.joins + [Join(|inputs|, [], r)]);
    assert AllPendingInv(w2, w, j, r, |inputs|, 0, false);
    AllFromPending(w2, w, j, inputs, 0, r, false, conts);
    assert PendingFrom(w, inputs, 0);
  }

  // ---------------------------------------------------------------- the promise objects

  /**
   * All promises of a program, their handler lists, the captured state of the
   * All calls, and the trace of user callbacks. `conts` is the environment's
   * choice of what each user ContinueWith callback returns.
   */
  class PromiseWorld {
    var recs: seq<Rec>
    var joins: seq<Join>
    var trace: seq<Event>
    var conts: map<nat, nat>

    function State(): World
      reads this
    {
      World(recs, joins, trace)
    }

    predicate Valid()
      reads this
    {
      WellFormed(State(), conts)
    }

    constructor()
      ensures Valid() && recs == [] && joins == [] && trace == [] && conts == map[]
    {
      recs, joins, trace, conts := [], [], [], map[];
    }

    /** `new Promise()`: a fresh pending promise. */
    method NewPromise() returns (p: nat)
      requires Valid()
      modifies this
      ensures Valid() && conts == old(conts)
      ensures State() == AddRec(old(State()), Pending) && p == old(|recs|)
      ensures recs[p] == Rec(Pending, Null, [])
    {
      AddRecValid(State(), Pending, conts);
      p := |recs|;
      recs := recs + [Rec(Pending, Null, [])];
    }

    /** `Promise.Resolved()`: a fresh promise already Resolved, with a null value. */
    method ResolvedPromise() returns (p: nat)
      requires Valid()
      modifies this
      ensures Valid() && conts == old(conts)
      ensures State() == AddRec(old(State()), Resolved) && p == old(|recs|)
      ensures recs[p] == Rec(Resolved, Null, [])
    {
      AddRecValid(State(), Resolved, conts);
      p := |recs|;
      recs := recs + [Rec(Resolved, Null, [])];
    }

    /** The environment fixes which promise the user callback `fn` will return. */
    method WillReturn(fn: nat, q: nat)
      requires Valid() && q < |recs|
      modifies this
      ensures Valid() && State() == old(State()) && conts == old(conts)[fn := q]
    {
      conts := conts[fn := q];
    }

    /**
     * `Resolve(v)`: the promise becomes Resolved with `v` whatever its state,
     * and its handlers run, in order; the resolutions they trigger run nested,
     * depth first.
     */
    method Resolve(p: nat, v: Value)
      requires Valid() && p < |recs|
      modifies this
      ensures Valid() && conts == old(conts)
      ensures State() == Run(old(State()), [Settle(p, v)], conts)
    {
      var stack := [Settle(p, v)];
      assert TaskOk(stack[0], |recs|, |joins|);
      while stack != []
        invariant conts == old(conts)
        invariant WellFormed(State(), conts) && TasksOk(stack, |recs|, |joins|)
        invariant Run(State(), stack, conts) == Run(old(State()), [Settle(p, v)], conts)
        decreases Potential(recs) + StackWeight(stack)
      {
        RunUnfold(State(), stack, conts);
        var t := stack[0];
        var rest := stack[1..];
        assert StackWeight(stack) == TaskWeight(t) + StackWeight(rest);
        var pushed := StepOne(t);
        StackWeightAppend(pushed, rest);
        stack := pushed + rest;
      }
    }

    /** One task of a cascade. */
    method StepOne(t: Task) returns (pushed: seq<Task>)
      requires Valid() && TaskOk(t, |recs|, |joins|)
      modifies this
      ensures conts == old(conts)
      ensures State() == Step(old(State()), t, conts).w && pushed == Step(old(State()), t, conts).pushed
      ensures Potential(recs) + StackWeight(pushed) < old(Potential(recs)) + TaskWeight(t)
    {
      match t
      case Settle(q, u) =>
        pushed := SettleOne(q, u);
      case Fire(h, u) =>
        pushed := FireOne(h, u);
    }

    /** Stores state and value and detaches the handlers (`InvokeResolveHandlers`, `ClearHandlers`). */
    method SettleOne(q: nat, u: Value) returns (pushed: seq<Task>)
      requires Valid() && q < |recs|
      modifies this
      ensures conts == old(conts)
      ensures State() == SettleStep(old(State()), q, u, conts).w && pushed == SettleStep(old(State()), q, u, conts).pushed
    {
      var hs := recs[q].handlers;
      recs := recs[q := Rec(Resolved, u, [])];
      pushed := FireAll(hs, u);
    }

    /** Runs one detached handler. */
    method FireOne(h: Handler, u: Value) returns (pushed: seq<Task>)
      requires Valid() && HandlerOk(h, |recs|, |joins|)
      modifies this
      ensures conts == old(conts)
      ensures State() == FireStep(old(State()), h, u, conts).w && pushed == FireStep(old(State()), h, u, conts).pushed
    {
      match h
      case ForwardH(r) =>
        pushed := [Settle(r, u)];
      case ThenH(User(c), r) =>
        trace := trace + [Called(c, u)];
        pushed := [Settle(r, u)];
      case ThenH(ResolveWith(t), r) =>
        pushed := [Settle(t, u), Settle(r, u)];
      case ThenH(CountDown(j), r) =>
        var jn := joins[j];
        joins := joins[j := jn.(remaining := jn.remaining - 1)];
        if jn.remaining - 1 <= 0 && recs[jn.result].state == Pending {
          assert JoinOk(jn, |recs|);
          pushed := [Settle(jn.result, JoinValue(recs, jn.inputs)), Settle(r, u)];
        } else {
          pushed := [Settle(r, u)];
        }
      case ContinueH(fn, r) =>
        pushed := ContinueOne(fn, r, u);
    }

    /** The ContinueWith handler: run fn, then chain the result to the promise fn returned. */
    method ContinueOne(fn: nat, r: nat, u: Value) returns (pushed: seq<Task>)
      requires Valid() && r < |recs|
      modifies this
      ensures conts == old(conts)
      ensures State() == FireStep(old(State()), ContinueH(fn, r), u, conts).w
      ensures pushed == FireStep(old(State()), ContinueH(fn, r), u, conts).pushed
    {
      trace := trace + [Called(fn, u)];
      var q;
      if fn in conts {
        q := conts[fn];
      } else {
        q := |recs|;
        recs := recs + [Rec(Resolved, Null, [])];
      }
      if recs[q].state != Pending {
        pushed := [Settle(r, recs[q].value)];
      } else {
        var f := |recs|;
        recs := recs + [Rec(Pending, Null, [])];
        recs := recs[q := recs[q].(handlers := recs[q].handlers + [ThenH(ResolveWith(r), f)])];
        pushed := [];
      }
    }
  
    /** `p.Then(cb)`. */
    method Then(p: nat, cb: Option<nat>) returns (r: nat)
      requires Valid() && p < |recs|
      modifies this
      ensures Valid() && conts == old(conts)
      ensures State() == ThenOn(old(State()), p, cb).w && r == ThenOn(old(State()), p, cb).id
    {
      ThenOnWellFormed(State(), p, cb, conts);
      if recs[p].state != Pending {
        if cb.None? {
          recs := recs[p := recs[p].(state := Rejected)];
        } else {
          trace := trace + [Called(cb.value, recs[p].value)];
        }
        r := p;
      } else {
        r := |recs|;
        recs := recs + [Rec(Pending, Null, [])];
        var h := if cb.Some? then ThenH(User(cb.value), r) else ForwardH(r);
        recs := recs[p := recs[p].(handlers := recs[p].handlers + [h])];
      }
    }

    /** `p.ContinueWith(fn)`. */
    method ContinueWith(p: nat, fn: Option<nat>) returns (r: nat)
      requires Valid() && p < |recs|
      modifies this
      ensures Valid() && conts == old(conts)
      ensures State() == ContinueOn(old(State()), p, fn, conts).w && r == ContinueOn(old(State()), p, fn, conts).id
    {
      ContinueOnWellFormed(State(), p, fn, conts);
      if recs[p].state != Pending {
        if fn.None? {
          recs := recs[p := recs[p].(state := Rejected)];
          r := |recs|;
          recs := recs + [Rec(Resolved, Null, [])];
        } else {
          trace := trace + [Called(fn.value, recs[p].value)];
          if fn.value in conts {
            r := conts[fn.value];
          } else {
            r := |recs|;
            recs := recs + [Rec(Resolved, Null, [])];
          }
        }
      } else {
        r := |recs|;
        recs := recs + [Rec(Pending, Null, [])];
        var h := if fn.Some? then ContinueH(fn.value, r) else ForwardH(r);
        recs := recs[p := recs[p].(handlers := recs[p].handlers + [h])];
      }
    }

    /** `Promise.All(inputs)`: AllInternal's loop over the input array. */
    method All(inputs: seq<Option<nat>>) returns (r: nat)
      requires Valid() && InputsOk(inputs, |recs|)
      modifies this
      ensures Valid() && conts == old(conts)
      ensures State() == AllOf(old(State()), inputs, conts).w && r == AllOf(old(State()), inputs, conts).id
    {
      if inputs == [] {
        r := ResolvedPromise();
        return;
      }
      r := NewPromise();
      var j := |joins|;
      AddJoinWellFormed(State(), Join(|inputs|, [], r), conts);
      joins := joins + [Join(|inputs|, [], r)];
      ghost var start := State();
      var i := 0;
      while i < |inputs|
        invariant 0 <= i <= |inputs| && conts == old(conts)
        invariant Valid() && j < |joins| && InputsOk(inputs, |recs|)
        invariant AllFrom(State(), j, inputs, i, conts) == AllFrom(start, j, inputs, 0, conts)
        decreases |inputs| - i
      {
        AllTurn(j, inputs[i]);
        i := i + 1;
      }
    }

    /** One turn of AllInternal's loop. */
    method AllTurn(j: nat, input: Option<nat>)
      requires Valid() && j < |joins| && (input.Some? ==> input.value < |recs|)
      modifies this
      ensures Valid() && conts == old(conts)
      ensures State() == AllStep(old(State()), j, input, conts)
    {
      var q;
      if input.None? {
        q := ResolvedPromise();
      } else {
        q := input.value;
      }
      joins := joins[j := joins[j].(inputs := joins[j].inputs + [q])];
      assert State() == StoreInput(old(State()), j, input);
      assert Valid() by {
        AddRecValid(old(State()), Resolved, conts);
        // StoreInput keeps the world well formed
        StoreInputWellFormed(old(State()), j, input, conts);
      }
      if recs[q].state != Pending {
        var jn := joins[j];
        CountDownNowCases(State(), j, conts);
        joins := joins[j := jn.(remaining := jn.remaining - 1)];
        if jn.remaining - 1 <= 0 && recs[jn.result].state == Pending {
          Resolve(jn.result, JoinValue(recs, jn.inputs));
        }
      } else {
        var f := NewPromise();
        recs := recs[q := recs[q].(handlers := recs[q].handlers + [ThenH(CountDown(j), f)])];
        ghost var w3 := AddRec(StoreInput(old(State()), j, input), Pending);
        AddHandlerValid(w3, q, ThenH(CountDown(j), f), conts);
      }
    }
  }

  lemma AddJoinWellFormed(w: World, jn: Join, conts: map<nat, nat>)
    requires WellFormed(w, conts) && JoinOk(jn, |w.recs|)
    ensures WellFormed(w.(joins := w.joins + [jn]), conts)
  {
    var w' := w.(joins := w.joins + [jn]);
    forall i | 0 <= i < |w'.recs|
      ensures RecOk(w'.recs[i], |w'.recs|, |w'.joins|)
    {
      assert RecOk(w.recs[i], |w.recs|, |w.joins|);
    }
    forall i | 0 <= i < |w'.joins|
      ensures JoinOk(w'.joins[i], |w'.recs|)
    {
      if i < |w.joins| {
        assert JoinOk(w.joins[i], |w.recs|);
      }
    }
  }

  lemma StoreInputWellFormed(w: World, j: nat, input: Option<nat>, conts: map<nat, nat>)
    requires WellFormed(w, conts) && j < |w.joins| && (input.Some? ==> input.value < |w.recs|)
    ensures WellFormed(StoreInput(w, j, input), conts)
  {
    var w1 := if input.None? then AddRec(w, Resolved) else w;
    AddRecValid(w, Resolved, conts);
    var q := if input.None? then |w.recs| else input.value;
    var jn := w1.joins[j];
    var w2 := StoreInput(w, j, input);
    assert JoinOk(jn, |w1.recs|);
    forall i | 0 <= i < |w2.recs|
      ensures RecOk(w2.recs[i], |w2.recs|, |w2.joins|)
    {
      assert RecOk(w1.recs[i], |w1.recs|, |w1.joins|);
    }
    forall i | 0 <= i < |w2.joins|
      ensures JoinOk(w2.joins[i], |w2.recs|)
    {
      assert JoinOk(w1.joins[i], |w1.recs|);
      if i == j {
        var ins := jn.inputs + [q];
        assert forall k :: 0 <= k < |ins| ==> ins[k] == if k < |jn.inputs| then jn.inputs[k] else q;
      }
    }
  }
}
