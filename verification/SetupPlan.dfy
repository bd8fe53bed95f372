/**
Setting up the tunnel device by a plan of reversible steps, and undoing it
(openWithPlan and cleanupState in internal/platform/platform.go).
*/
module SetupPlan {

  datatype Action = PlanCleanup(j: nat) | CloseDevice | Undo(k: nat)

  /** Which of its two functions a step has. */
  datatype Step = Step(hasApply: bool, hasUndo: bool)

  /** cleanups[j] says whether the plan's j-th cleanup has a function. */
  datatype Plan = Plan(steps: seq<Step>, cleanups: seq<bool>)

  // ----- The order of undoing, independently of the code -----

  function Cleanups(cleanups: seq<bool>): seq<Action> {
    if cleanups == [] then [] else
      var j := |cleanups| - 1;
      Cleanups(cleanups[..j]) + (if cleanups[j] then [PlanCleanup(j)] else [])
  }

  /** The undos of the first k steps, first to last. */
  function Undos(steps: seq<Step>, k: nat): seq<Action>
    requires k <= |steps|
  {
    if k == 0 then [] else Undos(steps, k - 1) + (if steps[k - 1].hasUndo then [Undo(k - 1)] else [])
  }

  function Reversed(s: seq<Action>): (r: seq<Action>)
    ensures |r| == |s| && forall i :: 0 <= i < |s| ==> r[i] == s[|s| - 1 - i]
  {
    if s == [] then [] else [s[|s| - 1]] + Reversed(s[..|s| - 1])
  }

  /** After k steps: their undos last to first, then the device, then the plan's cleanups last to first. */
  function Teardown(plan: Plan, k: nat): seq<Action>
    requires k <= |plan.steps|
  {
    Reversed(Undos(plan.steps, k)) + [CloseDevice] + Reversed(Cleanups(plan.cleanups))
  }

  lemma {:induction false} UndosOf(steps: seq<Step>, k: nat, a: Action)
    requires k <= |steps|
    ensures a in Undos(steps, k) <==> a.Undo? && a.k < k && steps[a.k].hasUndo
    ensures multiset(Undos(steps, k))[a] <= 1
  {
    if k > 0 {
      UndosOf(steps, k - 1, a);
      var last := if steps[k - 1].hasUndo then [Undo(k - 1)] else [];
      assert a in last <==> a == Undo(k - 1) && steps[k - 1].hasUndo;
      assert multiset(Undos(steps, k)) == multiset(Undos(steps, k - 1)) + multiset(last);
    }
  }

  lemma {:induction false} CleanupsOf(cleanups: seq<bool>, a: Action)
    ensures a in Cleanups(cleanups) <==> a.PlanCleanup? && a.j < |cleanups| && cleanups[a.j]
    ensures multiset(Cleanups(cleanups))[a] <= 1
  {
    if cleanups != [] { CleanupsOf(cleanups[..|cleanups| - 1], a); }
  }

  lemma {:induction false} ReversedHolds(s: seq<Action>)
    ensures multiset(Reversed(s)) == multiset(s)
  {
    if s != [] {
      ReversedHolds(s[..|s| - 1]);
      assert s == s[..|s| - 1] + [s[|s| - 1]];
    }
  }

  /** Everything to undo is undone exactly once, and nothing else. */
  lemma TeardownOnce(plan: Plan, k: nat, a: Action)
    requires k <= |plan.steps|
    ensures multiset(Teardown(plan, k))[a] ==
      match a
      case Undo(i) => if i < k && plan.steps[i].hasUndo then 1 else 0
      case CloseDevice => 1
      case PlanCleanup(j) => if j < |plan.cleanups| && plan.cleanups[j] then 1 else 0
  {
    UndosOf(plan.steps, k, a);
    CleanupsOf(plan.cleanups, a);
    ReversedHolds(Undos(plan.steps, k));
    ReversedHolds(Cleanups(plan.cleanups));
    assert a in Undos(plan.steps, k) <==> multiset(Undos(plan.steps, k))[a] > 0;
    assert a in Cleanups(plan.cleanups) <==> multiset(Cleanups(plan.cleanups))[a] > 0;
  }

  // ----- The system the steps change -----

  /**
  What applying and undoing does to a system state.  A step that fails may have done
  something (`partial`), an action that reports an error anything (`damage`).
  */
  class System<S> {
    const apply: (nat, S) -> S
    const partial: (nat, S) -> S
    const effect: (Action, S) -> S
    const damage: (Action, S) -> S
    var state: S
    /** Actions run and steps applied so far; how many actions reported an error. */
    ghost var ran: seq<Action>
    ghost var applied: nat
    ghost var errors: nat
    /** Steps that failed; cancellations noticed. */
    ghost var setbacks: nat
    ghost var cancellations: nat

    constructor (apply: (nat, S) -> S, partial: (nat, S) -> S, effect: (Action, S) -> S, damage: (Action, S) -> S,
                 state: S)
      ensures this.apply == apply && this.partial == partial && this.effect == effect && this.damage == damage
      ensures this.state == state
      ensures ran == [] && applied == 0 && errors == 0 && setbacks == 0 && cancellations == 0
    {
      this.apply, this.partial, this.effect, this.damage, this.state := apply, partial, effect, damage, state;
      ran, applied, errors, setbacks, cancellations := [], 0, 0, 0, 0;
    }

    method Apply(k: nat) returns (ok: bool)
      modifies this`state, this`applied, this`setbacks
      ensures ok ==> state == apply(k, old(state)) && applied == old(applied) + 1 && setbacks == old(setbacks)
      ensures !ok ==> state == partial(k, old(state)) && applied == old(applied) && setbacks > old(setbacks)
    {
      ok := *;
      if ok {
        state, applied := apply(k, state), applied + 1;
      } else {
        state, setbacks := partial(k, state), setbacks + 1;
      }
    }

    /** Whether the context was cancelled. */
    method Cancelled() returns (yes: bool)
      modifies this`cancellations
      ensures cancellations == old(cancellations) + (if yes then 1 else 0)
    {
      yes := *;
      if yes { cancellations := cancellations + 1; }
    }

    method Do(a: Action) returns (ok: bool)
      modifies this`state, this`ran, this`errors
      ensures ran == old(ran) + [a]
      ensures ok ==> state == effect(a, old(state)) && errors == old(errors)
      ensures !ok ==> errors == old(errors) + 1
    {
      ok := *;
      if ok {
        state := effect(a, state);
      } else {
        state, errors := damage(a, state), errors + 1;
      }
      ran := ran + [a];
    }
  }

  /** The state after a list of actions without errors. */
  function After<S>(effect: (Action, S) -> S, actions: seq<Action>, s: S): S {
    if actions == [] then s else After(effect, actions[1..], effect(actions[0], s))
  }

  lemma {:induction false} AfterExtends<S>(effect: (Action, S) -> S, actions: seq<Action>, a: Action, s: S)
    ensures After(effect, actions + [a], s) == effect(a, After(effect, actions, s))
  {
    if actions == [] {
      assert ([] + [a])[1..] == [];
    } else {
      assert (actions + [a])[1..] == actions[1..] + [a];
      AfterExtends(effect, actions[1..], a, effect(actions[0], s));
    }
  }

  lemma {:induction false} AfterBoth<S>(effect: (Action, S) -> S, first: seq<Action>, more: seq<Action>, s: S)
    ensures After(effect, first + more, s) == After(effect, more, After(effect, first, s))
  {
    if first == [] {
      assert first + more == more;
    } else {
      assert (first + more)[1..] == first[1..] + more;
      AfterBoth(effect, first[1..], more, effect(first[0], s));
    }
  }

  /** The actions that bring a system back, and whether that has been done. */
  class CleanupState<S> {
    const system: System<S>
    var actions: seq<Action>
    var done: bool
    var failed: bool

    constructor (system: System<S>)
      ensures this.system == system && actions == [] && !done && !failed
    {
      this.system, actions, done, failed := system, [], false, false;
    }

    method Push(a: Action, hasFunction: bool)
      modifies this`actions
      ensures actions == if hasFunction then old(actions) + [a] else old(actions)
    {
      if hasFunction { actions := actions + [a]; }
    }

    /** run: last to first, going on after errors; every later call only repeats the answer. */
    method Run() returns (ok: bool)
      requires !done ==> !failed
      modifies this`done, this`failed, system`state, system`ran, system`errors
      ensures done && ok == !failed
      ensures system.ran == if old(done) then old(system.ran) else old(system.ran) + Reversed(actions)
      ensures old(done) ==> system.state == old(system.state)
      ensures old(done) ==> system.errors == old(system.errors) && failed == old(failed)
      ensures !old(done) ==> failed == (system.errors > old(system.errors)) && system.errors >= old(system.errors)
      ensures !old(done) && !failed ==> system.state == After(system.effect, Reversed(actions), old(system.state))
    {
      if done { return !failed; }
      done := true;
      var todo := Reversed(actions);
      var i := |actions|;
      assert todo[..0] == [] && system.ran + [] == system.ran;
      while i > 0
        invariant 0 <= i <= |actions| && done
        invariant system.ran == old(system.ran) + todo[..|actions| - i]
        invariant system.errors >= old(system.errors) && failed == (system.errors > old(system.errors))
        invariant !failed ==> system.state == After(system.effect, todo[..|actions| - i], old(system.state))
      {
        i := i - 1;
        var n := |actions| - 1 - i;
        AfterExtends(system.effect, todo[..n], todo[n], old(system.state));
        assert todo[..n + 1] == todo[..n] + [todo[n]] && todo[n] == actions[i];
        var good := system.Do(actions[i]);
        if !good { failed := true; }
      }
      assert todo[..|actions|] == todo;
      return !failed;
    }
  }

  /** What has been pushed once k steps have succeeded. */
  predicate Pushed(actions: seq<Action>, plan: Plan, k: nat)
    requires k <= |plan.steps|
  {
    actions == Cleanups(plan.cleanups) + [CloseDevice] + Undos(plan.steps, k)
  }

  lemma PushOrder(actions: seq<Action>, plan: Plan, k: nat)
    requires k <= |plan.steps| && Pushed(actions, plan, k)
    ensures Reversed(actions) == Teardown(plan, k)
  {
    var r, t := Reversed(actions), Teardown(plan, k);
    assert |r| == |t|;
    forall i | 0 <= i < |r| ensures r[i] == t[i] {}
  }

  lemma PushedFirst(actions: seq<Action>, plan: Plan)
    requires actions == Cleanups(plan.cleanups) + [CloseDevice]
    ensures Pushed(actions, plan, 0)
  {
    assert actions + Undos(plan.steps, 0) == actions;
  }

  lemma PushedNext(actions: seq<Action>, plan: Plan, k: nat)
    requires k < |plan.steps| && Pushed(actions, plan, k)
    ensures Pushed(if plan.steps[k].hasUndo then actions + [Undo(k)] else actions, plan, k + 1)
  {
    var c := Cleanups(plan.cleanups) + [CloseDevice];
    assert (c + Undos(plan.steps, k)) + [Undo(k)] == c + (Undos(plan.steps, k) + [Undo(k)]);
    assert c + (Undos(plan.steps, k) + []) == c + Undos(plan.steps, k);
  }

  /** A failure after k steps. */
  method TearDown<S>(cleanup: CleanupState<S>, plan: Plan, ghost k: nat)
    requires k <= |plan.steps| && Pushed(cleanup.actions, plan, k) && !cleanup.done && !cleanup.failed
    modifies cleanup`done, cleanup`failed, cleanup.system`state, cleanup.system`ran, cleanup.system`errors
    ensures cleanup.done && cleanup.system.ran == old(cleanup.system.ran) + Teardown(plan, k)
    ensures cleanup.system.errors >= old(cleanup.system.errors)
    ensures cleanup.system.errors == old(cleanup.system.errors) ==>
      cleanup.system.state == After(cleanup.system.effect, Teardown(plan, k), old(cleanup.system.state))
  {
    PushOrder(cleanup.actions, plan, k);
    var ok := cleanup.Run();
  }

  datatype Result = Opened | NameRejected | Cancelled | StepFailed

  /** The plan's own cleanups are pushed before the device, so that they run after it is closed. */
  method PushCleanups<S>(cleanup: CleanupState<S>, plan: Plan)
    requires cleanup.actions == []
    modifies cleanup`actions
    ensures cleanup.actions == Cleanups(plan.cleanups) + [CloseDevice]
  {
    for j := 0 to |plan.cleanups|
      invariant cleanup.actions == Cleanups(plan.cleanups[..j])
    {
      assert plan.cleanups[..j + 1][..j] == plan.cleanups[..j];
      cleanup.Push(PlanCleanup(j), plan.cleanups[j]);
    }
    assert plan.cleanups[..|plan.cleanups|] == plan.cleanups;
    cleanup.Push(CloseDevice, true);
  }

  /** The loop over the steps; any failure runs the cleanup at once. */
  method ApplySteps<S>(system: System<S>, plan: Plan, cleanup: CleanupState<S>) returns (r: Result, ghost k: nat)
    requires cleanup.system == system && cleanup.actions == Cleanups(plan.cleanups) + [CloseDevice]
    requires !cleanup.done && !cleanup.failed && system.ran == [] && system.applied == 0
    modifies system, cleanup
    ensures r in {Opened, Cancelled, StepFailed} && k <= |plan.steps| && system.applied == k
    ensures !r.Opened? ==> k < |plan.steps| && system.ran == Teardown(plan, k) && cleanup.done
    ensures system.cancellations == old(system.cancellations) + (if r.Cancelled? then 1 else 0)
    ensures r.StepFailed? ==> (plan.steps[k].hasApply <==> system.setbacks > old(system.setbacks))
    ensures !r.StepFailed? ==> system.setbacks == old(system.setbacks)
    ensures !r.Opened? && system.errors == old(system.errors) ==>
      system.state == After(system.effect, Teardown(plan, k), Halted(system, plan, k, r, old(system.state)))
    ensures system.errors >= old(system.errors)
    ensures r.Opened? ==> k == |plan.steps| && system.ran == [] && !cleanup.done && !cleanup.failed
    ensures forall j :: 0 <= j < k ==> plan.steps[j].hasApply
    ensures r.Opened? ==> Reversed(cleanup.actions) == Teardown(plan, k)
    ensures r.Opened? ==> system.state == Applied(system.apply, k, old(system.state))
    ensures r.Opened? ==> system.errors == old(system.errors)
  {
    hide Pushed, After, Teardown, Reversed, Undos, Cleanups;
    k := 0;
    PushedFirst(cleanup.actions, plan);
    for i := 0 to |plan.steps|
      invariant Pushed(cleanup.actions, plan, i) && !cleanup.done && !cleanup.failed && k == i
      invariant system.ran == [] && system.applied == i && system.errors == old(system.errors)
      invariant system.state == Applied(system.apply, i, old(system.state)) && system.setbacks == old(system.setbacks)
      invariant system.cancellations == old(system.cancellations)
      invariant forall j :: 0 <= j < i ==> plan.steps[j].hasApply
    {
      var cancelled := system.Cancelled();
      if cancelled || !plan.steps[i].hasApply {
        TearDown(cleanup, plan, k);
        return (if cancelled then Cancelled else StepFailed), k;
      }
      var ok := system.Apply(i);
      if !ok {
        TearDown(cleanup, plan, k);
        return StepFailed, k;
      }
      PushedNext(cleanup.actions, plan, i);
      cleanup.Push(Undo(i), plan.steps[i].hasUndo);
      k := i + 1;
    }
    PushOrder(cleanup.actions, plan, |plan.steps|);
    r := Opened;
  }

  /**
  openWithPlan once the device exists.  Every way of failing tears down exactly what
  was set up, in order, whatever errors the undoing reports; the cleanup handed out on
  success does the same, once.
  */
  method OpenWithPlan<S>(system: System<S>, plan: Plan, nameOk: bool)
    returns (r: Result, cleanup: CleanupState<S>, ghost k: nat)
    requires system.ran == [] && system.applied == 0
    modifies system
    ensures fresh(cleanup) && cleanup.system == system && k <= |plan.steps| && system.applied == k
    ensures r.NameRejected? <==> !nameOk
    ensures r.NameRejected? ==> k == 0 && system.ran == [CloseDevice] && cleanup.done
    ensures r.Cancelled? || r.StepFailed? ==> k < |plan.steps| && system.ran == Teardown(plan, k) && cleanup.done
    ensures system.cancellations == old(system.cancellations) + (if r.Cancelled? then 1 else 0)
    ensures r.StepFailed? ==> (plan.steps[k].hasApply <==> system.setbacks > old(system.setbacks))
    ensures !r.StepFailed? ==> system.setbacks == old(system.setbacks)
    ensures r.NameRejected? && system.errors == old(system.errors) ==>
      system.state == system.effect(CloseDevice, old(system.state))
    ensures (r.Cancelled? || r.StepFailed?) && system.errors == old(system.errors) ==>
      system.state == After(system.effect, Teardown(plan, k), Halted(system, plan, k, r, old(system.state)))
    ensures system.errors >= old(system.errors)
    ensures r.Opened? ==> k == |plan.steps| && system.ran == [] && !cleanup.done && !cleanup.failed
    ensures forall j :: 0 <= j < k ==> plan.steps[j].hasApply
    ensures r.Opened? ==> Reversed(cleanup.actions) == Teardown(plan, k)
    ensures r.Opened? ==> system.state == Applied(system.apply, k, old(system.state))
    ensures r.Opened? ==> system.errors == old(system.errors)
  {
    cleanup := new CleanupState(system);
    k := 0;
    if !nameOk {
      cleanup.Push(CloseDevice, true);
      var ok := cleanup.Run();
      return NameRejected, cleanup, k;
    }
    PushCleanups(cleanup, plan);
    r, k := ApplySteps(system, plan, cleanup);
  }

  function Applied<S>(apply: (nat, S) -> S, k: nat, s: S): S {
    if k == 0 then s else apply(k - 1, Applied(apply, k - 1, s))
  }

  /** What k steps have made of s when the next one failed, if it was tried, perhaps after doing something. */
  function Halted<S>(system: System<S>, plan: Plan, k: nat, r: Result, s: S): S
    requires k < |plan.steps|
  {
    if r.StepFailed? && plan.steps[k].hasApply then system.partial(k, Applied(system.apply, k, s))
    else Applied(system.apply, k, s)
  }

  /** Each undo takes back its own step, and a step without an undo has nothing to take back. */
  ghost predicate Inverse<S(!new)>(plan: Plan, apply: (nat, S) -> S, effect: (Action, S) -> S) {
    forall i, s {:trigger apply(i, s)} :: 0 <= i < |plan.steps| ==>
      (if plan.steps[i].hasUndo then effect(Undo(i), apply(i, s)) == s else apply(i, s) == s)
  }

  lemma {:induction false} UndosRestore<S(!new)>(plan: Plan, apply: (nat, S) -> S, effect: (Action, S) -> S,
                                               k: nat, s: S)
    requires k <= |plan.steps| && Inverse(plan, apply, effect)
    ensures After(effect, Reversed(Undos(plan.steps, k)), Applied(apply, k, s)) == s
    decreases k
  {
    if k > 0 {
      UndosRestore(plan, apply, effect, k - 1, s);
      var before := Applied(apply, k - 1, s);
      assert apply(k - 1, before) == Applied(apply, k, s);
      var u := Undos(plan.steps, k);
      if plan.steps[k - 1].hasUndo {
        assert Reversed(u) == [Undo(k - 1)] + Reversed(Undos(plan.steps, k - 1));
        assert Reversed(u)[1..] == Reversed(Undos(plan.steps, k - 1));
      } else {
        assert u == Undos(plan.steps, k - 1);
      }
    }
  }

  /** After a teardown without errors only closing the device and the plan's own cleanups are left of it all. */
  lemma TeardownRestores<S(!new)>(plan: Plan, apply: (nat, S) -> S, effect: (Action, S) -> S, k: nat, s: S)
    requires k <= |plan.steps| && Inverse(plan, apply, effect)
    ensures After(effect, Teardown(plan, k), Applied(apply, k, s)) ==
      After(effect, Rest(plan), s)
  {
    UndosRestore(plan, apply, effect, k, s);
    AfterBoth(effect, Reversed(Undos(plan.steps, k)), Rest(plan), Applied(apply, k, s));
    assert Teardown(plan, k) == Reversed(Undos(plan.steps, k)) + Rest(plan);
  }

  /** Closing the device and the plan's own cleanups, which belong to no step. */
  function Rest(plan: Plan): seq<Action> { [CloseDevice] + Reversed(Cleanups(plan.cleanups)) }

  /** A failed step has changed nothing. */
  ghost predicate FailsClean<S(!new)>(plan: Plan, partial: (nat, S) -> S) {
    forall i, s :: 0 <= i < |plan.steps| ==> partial(i, s) == s
  }

  /**
  Open, then call the cleanup any number of times: it happens once.  If nothing
  reports an error and the undos are inverse, what is left is what closing the device
  and the plan's own cleanups make of the original state; also when opening fails,
  provided that a step which fails changes nothing, since its undo does not run.
  */
  method OpenAndClean<S(!new)>(system: System<S>, plan: Plan, nameOk: bool, calls: nat)
    returns (r: Result, ok: bool, ghost k: nat)
    requires system.ran == [] && system.applied == 0
    modifies system
    ensures k <= |plan.steps| && (r.Opened? ==> k == |plan.steps|) && (r.NameRejected? <==> !nameOk)
    ensures system.cancellations == old(system.cancellations) + (if r.Cancelled? then 1 else 0)
    ensures r.StepFailed? ==> k < |plan.steps| && (plan.steps[k].hasApply <==> system.setbacks > old(system.setbacks))
    ensures !r.StepFailed? ==> system.setbacks == old(system.setbacks)
    ensures r.Cancelled? || r.StepFailed? || (r.Opened? && calls > 0) ==> system.ran == Teardown(plan, k)
    ensures r.Opened? && calls > 0 ==> ok == (system.errors == old(system.errors))
    ensures system.errors == old(system.errors) && Inverse(plan, system.apply, system.effect) ==>
      (r.Opened? && calls > 0) || r.Cancelled? || (r.StepFailed? && FailsClean(plan, system.partial)) ==>
        system.state == After(system.effect, Rest(plan), old(system.state))
    ensures r.NameRejected? && system.errors == old(system.errors) ==>
      system.state == system.effect(CloseDevice, old(system.state))
  {
    var cleanup;
    r, cleanup, k := OpenWithPlan(system, plan, nameOk);
    ok := true;
    ghost var started, errors := system.state, system.errors;
    if r.Opened? {
      for n := 0 to calls
        invariant cleanup.system == system && (cleanup.done <==> n > 0) && (!cleanup.done ==> !cleanup.failed)
        invariant system.setbacks == old(system.setbacks) && system.cancellations == old(system.cancellations)
        invariant n == 0 ==> system.ran == [] && system.state == started && system.errors == errors
        invariant Reversed(cleanup.actions) == Teardown(plan, |plan.steps|)
        invariant n > 0 ==> system.ran == Teardown(plan, |plan.steps|) && ok == !cleanup.failed
        invariant n > 0 ==> cleanup.failed == (system.errors > errors) && system.errors >= errors
        invariant n > 0 && ok ==> system.state == After(system.effect, Teardown(plan, |plan.steps|), started)
      {
        ok := cleanup.Run();
      }
    }
    if !r.NameRejected? && Inverse(plan, system.apply, system.effect) {
      TeardownRestores(plan, system.apply, system.effect, k, old(system.state));
    }
  }
}
