/**
 * The state machine behind `mutate` of `useXMutation` (src/use-xmutation.ts, src/hooks.ts and,
 * without the disabled check and the data cell, src/index.ts).
 *
 * Each call installs a fresh `AbortController` in a ref after aborting the one already there;
 * the controllers are numbered 1, 2, ... in installation order, so the call numbered `g` is
 * aborted exactly when a later call has started (`g < slot`) or the component was torn down
 * while `g` was current. The transport's outcomes arrive as events in any order, and each
 * write they make is skipped when the call's controller is aborted.
 */
module MutationMachine {
  import opened JsValues

  /** The error a mutation reports: the "Disabled" error of a falsy `urlLike`, or the transport's. */
  datatype MutationError<E> = Disabled(httpMethod: string) | Failed(cause: E)

  /** The four state cells, and the controller ref: `slot` controllers installed so far (0: the
      ref is null), the current one being number `slot`, `slotAborted` when teardown aborted it. */
  datatype MutationState<R, E> = MutationState(
    error: Option<MutationError<E>>,
    isSuccess: bool,
    isMutating: bool,
    data: Option<R>,
    slot: nat,
    slotAborted: bool)
  {
    /** `isError` is derived: `error !== null`. */
    predicate IsError() {
      error.Some?
    }

    /** The controller of call `gen` is installed and not aborted. */
    predicate Live(gen: nat) {
      1 <= gen && gen == slot && !slotAborted
    }
  }

  /** A freshly mounted hook: no error, no data, nothing in flight, an empty ref. */
  function Initial<R, E>(): MutationState<R, E> {
    MutationState(None, false, false, None, 0, false)
  }

  /** What can happen: a call (`enabled` when `urlLike` is truthy), the transport resolving,
      rejecting or settling (the `finally`) call `gen`, or the component's teardown. */
  datatype Event<R, E> =
    | Start(enabled: bool, httpMethod: string)
    | Resolve(gen: nat, response: R)
    | Reject(gen: nat, err: E)
    | Settle(gen: nat)
    | Teardown

  function Apply<R, E>(s: MutationState<R, E>, ev: Event<R, E>): MutationState<R, E> {
    match ev
    case Start(enabled, httpMethod) =>
      var installed := s.(slot := s.slot + 1, slotAborted := false);
      if !enabled then installed.(error := Some(Disabled(httpMethod)), isSuccess := false, isMutating := false, data := None)
      else installed.(error := None, isSuccess := false, isMutating := true, data := None)
    case Resolve(gen, response) =>
      if s.Live(gen) then s.(isSuccess := true, error := None, data := Some(response)) else s
    case Reject(gen, err) =>
      if s.Live(gen) then s.(error := Some(Failed(err)), isSuccess := false, data := None) else s
    case Settle(gen) =>
      if s.Live(gen) then s.(isMutating := false) else s
    case Teardown =>
      if s.slot > 0 then s.(slotAborted := true) else s
  }

  /** The events applied in order. */
  function Run<R, E>(s: MutationState<R, E>, evs: seq<Event<R, E>>): MutationState<R, E>
    decreases |evs|
  {
    if evs == [] then s else Apply(Run(s, evs[..|evs| - 1]), evs[|evs| - 1])
  }

  predicate NoStart<R, E>(evs: seq<Event<R, E>>) {
    forall i :: 0 <= i < |evs| ==> !evs[i].Start?
  }

  predicate NoTeardown<R, E>(evs: seq<Event<R, E>>) {
    forall i :: 0 <= i < |evs| ==> !evs[i].Teardown?
  }

  /** The events that concern call `gen`: its own outcomes, and the starts and teardowns that
      concern every call. */
  function OwnEvents<R, E>(evs: seq<Event<R, E>>, gen: nat): seq<Event<R, E>>
    decreases |evs|
  {
    if evs == [] then []
    else
      var last := evs[|evs| - 1];
      var keep := last.Teardown? || last.Start? || last.gen == gen;
      OwnEvents(evs[..|evs| - 1], gen) + (if keep then [last] else [])
  }

  /** How a call ended, as far as the transport has told. */
  datatype Outcome<R, E> = Resolved(response: R) | Rejected(err: E)

  /** The last outcome of call `gen` in `evs`. */
  function LastOutcome<R, E>(evs: seq<Event<R, E>>, gen: nat): Option<Outcome<R, E>>
    decreases |evs|
  {
    if evs == [] then None
    else
      var last := evs[|evs| - 1];
      if last.Resolve? && last.gen == gen then Some(Resolved(last.response))
      else if last.Reject? && last.gen == gen then Some(Rejected(last.err))
      else LastOutcome(evs[..|evs| - 1], gen)
  }

  /** Whether call `gen` has settled in `evs`. */
  predicate Settled<R, E>(evs: seq<Event<R, E>>, gen: nat)
    decreases |evs|
  {
    evs != [] && ((evs[|evs| - 1].Settle? && evs[|evs| - 1].gen == gen) || Settled(evs[..|evs| - 1], gen))
  }

  /** The cells agree with each other: the data cell holds a response (which may itself be
      `undefined`) exactly after a success, and a success carries no error. */
  predicate Consistent<R, E>(s: MutationState<R, E>) {
    (s.data.Some? <==> s.isSuccess) && (s.isSuccess ==> !s.IsError())
  }

  // ---------------------------------------------------------------------------------
  // Properties

  /** A call aborts every earlier controller and installs a fresh live one, then resets the
      cells: a disabled call reports the "Disabled" error and stops; an enabled one clears the
      error and data and marks the mutation in flight. */
  lemma StartInstallsFreshController<R, E>(s: MutationState<R, E>, enabled: bool, httpMethod: string)
    ensures var t := Apply(s, Start(enabled, httpMethod));
            && t.Live(t.slot)
            && (forall g :: 1 <= g <= s.slot ==> !t.Live(g))
            && !t.isSuccess && t.data.None?
            && (enabled ==> t.error.None? && t.isMutating)
            && (!enabled ==> t.error == Some(Disabled(httpMethod)) && !t.isMutating)
            && Consistent(t)
  {
  }

  /** An outcome of a call whose controller is aborted changes nothing at all. */
  lemma StaleOutcomeIgnored<R, E>(s: MutationState<R, E>, ev: Event<R, E>)
    requires ev.Resolve? || ev.Reject? || ev.Settle?
    requires !s.Live(ev.gen)
    ensures Apply(s, ev) == s
  {
  }

  /** A successful outcome of the live call shows its response; a failed one shows its error. */
  lemma LiveOutcomeShown<R, E>(s: MutationState<R, E>, ev: Event<R, E>)
    requires ev.Resolve? || ev.Reject?
    requires s.Live(ev.gen)
    ensures var t := Apply(s, ev);
            && t.slot == s.slot && t.isMutating == s.isMutating
            && (ev.Resolve? ==> t.isSuccess && t.error.None? && t.data == Some(ev.response))
            && (ev.Reject? ==> !t.isSuccess && t.error == Some(Failed(ev.err)) && t.data.None?)
  {
  }

  lemma {:induction false} RunKeepsSlot<R, E>(s: MutationState<R, E>, evs: seq<Event<R, E>>)
    requires NoStart(evs)
    ensures Run(s, evs).slot == s.slot
    ensures NoTeardown(evs) ==> Run(s, evs).slotAborted == s.slotAborted
    decreases |evs|
  {
    if evs != [] {
      RunKeepsSlot(s, evs[..|evs| - 1]);
    }
  }

  /** Between two calls, the outcomes of every call but the current one can be dropped without
      changing anything: only the newest call is ever observable. */
  lemma {:induction false} OnlyOwnEventsMatter<R, E>(s: MutationState<R, E>, evs: seq<Event<R, E>>)
    requires NoStart(evs)
    ensures Run(s, evs) == Run(s, OwnEvents(evs, s.slot))
    decreases |evs|
  {
    if evs != [] {
      var front := evs[..|evs| - 1];
      var last := evs[|evs| - 1];
      OnlyOwnEventsMatter(s, front);
      RunKeepsSlot(s, front);
      var own := OwnEvents(evs, s.slot);
      if last.Teardown? || last.gen == s.slot {
        assert own == OwnEvents(front, s.slot) + [last];
        assert own[..|own| - 1] == OwnEvents(front, s.slot);
      } else {
        assert own == OwnEvents(front, s.slot);
      }
    }
  }

  /** After an enabled call, with no later call and no teardown, the cells are decided by that
      call's own outcomes alone: its last resolve or reject sets the error, success flag and
      data, and it stays in flight until it settles. */
  lemma {:induction false} NewestCallDecides<R, E>(s: MutationState<R, E>, httpMethod: string, evs: seq<Event<R, E>>)
    requires NoStart(evs) && NoTeardown(evs)
    ensures var t := Apply(s, Start(true, httpMethod));
            var u := Run(t, evs);
            && u.slot == t.slot
            && u.isMutating == !Settled(evs, t.slot)
            && match LastOutcome(evs, t.slot)
               case None => u.error.None? && !u.isSuccess && u.data.None?
               case Some(Resolved(r)) => u.error.None? && u.isSuccess && u.data == Some(r)
               case Some(Rejected(e)) => u.error == Some(Failed(e)) && !u.isSuccess && u.data.None?
    decreases |evs|
  {
    var t := Apply(s, Start(true, httpMethod));
    if evs != [] {
      var front := evs[..|evs| - 1];
      NewestCallDecides(s, httpMethod, front);
      RunKeepsSlot(t, front);
    }
  }

  lemma {:induction false} RunAppend<R, E>(s: MutationState<R, E>, a: seq<Event<R, E>>, b: seq<Event<R, E>>)
    ensures Run(s, a + b) == Run(Run(s, a), b)
    decreases |b|
  {
    if b == [] {
      assert a + b == a;
    } else {
      assert (a + b)[..|a + b| - 1] == a + b[..|b| - 1];
      assert (a + b)[|a + b| - 1] == b[|b| - 1];
      RunAppend(s, a, b[..|b| - 1]);
    }
  }

  /** Whatever happened before the newest call (older calls and their outcomes, in any order),
      the cells are decided by the newest call's own outcomes until the next call or teardown. */
  lemma NewestCallAfterAnyHistory<R, E>(s: MutationState<R, E>, history: seq<Event<R, E>>, httpMethod: string, evs: seq<Event<R, E>>)
    requires NoStart(evs) && NoTeardown(evs)
    ensures var newest := Run(s, history).slot + 1;
            var u := Run(s, history + [Start(true, httpMethod)] + evs);
            && u.slot == newest
            && u.isMutating == !Settled(evs, newest)
            && match LastOutcome(evs, newest)
               case None => u.error.None? && !u.isSuccess && u.data.None?
               case Some(Resolved(r)) => u.error.None? && u.isSuccess && u.data == Some(r)
               case Some(Rejected(e)) => u.error == Some(Failed(e)) && !u.isSuccess && u.data.None?
  {
    var before := Run(s, history);
    var start: seq<Event<R, E>> := [Start(true, httpMethod)];
    RunAppend(s, history + start, evs);
    RunAppend(s, history, start);
    assert Run(before, start) == Apply(before, Start(true, httpMethod)) by {
      assert start[..0] == [];
    }
    NewestCallDecides(before, httpMethod, evs);
  }

  /** Once the component is torn down, nothing short of a new call changes the state. */
  lemma {:induction false} TeardownFreezes<R, E>(s: MutationState<R, E>, evs: seq<Event<R, E>>)
    requires NoStart(evs)
    ensures Run(Apply(s, Teardown), evs) == Apply(s, Teardown)
    decreases |evs|
  {
    if evs != [] {
      TeardownFreezes(s, evs[..|evs| - 1]);
    }
  }

  /** The cells never contradict each other, whatever the interleaving. */
  lemma {:induction false} RunKeepsConsistent<R, E>(s: MutationState<R, E>, evs: seq<Event<R, E>>)
    requires Consistent(s)
    ensures Consistent(Run(s, evs))
    decreases |evs|
  {
    if evs != [] {
      RunKeepsConsistent(s, evs[..|evs| - 1]);
    }
  }

  /** The state of the oldest revision, which keeps no data cell. */
  function WithoutData<R, E>(s: MutationState<R, E>): MutationState<R, E> {
    s.(data := None)
  }
}
