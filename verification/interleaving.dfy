/**
 The dispatcher loop with its one real gap made explicit. A loop iteration
 checks credit, takes a selection and starts playback, and only when the
 track has finished does it take the credit. Coin interrupts (and, in this
 over-approximation, keypad entries) may arrive while the track plays. This
 module shows that nothing arriving in that gap can drive credit negative,
 and that every such execution is, credit for credit, an execution of the
 atomic loop iteration of `Dispatcher.Step`.
 */
module Interleaving {
  import opened Catalog
  import opened Dispatcher
  import opened Trace

  /** Ready: at the top of the loop, before the credit check. Playing: inside
      the playback of a track whose credit has not yet been taken. */
  datatype Phase = Ready | Playing

  datatype Machine = Machine(state: State, phase: Phase)

  /** The process start: no credit, nothing queued, nothing playing. */
  const Start := Machine(Initial, Ready)

  /** 1 while a started track still owes its credit, else 0. */
  function Owed(m: Machine): nat {
    if m.phase == Playing then 1 else 0
  }

  /** The state the atomic model sees: a track in progress is already paid. */
  function Settled(m: Machine): (r: State)
    ensures r.credits == m.state.credits - Owed(m)
    ensures r.queue == m.state.queue && r.light == m.state.light && r.played == m.state.played
  {
    if m.phase == Playing then Charge(m.state) else m.state
  }

  /** One event of the split loop. An iteration event in phase Ready runs the
      check-and-start half of the loop body; in phase Playing it is the end of
      playback followed by the decrement. */
  function Advance(m: Machine, e: Event): (r: Machine)
    // a track is in progress exactly after an iteration that started one
    ensures r.phase == Playing <==>
              (m.phase == Playing && !e.Iteration?) ||
              (m.phase == Ready && e.Iteration? && Begin(m.state, e.onDisk).outcome.Played?)
    // credit rises only by a coin and falls only when a playing track ends
    ensures r.state.credits == m.state.credits + (if e.CoinEdge? then 1 else 0)
                               - (if m.phase == Playing && e.Iteration? then 1 else 0)
    // the end of playback changes nothing but the credit
    ensures m.phase == Playing && e.Iteration? ==>
              r.state.queue == m.state.queue && r.state.played == m.state.played && r.state.light == m.state.light
  {
    match e
    case CoinEdge => Machine(Coin(m.state), m.phase)
    case Selection(c) => Machine(Enqueue(m.state, c), m.phase)
    case Iteration(_) =>
      if m.phase == Playing then Machine(Charge(m.state), Ready)
      else
        var b := Begin(m.state, e.onDisk);
        assert m.phase == Ready;
        Machine(b.next, if b.outcome.Played? then Playing else Ready)
  }

  /** Credit is never negative, and stays at least one for as long as a track
      whose credit has not been taken is playing. */
  predicate Safe(m: Machine) {
    m.state.credits >= 0 && (m.phase == Playing ==> m.state.credits >= 1)
  }

  /** Every event keeps the machine safe: the decrement is reached only after
      a successful credit check, and what arrives in between only adds. */
  lemma AdvanceSafe(m: Machine, e: Event)
    requires Safe(m)
    ensures Safe(Advance(m, e))
  {
  }

  /** Simulation: each event of the split loop is either the matching event of
      the atomic model or, for the end of playback, no change at all. */
  lemma AdvanceRefines(m: Machine, e: Event)
    ensures Settled(Advance(m, e)) ==
              if m.phase == Playing && e.Iteration? then Settled(m) else Apply(Settled(m), e).next
  {
  }

  /** The machines visited by a trace of split-loop events. */
  function Interleave(m: Machine, t: seq<Event>): (ms: seq<Machine>)
    ensures |ms| == |t| + 1 && ms[0] == m
    ensures forall i :: 0 <= i < |t| ==> Advance(ms[i], t[i]) == ms[i + 1]
    decreases |t|
  {
    if |t| == 0 then [m] else [m] + Interleave(Advance(m, t[0]), t[1..])
  }

  /** The events the atomic model sees: every event except the ends of
      playback. */
  function Atomic(m: Machine, t: seq<Event>): seq<Event>
    decreases |t|
  {
    if |t| == 0 then []
    else if m.phase == Playing && t[0].Iteration? then Atomic(Advance(m, t[0]), t[1..])
    else [t[0]] + Atomic(Advance(m, t[0]), t[1..])
  }

  lemma {:induction false} SafeAt(m: Machine, t: seq<Event>, i: nat)
    requires Safe(m)
    requires i <= |t|
    ensures Safe(Interleave(m, t)[i])
  {
    if i > 0 {
      SafeAt(m, t, i - 1);
      AdvanceSafe(Interleave(m, t)[i - 1], t[i - 1]);
    }
  }

  /** Under every interleaving of coins and keypad entries with the split loop,
      credits never go negative and never drop below one during playback. */
  lemma GapIsSafe(m: Machine, t: seq<Event>)
    requires Safe(m)
    ensures forall i :: 0 <= i < |Interleave(m, t)| ==> Safe(Interleave(m, t)[i])
  {
    forall i | 0 <= i < |Interleave(m, t)| {
      SafeAt(m, t, i);
    }
  }

  /** The atomic model sees the same coins and keypad entries. */
  lemma {:induction false} AtomicKeepsInputs(m: Machine, t: seq<Event>)
    ensures CoinCount(Atomic(m, t)) == CoinCount(t)
    ensures Pressed(Atomic(m, t)) == Pressed(t)
    decreases |t|
  {
    if |t| > 0 {
      var m' := Advance(m, t[0]);
      AtomicKeepsInputs(m', t[1..]);
      if !(m.phase == Playing && t[0].Iteration?) {
        var a := Atomic(m', t[1..]);
        assert ([t[0]] + a)[1..] == a;
      }
    }
  }

  /** Refinement: the settled state after any split-loop trace is the final
      state of the atomic model run on the events it sees. */
  lemma {:induction false} Refinement(m: Machine, t: seq<Event>)
    ensures Settled(Interleave(m, t)[|t|]) == Run(Settled(m), Atomic(m, t)).Final()
    decreases |t|
  {
    if |t| > 0 {
      var m' := Advance(m, t[0]);
      Refinement(m', t[1..]);
      AdvanceRefines(m, t[0]);
      assert Interleave(m, t)[|t|] == Interleave(m', t[1..])[|t| - 1];
      if !(m.phase == Playing && t[0].Iteration?) {
        var a := Atomic(m', t[1..]);
        assert ([t[0]] + a)[1..] == a;
        RunCons(Settled(m), [t[0]] + a);
      }
    }
  }

  /** Credit accounting across the gap: counting a track in progress as paid,
      credits equal start credits plus coins minus tracks played; the played
      history is the atomic model's, and selections keep their FIFO order. */
  lemma GapAccounting(m: Machine, t: seq<Event>)
    ensures var f := Interleave(m, t)[|t|];
            var log := Run(Settled(m), Atomic(m, t)).log;
            && f.state.credits - Owed(f) == m.state.credits - Owed(m) + CoinCount(t) - |PlayedPaths(log)|
            && f.state.played == m.state.played + PlayedPaths(log)
            && Dequeued(log) + f.state.queue == m.state.queue + Pressed(t)
  {
    Refinement(m, t);
    AtomicKeepsInputs(m, t);
    Accounting(Settled(m), Atomic(m, t));
    FifoOrder(Settled(m), Atomic(m, t));
  }

  /** From process start, every interleaving is safe, and its atomic view
      is the atomic model run from its initial state. */
  lemma FromStart(t: seq<Event>)
    ensures forall i :: 0 <= i < |Interleave(Start, t)| ==> Safe(Interleave(Start, t)[i])
    ensures Settled(Interleave(Start, t)[|t|]) == Run(Initial, Atomic(Start, t)).Final()
  {
    GapIsSafe(Start, t);
    Refinement(Start, t);
  }
}
