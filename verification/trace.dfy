/**
 Executions of the dispatcher over arbitrary interleavings of coin
 interrupts, keypad entries and dispatcher loop iterations, and the safety
 and accounting properties every such execution has.
 */
module Trace {
  import opened Catalog
  import opened Dispatcher

  /** A coin edge, a keypad selection, or one dispatcher loop iteration that
      sees the filesystem as `onDisk`. */
  datatype Event = CoinEdge | Selection(code: string) | Iteration(onDisk: string -> bool)

  /** One event: a coin adds a credit, a keypad entry joins the queue, an
      iteration runs the loop body. */
  function Apply(s: State, e: Event): (r: Stepped)
    // credit rises only by a coin and falls only by a played track
    ensures r.next.credits == s.credits + (if e.CoinEdge? then 1 else 0) - |Track(r.outcome)|
  {
    match e
    case CoinEdge => Stepped(Coin(s), Credited)
    case Selection(c) => Stepped(Enqueue(s, c), Queued(c))
    case Iteration(fs) => Step(s, fs)
  }

  /** The states visited (the start state first) and one outcome per event. */
  datatype Execution = Execution(states: seq<State>, log: seq<Outcome>) {
    function Final(): State
      requires |states| > 0
    {
      states[|states| - 1]
    }
  }

  function Run(s: State, t: seq<Event>): (r: Execution)
    ensures |r.states| == |t| + 1 && |r.log| == |t|
    ensures r.states[0] == s
    ensures forall i {:trigger Apply(r.states[i], t[i])} :: 0 <= i < |t| ==>
              Apply(r.states[i], t[i]) == Stepped(r.states[i + 1], r.log[i])
    decreases |t|
  {
    if |t| == 0 then Execution([s], [])
    else
      var st := Apply(s, t[0]);
      var rest := Run(st.next, t[1..]);
      Execution([s] + rest.states, [st.outcome] + rest.log)
  }

  function CoinCount(t: seq<Event>): nat {
    if |t| == 0 then 0 else (if t[0].CoinEdge? then 1 else 0) + CoinCount(t[1..])
  }

  /** The codes the keypad delivered, in order. */
  function Pressed(t: seq<Event>): seq<string> {
    if |t| == 0 then [] else (if t[0].Selection? then [t[0].code] else []) + Pressed(t[1..])
  }

  /** The codes taken off the queue, in order. */
  function Dequeued(log: seq<Outcome>): seq<string> {
    if |log| == 0 then [] else Taken(log[0]) + Dequeued(log[1..])
  }

  /** The tracks played, in order. */
  function PlayedPaths(log: seq<Outcome>): seq<string> {
    if |log| == 0 then [] else Track(log[0]) + PlayedPaths(log[1..])
  }

  /** Every event keeps the credit count non-negative. */
  lemma ApplyKeepsCredits(s: State, e: Event)
    requires s.credits >= 0
    ensures Apply(s, e).next.credits >= 0
  {
  }

  /** An event takes at most the head of the queue and appends at most the
      code the keypad entered. */
  lemma ApplyQueue(s: State, e: Event)
    ensures Taken(Apply(s, e).outcome) + Apply(s, e).next.queue
            == s.queue + (if e.Selection? then [e.code] else [])
  {
  }

  /** An iteration without credit only turns the light off; every iteration
      sets the light to the credit gate, and other events leave it. */
  lemma ApplyGate(s: State, e: Event)
    ensures e.Iteration? && s.credits < 1 ==>
              Apply(s, e).next == s.(light := Off) && |Taken(Apply(s, e).outcome)| == 0
    ensures Apply(s, e).next.light ==
              (if !e.Iteration? then s.light else if s.credits >= 1 then On else Off)
  {
  }

  /** Unfolds `Run` once. */
  lemma RunCons(s: State, t: seq<Event>)
    requires |t| > 0
    ensures Run(s, t).states == [s] + Run(Apply(s, t[0]).next, t[1..]).states
    ensures Run(s, t).log == [Apply(s, t[0]).outcome] + Run(Apply(s, t[0]).next, t[1..]).log
    ensures Run(s, t).log[1..] == Run(Apply(s, t[0]).next, t[1..]).log
    ensures Run(s, t).Final() == Run(Apply(s, t[0]).next, t[1..]).Final()
  {
  }

  /** Unfolds the final state of `Run` once. */
  lemma FinalCons(s: State, t: seq<Event>)
    requires |t| > 0
    ensures Run(s, t).Final() == Run(Apply(s, t[0]).next, t[1..]).Final()
  {
    RunCons(s, t);
  }

  /** Running two traces one after the other is running their concatenation. */
  lemma {:induction false} RunConcat(s: State, a: seq<Event>, b: seq<Event>)
    ensures Run(s, a + b).Final() == Run(Run(s, a).Final(), b).Final()
    decreases |a|
  {
    if |a| == 0 {
      assert a + b == b;
    } else {
      var s1 := Apply(s, a[0]).next;
      assert (a + b)[0] == a[0];
      assert (a + b)[1..] == a[1..] + b;
      FinalCons(s, a + b);
      FinalCons(s, a);
      RunConcat(s1, a[1..], b);
    }
  }

  /** Running one more event continues from the final state. */
  lemma RunSnoc(s: State, a: seq<Event>, e: Event)
    ensures Run(s, a + [e]).Final() == Apply(Run(s, a).Final(), e).next
  {
    RunConcat(s, a, [e]);
    FinalCons(Run(s, a).Final(), [e]);
    assert [e][1..] == [];
  }

  lemma {:induction false} NonNegativeAt(s: State, t: seq<Event>, i: nat)
    requires s.credits >= 0
    requires i <= |t|
    ensures Run(s, t).states[i].credits >= 0
  {
    if i > 0 {
      var r := Run(s, t);
      NonNegativeAt(s, t, i - 1);
      ApplyKeepsCredits(r.states[i - 1], t[i - 1]);
      assert Apply(r.states[i - 1], t[i - 1]).next == r.states[i];
    }
  }

  /** Credits never become negative, under any interleaving of coins, keypad
      entries and dispatcher iterations: each decrement follows a successful
      `credits >= 1` check. */
  lemma CreditsNeverNegative(s: State, t: seq<Event>)
    requires s.credits >= 0
    ensures forall i :: 0 <= i < |Run(s, t).states| ==> Run(s, t).states[i].credits >= 0
  {
    forall i | 0 <= i < |Run(s, t).states| {
      NonNegativeAt(s, t, i);
    }
  }

  /** Credit balance: final credits = start credits + coins - tracks played,
      and the played history grows by exactly the played tracks, in order. */
  lemma {:induction false} Accounting(s: State, t: seq<Event>)
    ensures Run(s, t).Final().credits == s.credits + CoinCount(t) - |PlayedPaths(Run(s, t).log)|
    ensures Run(s, t).Final().played == s.played + PlayedPaths(Run(s, t).log)
    decreases |t|
  {
    if |t| > 0 {
      var st := Apply(s, t[0]);
      RunCons(s, t);
      Accounting(st.next, t[1..]);
      var log := Run(s, t).log;
      assert PlayedPaths(log) == Track(st.outcome) + PlayedPaths(log[1..]);
    }
  }

  /** Sequence bookkeeping for one step of `FifoOrder`. */
  lemma Regroup<T>(taken: seq<T>, d: seq<T>, q: seq<T>, mid: seq<T>, front: seq<T>, entered: seq<T>, p: seq<T>)
    requires d + q == mid + p
    requires taken + mid == front + entered
    ensures (taken + d) + q == (front + entered) + p
  {
    calc {
      (taken + d) + q;
      taken + (d + q);
      taken + (mid + p);
      (taken + mid) + p;
    }
  }

  /** Selections are served in arrival order: what has been taken off the
      queue, followed by what is still waiting, is exactly the start queue
      followed by every keypad entry. Nothing is lost, duplicated or
      reordered. */
  lemma {:induction false} FifoOrder(s: State, t: seq<Event>)
    ensures Dequeued(Run(s, t).log) + Run(s, t).Final().queue == s.queue + Pressed(t)
    decreases |t|
  {
    if |t| > 0 {
      var st := Apply(s, t[0]);
      var rest := Run(st.next, t[1..]);
      RunCons(s, t);
      FifoOrder(st.next, t[1..]);
      ApplyQueue(s, t[0]);
      var log := Run(s, t).log;
      var entered := if t[0].Selection? then [t[0].code] else [];
      var taken, d, q, p := Taken(st.outcome), Dequeued(rest.log), rest.Final().queue, Pressed(t[1..]);
      assert Dequeued(log) == taken + d;
      assert Pressed(t) == entered + p;
      Regroup(taken, d, q, st.next.queue, s.queue, entered, p);
    }
  }

  /** Per event: a track is played exactly when a dispatcher iteration had
      credit and a pending head selection that resolves to an existing catalog
      file, and the track is that file. */
  lemma PlaysAreJustified(s: State, t: seq<Event>, r: Execution)
    requires r == Run(s, t)
    ensures forall i :: 0 <= i < |t| ==>
      (r.log[i].Played? <==>
         t[i].Iteration? && r.states[i].credits >= 1 && |r.states[i].queue| > 0 &&
         Resolve(r.states[i].queue[0], t[i].onDisk).Found?)
    ensures forall i :: 0 <= i < |t| ==>
      r.log[i].Played? ==>
         r.log[i].code == r.states[i].queue[0] && r.log[i].code in Songs &&
         r.log[i].path == Mp3Path + Songs[r.log[i].code]
  {
    forall i | 0 <= i < |t|
      ensures r.log[i].Played? <==>
         t[i].Iteration? && r.states[i].credits >= 1 && |r.states[i].queue| > 0 &&
         Resolve(r.states[i].queue[0], t[i].onDisk).Found?
      ensures r.log[i].Played? ==>
         r.log[i].code == r.states[i].queue[0] && r.log[i].code in Songs &&
         r.log[i].path == Mp3Path + Songs[r.log[i].code]
    {
      assert Apply(r.states[i], t[i]) == Stepped(r.states[i + 1], r.log[i]);
    }
  }

  /** Per event: a dispatcher iteration without credit takes nothing off the
      queue, charges nothing, plays nothing and turns the light off; one with
      credit turns the light on. Coins and keypad entries leave the light. */
  lemma CreditGate(s: State, t: seq<Event>, r: Execution)
    requires r == Run(s, t)
    ensures forall i :: 0 <= i < |t| ==>
      t[i].Iteration? && r.states[i].credits < 1 ==>
        r.states[i + 1] == r.states[i].(light := Off) && |Taken(r.log[i])| == 0
    ensures forall i :: 0 <= i < |t| ==>
      r.states[i + 1].light ==
        (if !t[i].Iteration? then r.states[i].light
         else if r.states[i].credits >= 1 then On else Off)
  {
    forall i | 0 <= i < |t|
      ensures t[i].Iteration? && r.states[i].credits < 1 ==>
        r.states[i + 1] == r.states[i].(light := Off) && |Taken(r.log[i])| == 0
      ensures r.states[i + 1].light ==
        (if !t[i].Iteration? then r.states[i].light
         else if r.states[i].credits >= 1 then On else Off)
    {
      ApplyGate(r.states[i], t[i]);
      assert Apply(r.states[i], t[i]) == Stepped(r.states[i + 1], r.log[i]);
    }
  }
}
