/**
 The jukebox's credit and selection dispatcher as an immutable state record
 and pure transitions: the coin callback, a keypad entry joining the
 selection queue, and one iteration of the dispatcher loop.
 */
module Dispatcher {
  import opened Catalog

  /** The keypad's credit light. */
  datatype Light = On | Off

  /** Credit count, pending keypad selections (head first), credit light and
      the paths played so far, oldest first. */
  datatype State = State(credits: int, queue: seq<string>, light: Light, played: seq<string>)

  /** The start of the process: no credit, no selection, nothing played. */
  const Initial := State(0, [], Off, [])

  /** What one event did; the dispatcher outcomes mirror its log lines. */
  datatype Outcome =
    | Credited                                  // coin callback
    | Queued(code: string)                      // keypad entry
    | LightOff                                  // no credit: light off, nothing else
    | Awaiting                                  // credit, but no selection yet
    | InvalidSelection(code: string)            // code not in the catalog
    | MissingFile(code: string, path: string)   // catalog file not on disk
    | Played(code: string, path: string)        // track played

  datatype Stepped = Stepped(next: State, outcome: Outcome)

  /** The selection an outcome took off the queue, if any. */
  function Taken(o: Outcome): seq<string> {
    match o
    case InvalidSelection(c) => [c]
    case MissingFile(c, _) => [c]
    case Played(c, _) => [c]
    case _ => []
  }

  /** The track an outcome played, if any. */
  function Track(o: Outcome): seq<string> {
    if o.Played? then [o.path] else []
  }

  /** The coin callback: exactly one more credit, nothing else touched. */
  function Coin(s: State): (r: State)
    ensures r.credits == s.credits + 1
    ensures r.queue == s.queue && r.light == s.light && r.played == s.played
  {
    s.(credits := s.credits + 1)
  }

  /** The keypad hands one selection code to the dispatcher's queue. */
  function Enqueue(s: State, code: string): (r: State)
    ensures r.queue == s.queue + [code] && r.queue[..|s.queue|] == s.queue
    ensures r.credits == s.credits && r.light == s.light && r.played == s.played
  {
    s.(queue := s.queue + [code])
  }

  /** The part of a loop iteration up to and including the start of playback:
      the credit check, the light, taking the head selection, resolving it and
      starting the track. The credit for a started track is taken afterwards,
      by `Charge`, once playback has finished. */
  function Begin(s: State, onDisk: string -> bool): (r: Stepped)
    // credit is never touched here
    ensures r.next.credits == s.credits
    // the light shows the credit gate
    ensures r.next.light == (if s.credits >= 1 then On else Off)
    // a selection leaves only from the head, and only when there is credit
    ensures Taken(r.outcome) + r.next.queue == s.queue
    ensures |Taken(r.outcome)| == 1 <==> s.credits >= 1 && |s.queue| > 0
    ensures r.next.played == s.played + Track(r.outcome)
    ensures r.outcome.Played? <==>
              s.credits >= 1 && |s.queue| > 0 && Resolve(s.queue[0], onDisk).Found?
    ensures r.outcome.Played? ==> Resolve(r.outcome.code, onDisk) == Found(r.outcome.path)
    ensures r.outcome.InvalidSelection? ==> r.outcome.code !in Songs
    ensures r.outcome.MissingFile? ==> Resolve(r.outcome.code, onDisk) == Missing(r.outcome.path)
    // with credit but no selection, the loop is left waiting for one
    ensures s.credits >= 1 && |s.queue| == 0 ==> r.outcome == Awaiting
  {
    if s.credits < 1 then
      Stepped(s.(light := Off), LightOff)
    else if |s.queue| == 0 then
      Stepped(s.(light := On), Awaiting)
    else
      var code := s.queue[0];
      var t := s.(light := On, queue := s.queue[1..]);
      match Resolve(code, onDisk)
      case Unknown => Stepped(t, InvalidSelection(code))
      case Missing(p) => Stepped(t, MissingFile(code, p))
      case Found(p) => Stepped(t.(played := t.played + [p]), Played(code, p))
  }

  /** The decrement after a finished track: one credit less, nothing else. */
  function Charge(s: State): (r: State)
    ensures r.credits == s.credits - 1
    ensures r.queue == s.queue && r.light == s.light && r.played == s.played
  {
    s.(credits := s.credits - 1)
  }

  /** One iteration of the dispatcher loop: `Begin`, then the decrement when a
      track was played. */
  function Step(s: State, onDisk: string -> bool): (r: Stepped)
    // credit is charged exactly for a played track
    ensures r.next.credits == s.credits - |Track(r.outcome)|
    ensures r.next.played == s.played + Track(r.outcome)
    // never below zero from a non-negative start
    ensures s.credits >= 0 ==> r.next.credits >= 0
    ensures r.next.light == (if s.credits >= 1 then On else Off)
    ensures Taken(r.outcome) + r.next.queue == s.queue
    // without credit nothing is taken, charged or played
    ensures s.credits < 1 ==> r.outcome == LightOff && r.next == s.(light := Off)
    // with credit but no selection, only the light changes
    ensures s.credits >= 1 && |s.queue| == 0 ==> r.outcome == Awaiting && r.next == s.(light := On)
    // with credit and a pending selection, exactly the head is taken
    ensures s.credits >= 1 && |s.queue| > 0 ==> Taken(r.outcome) == [s.queue[0]] && r.next.queue == s.queue[1..]
    // an unknown code or a missing file costs nothing and plays nothing
    ensures s.credits >= 1 && |s.queue| > 0 && !Resolve(s.queue[0], onDisk).Found? ==>
              r.next.credits == s.credits && r.next.played == s.played
    // a playable code plays its catalog path and costs exactly one credit
    ensures s.credits >= 1 && |s.queue| > 0 && Resolve(s.queue[0], onDisk).Found? ==>
              r.outcome == Played(s.queue[0], Mp3Path + Songs[s.queue[0]]) &&
              r.next.played == s.played + [Mp3Path + Songs[s.queue[0]]] &&
              r.next.credits == s.credits - 1
  {
    var b := Begin(s, onDisk);
    if b.outcome.Played? then Stepped(Charge(b.next), b.outcome) else b
  }
}
