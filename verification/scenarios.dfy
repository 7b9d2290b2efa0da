/**
 Concrete runs of the dispatcher on small event traces, built up one event
 at a time with `Trace.RunSnoc`.
 */
module Scenarios {
  import opened Catalog
  import opened Dispatcher
  import opened Trace

  /** A filesystem on which every file exists. */
  function AllPresent(p: string): bool { true }

  /** A filesystem on which no file exists. */
  function NonePresent(p: string): bool { false }

  /** Two coins and the selections A1 then A2: the two tracks play in
      selection order and both credits are spent. */
  lemma TwoSelectionsPlayInOrder()
    ensures Run(Initial, [CoinEdge, CoinEdge, Selection("A1"), Selection("A2"),
                          Iteration(AllPresent), Iteration(AllPresent)]).Final()
            == State(0, [], On, ["/home/pi/music/song1.mp3", "/home/pi/music/song2.mp3"])
  {
    var queued := [CoinEdge, CoinEdge, Selection("A1"), Selection("A2")];
    CoinsThenEntries();
    PlayTwoQueued(queued);
    assert queued + [Iteration(AllPresent), Iteration(AllPresent)]
        == [CoinEdge, CoinEdge, Selection("A1"), Selection("A2"), Iteration(AllPresent), Iteration(AllPresent)];
  }

  /** Two coins and two keypad entries leave two credits and A1, A2 queued. */
  lemma CoinsThenEntries()
    ensures Run(Initial, [CoinEdge, CoinEdge, Selection("A1"), Selection("A2")]).Final()
            == State(2, ["A1", "A2"], Off, [])
  {
    RunSnoc(Initial, [], CoinEdge);
    RunSnoc(Initial, [CoinEdge], CoinEdge);
    RunSnoc(Initial, [CoinEdge, CoinEdge], Selection("A1"));
    RunSnoc(Initial, [CoinEdge, CoinEdge, Selection("A1")], Selection("A2"));
  }

  /** From two credits and A1, A2 queued, two iterations play song1 then
      song2 and spend both credits. */
  lemma PlayTwoQueued(pre: seq<Event>)
    requires Run(Initial, pre).Final() == State(2, ["A1", "A2"], Off, [])
    ensures Run(Initial, pre + [Iteration(AllPresent), Iteration(AllPresent)]).Final()
            == State(0, [], On, ["/home/pi/music/song1.mp3", "/home/pi/music/song2.mp3"])
  {
    var song1, song2 := "/home/pi/music/song1.mp3", "/home/pi/music/song2.mp3";
    assert Mp3Path + Songs["A1"] == song1;
    assert Mp3Path + Songs["A2"] == song2;
    PlayNext(pre, State(2, ["A1", "A2"], Off, []));
    var pre1 := pre + [Iteration(AllPresent)];
    PlayNext(pre1, State(1, ["A2"], On, [song1]));
    assert pre1 + [Iteration(AllPresent)] == pre + [Iteration(AllPresent), Iteration(AllPresent)];
  }

  /** With credit and every file present, the next iteration plays the head
      selection's track and spends one credit. */
  lemma PlayNext(pre: seq<Event>, st: State)
    requires Run(Initial, pre).Final() == st
    requires st.credits >= 1 && |st.queue| > 0 && st.queue[0] in Songs
    ensures Run(Initial, pre + [Iteration(AllPresent)]).Final()
            == State(st.credits - 1, st.queue[1..], On, st.played + [Mp3Path + Songs[st.queue[0]]])
  {
    RunSnoc(Initial, pre, Iteration(AllPresent));
  }

  /** With one credit, a code outside the catalog is consumed from the queue
      but costs nothing and plays nothing. */
  lemma InvalidSelectionIsFree()
    ensures Run(Initial, [CoinEdge, Selection("Z9"), Iteration(AllPresent)]).Final()
            == State(1, [], On, [])
  {
    RunSnoc(Initial, [], CoinEdge);
    RunSnoc(Initial, [CoinEdge], Selection("Z9"));
    RunSnoc(Initial, [CoinEdge, Selection("Z9")], Iteration(AllPresent));
  }

  /** With one credit, a catalog code whose file is absent costs nothing and
      plays nothing. */
  lemma MissingFileIsFree()
    ensures Run(Initial, [CoinEdge, Selection("B1"), Iteration(NonePresent)]).Final()
            == State(1, [], On, [])
  {
    RunSnoc(Initial, [], CoinEdge);
    RunSnoc(Initial, [CoinEdge], Selection("B1"));
    RunSnoc(Initial, [CoinEdge, Selection("B1")], Iteration(NonePresent));
  }

  /** A selection made without credit stays queued, light off, until a coin
      arrives; it is then the one played. */
  lemma SelectionWaitsForCredit()
    ensures Run(Initial, [Selection("A3"), Iteration(AllPresent)]).Final()
            == State(0, ["A3"], Off, [])
    ensures Run(Initial, [Selection("A3"), Iteration(AllPresent), CoinEdge, Iteration(AllPresent)]).Final()
            == State(0, [], On, ["/home/pi/music/song3.mp3"])
  {
    assert Mp3Path + Songs["A3"] == "/home/pi/music/song3.mp3";
    RunSnoc(Initial, [], Selection("A3"));
    RunSnoc(Initial, [Selection("A3")], Iteration(AllPresent));
    var waiting := [Selection("A3"), Iteration(AllPresent)];
    assert Run(Initial, waiting).Final() == State(0, ["A3"], Off, []);
    RunSnoc(Initial, waiting, CoinEdge);
    RunSnoc(Initial, waiting + [CoinEdge], Iteration(AllPresent));
    assert waiting + [CoinEdge] + [Iteration(AllPresent)]
        == [Selection("A3"), Iteration(AllPresent), CoinEdge, Iteration(AllPresent)];
  }
}
