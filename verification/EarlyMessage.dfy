/** A run in which every component does its part and a message is lost. */
module EarlyMessage {
  import opened Common
  import opened Operations
  import opened ChannelServer
  import opened ChannelRuns
  import opened MessageCounts
  import opened Pipeline
  import opened PipelineLosses

  function PlainOperation(): Operation {
    ExampleOperation().(timestamp := 2)
  }

  const EARLY_MOVES: seq<Move> := [Arrive(PlainOperation()), Decrypt(0, true, true, true), Execute(0, true), GrantOpen(OpenAnswering(0))]

  /** An operation that needs no key, or one that is known already, is taken before the opening: every
      component does its part, and the message is gone. */
  lemma EarlyMessageIsLost()
    ensures
      var w := Moves(Begin("c"), EARLY_MOVES);
      && Quiet(w) && IsOpened(w) && w.lost == [] && w.arrived == [PlainOperation()]
      && w.system.channel.messages == []
      && !NeverLoses(Begin("c"), EARLY_MOVES)
  {
    var m := EARLY_MOVES;
    EarlyMessageComesIn();
    hide Moved, Loses, Initial;
    FourMoves(Begin("c"), m[0], m[1], m[2], m[3]);
    EarlyMessageIsDropped(Moved(Moved(Begin("c"), m[0]), m[1]));
  }

  lemma FourMoves(w: World, a: Move, b: Move, c: Move, d: Move)
    requires Consistent(w.system)
    ensures Moves(w, [a, b, c, d]) == Moved(Moved(Moved(Moved(w, a), b), c), d)
    ensures Loses(Moved(Moved(w, a), b), c) ==> !NeverLoses(w, [a, b, c, d])
  {
    hide Moved, Loses, Consistent;
    assert [a, b, c, d][..3] == [a, b, c] && [a, b, c][..2] == [a, b] && [a, b][..1] == [a] && [a][..0] == [];
    assert Moves(w, [a]) == Moved(w, a);
    assert Moves(w, [a, b]) == Moved(Moved(w, a), b);
    assert Moves(w, [a, b, c]) == Moved(Moved(Moved(w, a), b), c);
  }

  lemma EarlyMessageComesIn()
    ensures
      Moved(Moved(Begin("c"), Arrive(PlainOperation())), Decrypt(0, true, true, true))
      == World(Initial("c"), [], [], [ToAdd(PlainOperation(), Signers(OWNER, OWNER), "m")], [PlainOperation()], [])
  {
    var w := Moved(Begin("c"), Arrive(PlainOperation()));
    assert w.atDecryptor == [PlainOperation()] && w.arrived == [PlainOperation()];
    assert Without(w.atDecryptor, 0) == [];
  }

  lemma EarlyMessageIsDropped(w: World)
    requires w.system == Initial("c") && w.handled == [] && w.atDecryptor == [] && w.lost == []
    requires w.atExecutor == [ToAdd(PlainOperation(), Signers(OWNER, OWNER), "m")]
    ensures
      var r := Moved(Moved(w, Execute(0, true)), GrantOpen(OpenAnswering(0)));
      && Quiet(r) && IsOpened(r) && r.lost == [] && r.arrived == w.arrived && r.system.channel.messages == []
      && Loses(w, Execute(0, true))
  {
    assert Without(w.atExecutor, 0) == [];
    assert |EXAMPLE_PERMISSIONS| == 1;
    var v := Moved(w, Execute(0, true));
    assert v.system == Initial("c");
  }
}
