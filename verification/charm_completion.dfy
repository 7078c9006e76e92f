// Every run of the moments exchange can be carried to its end, and the one kind of
// world in which a PE then has not called treeReady.
module MomentsCompletion {
  import opened TreeKeys
  import opened Decomposition
  import opened TreeBuild
  import opened NodeFacts
  import opened Moments
  import opened MomentsExchange
  import opened MomentsSystem

  ghost predicate AllRooted(s: Sys) {
    forall p :: 0 <= p < |s.pes| ==> Done(s.pes[p], ROOT)
  }

  // No message order gets stuck: any run extends to one that ends with every PE
  // built, no message in flight and every root finished.
  lemma {:induction false} EveryRunCompletes(w: World, run: seq<Sys>, left: nat) returns (whole: seq<Sys>)
    requires Run(w, run) && ValidWorld(w) && |run| - 1 + left == Work(w, |run[0].pes|)
    ensures |run| <= |whole| && whole[..|run|] == run && Run(w, whole) && Quiet(whole[|whole| - 1])
    ensures |whole| - 1 <= Work(w, |run[0].pes|) && |whole[|whole| - 1].pes| == |run[0].pes|
    ensures AllRooted(whole[|whole| - 1])
    decreases left
  {
    hide ValidWorld, Inv, Next, Init, Work, Potential, Quiet, Done, Refined;
    var n := |run| - 1;
    RunKeeps(w, run, n);
    RunLength(w, run, n);
    if Quiet(run[n]) {
      whole := run;
      forall p | 0 <= p < |run[0].pes| ensures Done(run[n].pes[p], ROOT) { QuietMeansReady(w, run, p); }
    } else {
      SomeStep(w, run[n]);
      var s' :| Next(w, run[n], s');
      var longer := run + [s'];
      assert Run(w, longer) by { OneMore(w, run, s'); }
      RunLength(w, longer, n + 1);
      whole := EveryRunCompletes(w, longer, left - 1);
      assert whole[..n + 1] == whole[..n + 2][..n + 1] == run;
    }
  }

  lemma OneMore(w: World, run: seq<Sys>, s': Sys)
    requires Run(w, run) && Next(w, run[|run| - 1], s')
    ensures Run(w, run + [s'])
  {
    hide Next, Init;
  }

  // One TreePiece with a single particle, on PE 0 of one PE.
  const LONE := World([Piece(ROOT, [Particle(Lo(ROOT), 1.0)], 0)], 1, (asker: nat, c: Cell) => 0)

  lemma LoneIsValid()
    ensures ValidWorld(LONE) && !Refined(LONE, ROOT)
  {
    assert ValidCell(ROOT);
    CellFitsWord(ROOT);
    assert ValidPiece(LONE.pieces[0]);
    assert AllFrom(LONE.pieces[1..]) == [];
    assert AllFrom(LONE.pieces) == LONE.pieces[0].parts;
    BetweenAll(LONE.pieces[0].parts, Lo(ROOT), Hi(ROOT));
  }

  // Its PE finishes the root, and never calls treeReady.
  lemma LoneRootNeverReady() returns (run: seq<Sys>)
    ensures Run(LONE, run) && Quiet(run[|run| - 1]) && |run[|run| - 1].pes| == 1
    ensures Done(run[|run| - 1].pes[0], ROOT) && run[|run| - 1].pes[0].readyFired == 0
  {
    hide ValidWorld, Inv, Next, Work, Potential, Quiet, Done, Refined;
    LoneIsValid();
    var s := Sys([PE(false, map[], {}, map[], 0, false)], multiset{});
    assert Run(LONE, [s]);
    RunLength(LONE, [s], 0);
    run := EveryRunCompletes(LONE, [s], Work(LONE, 1));
    QuietMeansReady(LONE, run, 0);
    ReadyOnce(LONE, run[|run| - 1], 0) by { RunKeeps(LONE, run, |run| - 1); }
  }
}
