/** What holds over every run of the system of EngineRuns. */
module EngineTheorems {
  import opened Protocol
  import opened Ledger
  import opened RingModel
  import opened Fills
  import opened EngineModel
  import opened EngineRuns

  // ---- The transfer machine ----

  /**
   Between events, for every run of statuses and submission outcomes: a running engine has every transfer
   of both directions in flight, and in its first session the successful submissions are the initial four
   plus one per completion or error. In any session they are the transfers still in flight plus those that
   came back.
   */
  lemma TransferMachine(es: seq<Event>)
    requires Feasible(INITIAL, es)
    ensures var t := Final(INITIAL, es);
            && (t.running ==> t.usb.inFlight == {0, 1, 2, 3} && t.usb.outFlight == {0, 1, 2, 3})
            && (t.running && t.usb.starts == 1 ==>
                  && t.usb.inSubmitted == NUM_XFERS + t.inCompletions + t.inErrors
                  && t.usb.outSubmitted == NUM_XFERS + t.outCompletions + t.outErrors)
            && t.usb.inSubmitted == |t.usb.inFlight| + t.inCompletions + t.inErrors + t.usb.inDropped
            && t.usb.outSubmitted == |t.usb.outFlight| + t.outCompletions + t.outErrors + t.usb.outDropped
  {
    InitialInv();
    RunKeepsInv(INITIAL, es);
    var t := Final(INITIAL, es);
    AllTransfers();
  }

  lemma AllTransfers()
    ensures Below(NUM_XFERS) == {0, 1, 2, 3} && |Below(NUM_XFERS)| == NUM_XFERS
  {
    assert Below(NUM_XFERS) == {0, 1, 2, 3};
  }

  // ---- What Start and Stop do not do ----

  /** A submission of a running engine succeeds if and only if one of its two tries does, and else stops the engine. */
  lemma InTriesTwice(e: Engine, i: nat, answer: Submit)
    requires e.Ok() && e.running
    ensures var t, taken := SubmitIn(e, i, answer), answer.first || answer.retry;
            && (t.running <==> taken)
            && t.usb.inFlight == (if taken then e.usb.inFlight + {i} else e.usb.inFlight)
            && t.usb.inSubmitted == e.usb.inSubmitted + (if taken then 1 else 0)
            && t.outRing == e.outRing && t.usb.fills == e.usb.fills && t.usb.outFlight == e.usb.outFlight
  {
  }

  /** The OUT ring is read either way. */
  lemma OutTriesTwice(e: Engine, i: nat, answer: Submit, gaps: Gaps)
    requires e.Ok() && e.running
    ensures var t, taken := SubmitOut(e, i, answer, gaps), answer.first || answer.retry;
            && (t.running <==> taken)
            && t.usb.outFlight == (if taken then e.usb.outFlight + {i} else e.usb.outFlight)
            && t.usb.outSubmitted == e.usb.outSubmitted + (if taken then 1 else 0)
            && t.outRing == AfterFill(e.outRing, gaps) && |t.usb.fills| == |e.usb.fills| + 1
            && t.inRing == e.inRing && t.usb.inFlight == e.usb.inFlight
  {
  }

  /** An engine that does not run submits nothing and does not read the OUT ring. */
  lemma StoppedSubmitsNothing(e: Engine, i: nat, answer: Submit, gaps: Gaps)
    requires e.Ok() && !e.running
    ensures SubmitIn(e, i, answer) == e
    ensures SubmitOut(e, i, answer, gaps) == e.(outRing := e.outRing.Publish(Flat(gaps)))
  {
  }

  lemma PairRuns(e: Engine, i: nat, answer: (Submit, Submit), gaps: Gaps)
    requires e.Ok()
    ensures SubmitPair(e, i, answer, gaps).running == (e.running && answer.0.Ok() && answer.1.Ok())
  {
  }

  /** libusb took the submission, at the first try or at the second. */
  predicate Took(answer: Submit) {
    answer.first || answer.retry
  }

  /** libusb took both submissions of every pair below k. */
  predicate AllTaken(answers: seq<(Submit, Submit)>, k: nat)
    requires k <= |answers|
  {
    forall j :: 0 <= j < k ==> Took(answers[j].0) && Took(answers[j].1)
  }

  /** The same, counted pair by pair. */
  predicate Taken(answers: seq<(Submit, Submit)>, k: nat)
    requires k <= |answers|
  {
    k == 0 || (Taken(answers, k - 1) && Took(answers[k - 1].0) && Took(answers[k - 1].1))
  }

  lemma {:induction false} TakenIsAll(answers: seq<(Submit, Submit)>, k: nat)
    requires k <= |answers|
    ensures Taken(answers, k) <==> AllTaken(answers, k)
  {
    if k > 0 {
      TakenIsAll(answers, k - 1);
    }
  }

  lemma {:induction false} SubmitAllRuns(e: Engine, k: nat, answers: seq<(Submit, Submit)>, plugin: seq<Gaps>)
    requires e.Ok() && e.running && k <= |answers| && k <= |plugin|
    ensures SubmitAll(e, k, answers, plugin).running <==> Taken(answers, k)
  {
    if k > 0 {
      SubmitAllRuns(e, k - 1, answers, plugin);
      PairRuns(SubmitAll(e, k - 1, answers, plugin), k - 1, answers[k - 1], plugin[k - 1]);
    }
  }

  /**
   A started engine runs if and only if it ran already, or every allocation succeeded and libusb took every
   submission; so what Start returns is wrong exactly when the allocations succeed and a submission is refused.
   */
  lemma StartRunsIff(e: Engine, allocs: nat, answers: seq<(Submit, Submit)>, plugin: seq<Gaps>)
    requires e.Ok() && |answers| == NUM_XFERS && |plugin| == NUM_XFERS
    ensures Start(e, allocs, answers, plugin).running
       <==> e.running || (allocs >= ALLOCATIONS && AllTaken(answers, NUM_XFERS))
    ensures StartResult(e, allocs) != Start(e, allocs, answers, plugin).running
       <==> !e.running && allocs >= ALLOCATIONS && !AllTaken(answers, NUM_XFERS)
  {
    if !e.running && allocs >= ALLOCATIONS {
      TakenIsAll(answers, NUM_XFERS);
      SubmitAllRuns(Opened(e), NUM_XFERS, answers, plugin);
    }
  }

  // ---- Exactly what a start submits ----

  /** The OUT ring after these transfers were filled from it, one after the other. */
  function AfterFills(s: Stream, plugin: seq<Gaps>): (t: Stream)
    requires s.Ok()
    ensures t.Ok()
  {
    if plugin == [] then s else AfterFill(AfterFills(s, plugin[..|plugin| - 1]), plugin[|plugin| - 1])
  }

  /** m is e after the IN transfers below ins and the OUT transfers below outs went out and `filled` were filled. */
  predicate HasSubmitted(e: Engine, m: Engine, ins: nat, outs: nat, filled: nat, plugin: seq<Gaps>)
    requires e.Ok() && filled <= |plugin|
  {
    var ring := AfterFills(e.outRing, plugin[..filled]);
    && m.usb.inFlight == Below(ins) && m.usb.outFlight == Below(outs)
    && m.usb.inSubmitted == e.usb.inSubmitted + ins && m.usb.outSubmitted == e.usb.outSubmitted + outs
    && |m.usb.fills| == |e.usb.fills| + filled
    && m.outRing.rp == ring.rp && m.outRing.log == ring.log
  }

  lemma FillsNext(s: Stream, plugin: seq<Gaps>, k: nat)
    requires s.Ok() && k < |plugin|
    ensures AfterFills(s, plugin[..k + 1]) == AfterFill(AfterFills(s, plugin[..k]), plugin[k])
  {
    assert plugin[..k + 1][..k] == plugin[..k];
  }

  /** While nothing is refused, both transfers of every pair go out. */
  predicate PairsOut(e: Engine, m: Engine, k: nat, plugin: seq<Gaps>)
    requires e.Ok() && k <= |plugin|
  {
    m.running && m.outRing == AfterFills(e.outRing, plugin[..k]) && HasSubmitted(e, m, k, k, k, plugin)
  }

  lemma PairGoesOut(e: Engine, m: Engine, k: nat, next: nat, answer: (Submit, Submit), plugin: seq<Gaps>)
    requires e.Ok() && m.Ok() && k < next == k + 1 <= |plugin| && PairsOut(e, m, k, plugin)
    requires Took(answer.0) && Took(answer.1)
    ensures PairsOut(e, SubmitPair(m, k, answer, plugin[k]), next, plugin)
  {
    InTriesTwice(m, k, answer.0);
    OutTriesTwice(SubmitIn(m, k, answer.0), k, answer.1, plugin[k]);
    FillsNext(e.outRing, plugin, k);
  }

  lemma {:induction false} TakenPairsGoOut(e: Engine, k: nat, answers: seq<(Submit, Submit)>, plugin: seq<Gaps>)
    requires e.Ok() && e.running && e.usb.inFlight == {} && e.usb.outFlight == {}
    requires k <= |answers| && k <= |plugin| && Taken(answers, k)
    ensures PairsOut(e, SubmitAll(e, k, answers, plugin), k, plugin)
  {
    if k > 0 {
      TakenPairsGoOut(e, k - 1, answers, plugin);
      PairGoesOut(e, SubmitAll(e, k - 1, answers, plugin), k - 1, k, answers[k - 1], plugin);
    }
  }

  /** IN transfer k refused: OUT transfer k is not even filled. */
  lemma RefusedIn(e: Engine, m: Engine, k: nat, answer: (Submit, Submit), plugin: seq<Gaps>)
    requires e.Ok() && m.Ok() && k < |plugin| && PairsOut(e, m, k, plugin) && !Took(answer.0)
    ensures var t := SubmitPair(m, k, answer, plugin[k]); !t.running && HasSubmitted(e, t, k, k, k, plugin)
  {
    InTriesTwice(m, k, answer.0);
    StoppedSubmitsNothing(SubmitIn(m, k, answer.0), k, answer.1, plugin[k]);
  }

  /** OUT transfer k refused: its bytes are gone all the same. */
  lemma RefusedOut(e: Engine, m: Engine, k: nat, next: nat, answer: (Submit, Submit), plugin: seq<Gaps>)
    requires e.Ok() && m.Ok() && k < next == k + 1 <= |plugin| && PairsOut(e, m, k, plugin)
    requires Took(answer.0) && !Took(answer.1)
    ensures var t := SubmitPair(m, k, answer, plugin[k]); !t.running && HasSubmitted(e, t, next, k, next, plugin)
  {
    InTriesTwice(m, k, answer.0);
    OutTriesTwice(SubmitIn(m, k, answer.0), k, answer.1, plugin[k]);
    FillsNext(e.outRing, plugin, k);
  }

  /** Nothing but the plugin's writes to the OUT ring lies between m and t. */
  predicate OnlyWrites(m: Engine, t: Engine) {
    t == m.(outRing := t.outRing) && t.outRing.rp == m.outRing.rp && t.outRing.log == m.outRing.log
  }

  lemma StoppedPair(e: Engine, m: Engine, i: nat, answer: (Submit, Submit), gaps: Gaps)
    requires m.Ok() && OnlyWrites(e, m) && !e.running
    ensures OnlyWrites(e, SubmitPair(m, i, answer, gaps))
  {
    StoppedSubmitsNothing(m, i, answer.0, gaps);
    StoppedSubmitsNothing(m, i, answer.1, gaps);
  }

  /** After a refusal the remaining pairs do nothing. */
  lemma {:induction false} RestDoesNothing(e: Engine, m: Engine, k: nat, n: nat,
                                           answers: seq<(Submit, Submit)>, plugin: seq<Gaps>)
    requires e.Ok() && k <= n <= |answers| && n <= |plugin|
    requires m == SubmitAll(e, k, answers, plugin) && !m.running
    ensures OnlyWrites(m, SubmitAll(e, n, answers, plugin))
    decreases n
  {
    if k < n {
      RestDoesNothing(e, m, k, n - 1, answers, plugin);
      StoppedPair(m, SubmitAll(e, n - 1, answers, plugin), n - 1, answers[n - 1], plugin[n - 1]);
    }
  }

  /** A start that does nothing: the engine runs already, or an allocation fails. */
  lemma IdleStart(e: Engine, allocs: nat, answers: seq<(Submit, Submit)>, plugin: seq<Gaps>)
    requires e.Ok() && |answers| == NUM_XFERS && |plugin| == NUM_XFERS
    requires e.running || allocs < ALLOCATIONS
    ensures OnlyWrites(e, Start(e, allocs, answers, plugin))
  {
  }

  /**
   Exactly what a start submits, by the first pair with a refusal. IN k refused: the pairs below k, and nothing is
   read for OUT k. OUT k refused: IN k besides, and OUT k's bytes are read but not in flight. None refused: all.
   */
  lemma StartSubmits(e: Engine, allocs: nat, answers: seq<(Submit, Submit)>, plugin: seq<Gaps>, k: nat)
    requires e.Ok() && !e.running && e.usb.inFlight == {} && e.usb.outFlight == {} && allocs >= ALLOCATIONS
    requires |answers| == NUM_XFERS && |plugin| == NUM_XFERS && k <= NUM_XFERS && AllTaken(answers, k)
    ensures var t := Start(e, allocs, answers, plugin);
            && t.usb.starts == e.usb.starts + 1
            && (k == NUM_XFERS ==> t.running && HasSubmitted(e, t, 4, 4, 4, plugin))
            && (k < NUM_XFERS && !answers[k].0.first && !answers[k].0.retry ==>
                  !t.running && HasSubmitted(e, t, k, k, k, plugin))
            && (k < NUM_XFERS && Took(answers[k].0) && !answers[k].1.first && !answers[k].1.retry ==>
                  !t.running && HasSubmitted(e, t, k + 1, k, k + 1, plugin))
  {
    var o := Opened(e);
    TakenIsAll(answers, k);
    TakenPairsGoOut(o, k, answers, plugin);
    SubmitAllStarts(o, NUM_XFERS, answers, plugin);
    if k < NUM_XFERS && !Took(answers[k].0) {
      RefusedIn(o, SubmitAll(o, k, answers, plugin), k, answers[k], plugin);
      RestDoesNothing(o, SubmitAll(o, k + 1, answers, plugin), k + 1, NUM_XFERS, answers, plugin);
    } else if k < NUM_XFERS && !Took(answers[k].1) {
      RefusedOut(o, SubmitAll(o, k, answers, plugin), k, k + 1, answers[k], plugin);
      RestDoesNothing(o, SubmitAll(o, k + 1, answers, plugin), k + 1, NUM_XFERS, answers, plugin);
    }
  }

  lemma {:induction false} SubmitAllStarts(e: Engine, k: nat, answers: seq<(Submit, Submit)>, plugin: seq<Gaps>)
    requires e.Ok() && k <= |answers| && k <= |plugin|
    ensures SubmitAll(e, k, answers, plugin).usb.starts == e.usb.starts
  {
    if k > 0 {
      SubmitAllStarts(e, k - 1, answers, plugin);
      PairStarts(SubmitAll(e, k - 1, answers, plugin), k - 1, answers[k - 1], plugin[k - 1]);
    }
  }

  lemma PairStarts(e: Engine, i: nat, answer: (Submit, Submit), gaps: Gaps)
    requires e.Ok()
    ensures SubmitPair(e, i, answer, gaps).usb.starts == e.usb.starts
  {
  }

  function QuietPlan(n: nat, packets: nat): (plugin: seq<Gaps>)
    ensures |plugin| == n
  {
    if n == 0 then [] else QuietPlan(n - 1, packets) + [Quiet(packets)]
  }

  lemma {:induction false} QuietFits(wp: nat, n: nat)
    ensures GapsFit(wp, Quiet(n))
  {
    if n > 0 {
      QuietFits(wp, n - 1);
      assert Quiet<seq<byte>>(n)[..n - 1] == Quiet<seq<byte>>(n - 1);
    }
  }

  lemma PlanFitsOneMore(wp: nat, plugin: seq<Gaps>, gaps: Gaps)
    requires PlanFits(wp, plugin) && |gaps| == PACKETS_PER_XFER && GapsFit(wp + |FlatAll(plugin)|, gaps)
    ensures PlanFits(wp, plugin + [gaps])
  {
    assert (plugin + [gaps])[..|plugin|] == plugin;
  }

  lemma QuietTransferFits(wp: nat, plugin: seq<Gaps>, packets: nat)
    requires PlanFits(wp, plugin) && packets == PACKETS_PER_XFER
    ensures PlanFits(wp, plugin + [Quiet(packets)])
  {
    QuietFits(wp + |FlatAll(plugin)|, packets);
    PlanFitsOneMore(wp, plugin, Quiet(packets));
  }

  lemma {:induction false} QuietPlanFits(wp: nat, n: nat, packets: nat)
    requires packets == PACKETS_PER_XFER
    ensures PlanFits(wp, QuietPlan(n, packets))
  {
    if n > 0 {
      QuietPlanFits(wp, n - 1, packets);
      QuietTransferFits(wp, QuietPlan(n - 1, packets), packets);
    }
  }

  const TAKEN: (Submit, Submit) := (Submit(true, true), Submit(true, true))
  const REFUSED: (Submit, Submit) := (Submit(true, true), Submit(false, false))

  /** A first start whose last OUT submission is refused. */
  const REFUSED_START: Event :=
    Begin(ALLOCATIONS, [TAKEN, TAKEN, TAKEN, REFUSED], QuietPlan(NUM_XFERS, PACKETS_PER_XFER))

  /** Start says true and the engine does not run. */
  lemma StartCanMisreport()
    ensures Feasible(INITIAL, [REFUSED_START])
    ensures StartResult(INITIAL, ALLOCATIONS) && !Final(INITIAL, [REFUSED_START]).running
  {
    QuietPlanFits(0, NUM_XFERS, PACKETS_PER_XFER);
    FirstEvent(INITIAL, REFUSED_START);
    assert !Took(REFUSED_START.answers[3].1);
    StartRunsIff(INITIAL, ALLOCATIONS, REFUSED_START.answers, REFUSED_START.plugin);
  }

  lemma FirstEvent(e: Engine, ev: Event)
    requires e.Ok() && Enabled(e, ev)
    ensures Feasible(e, [ev]) && Final(e, [ev]) == Next(e, ev)
  {
    assert [ev][..0] == [];
    assert Feasible(e, []) && Final(e, []) == e;
  }

  lemma OneMoreEvent(e: Engine, es: seq<Event>, ev: Event)
    requires e.Ok() && Feasible(e, es) && Enabled(Final(e, es), ev)
    ensures Feasible(e, es + [ev]) && Final(e, es + [ev]) == Next(Final(e, es), ev)
  {
    assert (es + [ev])[..|es + [ev]| - 1] == es;
  }

  /** A start that succeeds in full. */
  predicate Starts(ev: Event) {
    ev.Begin? && ev.allocs >= ALLOCATIONS && |ev.answers| == NUM_XFERS && AllTaken(ev.answers, NUM_XFERS)
  }

  /** An event after which no engine runs: Stop, a disconnect, or a resubmission libusb refuses twice. */
  predicate Ends(ev: Event) {
    match ev
    case Halt => true
    case InDone(_, status, _, _, answer) =>
      status.NoDevice? || (!status.Cancelled? && !answer.first && !answer.retry)
    case OutDone(_, status, answer, _) =>
      status.NoDevice? || (!status.Cancelled? && !answer.first && !answer.retry)
    case _ => false
  }

  predicate NoneEnds(es: seq<Event>, k: nat) {
    forall j :: k < j < |es| ==> !Ends(es[j])
  }

  /** Some start succeeded in full, and nothing since then has ended it. */
  predicate StillGoing(es: seq<Event>) {
    exists k :: 0 <= k < |es| && Starts(es[k]) && NoneEnds(es, k)
  }

  lemma StepRuns(e: Engine, ev: Event)
    requires e.Ok() && Enabled(e, ev)
    ensures Next(e, ev).running <==> if e.running then !Ends(ev) else Starts(ev)
  {
    match ev
    case Begin(allocs, answers, plugin) => StartRunsIff(e, allocs, answers, plugin);
    case InDone(i, status, packets, turns, answer) =>
      if status.Done() {
        HandleInDone(e, i, status, packets, turns, answer);
      }
    case _ =>
  }

  lemma GoingNext(es: seq<Event>, ev: Event)
    ensures StillGoing(es + [ev]) <==> if StillGoing(es) then !Ends(ev) else Starts(ev)
  {
    var all := es + [ev];
    if StillGoing(es) {
      var k :| 0 <= k < |es| && Starts(es[k]) && NoneEnds(es, k);
      if !Ends(ev) {
        assert Starts(all[k]) && NoneEnds(all, k);
      }
    }
    if Starts(ev) {
      assert Starts(all[|es|]) && NoneEnds(all, |es|);
    }
    if StillGoing(all) {
      var k :| 0 <= k < |all| && Starts(all[k]) && NoneEnds(all, k);
      if k < |es| {
        assert !Ends(all[|es|]);
        assert forall j :: k < j < |es| ==> es[j] == all[j];
        assert Starts(es[k]) && NoneEnds(es, k);
      }
    }
  }

  /** When the engine runs, told from the events alone. */
  lemma {:induction false} RunsIff(es: seq<Event>)
    requires Feasible(INITIAL, es)
    ensures Final(INITIAL, es).running <==> StillGoing(es)
  {
    if es != [] {
      var front, ev := es[..|es| - 1], es[|es| - 1];
      RunsIff(front);
      StepRuns(Final(INITIAL, front), ev);
      GoingNext(front, ev);
      assert front + [ev] == es;
    }
  }

  /**
   After any run, Stop requests cancellation of what is in flight, which then is every transfer, if and only if
   some start has succeeded in full and nothing since has ended it; otherwise Stop does nothing at all.
   */
  lemma StopCancelsIff(es: seq<Event>)
    requires Feasible(INITIAL, es)
    ensures var e := Final(INITIAL, es);
            && (StillGoing(es) <==> Stop(e).usb.stopped && !e.usb.stopped)
            && (StillGoing(es) ==> InTheAir(Stop(e)) == 2 * NUM_XFERS)
            && (!StillGoing(es) <==> Stop(e) == e)
  {
    InitialInv();
    RunKeepsInv(INITIAL, es);
    RunsIff(es);
    AllTransfers();
  }

  const CLEAN_START: Event := Begin(ALLOCATIONS, [TAKEN, TAKEN, TAKEN, TAKEN], QuietPlan(NUM_XFERS, PACKETS_PER_XFER))

  const UNPLUGGED: Event :=
    var lost := Packet(NoDevice, []);
    InDone(0, NoDevice, [lost, lost, lost, lost], [[], [], [], []], Submit(false, false))

  lemma CleanStart()
    ensures Feasible(INITIAL, [CLEAN_START])
    ensures Inv(Final(INITIAL, [CLEAN_START])) && Final(INITIAL, [CLEAN_START]).running
  {
    QuietPlanFits(0, NUM_XFERS, PACKETS_PER_XFER);
    InitialInv();
    FirstEvent(INITIAL, CLEAN_START);
    NextKeepsInv(INITIAL, CLEAN_START);
    StartRunsIff(INITIAL, ALLOCATIONS, CLEAN_START.answers, CLEAN_START.plugin);
  }

  /** A disconnect reported to a running engine, after which Stop does nothing about the other transfers. */
  lemma Unplug(e: Engine)
    requires Inv(e) && e.running
    ensures Enabled(e, UNPLUGGED)
    ensures var t := Next(e, UNPLUGGED);
            Stop(t) == t && !t.running && !t.usb.stopped && InTheAir(t) == 7
  {
    AllTransfers();
    ReturnOne(e.usb.inFlight, 0);
  }

  /** A clean start and a disconnect: Stop leaves seven transfers in flight, none asked to be cancelled. */
  lemma StopCanCancelNothing()
    ensures Feasible(INITIAL, [CLEAN_START] + [UNPLUGGED])
    ensures var e := Final(INITIAL, [CLEAN_START] + [UNPLUGGED]);
            Stop(e) == e && !e.running && !e.usb.stopped && InTheAir(e) == 7
  {
    CleanStart();
    Unplug(Final(INITIAL, [CLEAN_START]));
    OneMoreEvent(INITIAL, [CLEAN_START], UNPLUGGED);
  }

  // ---- OUT consumption ----

  /**
   Whatever the outcomes, including submissions refused after their bytes were taken, and whatever the plugin
   writes meanwhile: the read position apart from lap skips has moved by at most one transfer per submission
   attempted.
   */
  lemma OutConsumption(es: seq<Event>)
    requires Feasible(INITIAL, es)
    ensures var t := Final(INITIAL, es);
            t.outRing.rp - Skipped(t.outRing.log)
            <= XFER_SIZE * (NUM_XFERS * t.usb.starts + t.outCompletions + t.outErrors)
  {
    InitialInv();
    RunKeepsInv(INITIAL, es);
    var t := Final(INITIAL, es);
    Conservation(t.outRing.log, 0, t.outRing.rp);
    ChainedMarks(t.outRing.bytes, t.usb.fills, t.outRing.rp);
    ContentBound(t.outRing.bytes, t.usb.fills);
  }

  // ---- Quiescence ----

  function InTheAir(e: Engine): nat {
    |e.usb.inFlight| + |e.usb.outFlight|
  }

  function Callbacks(es: seq<Event>): nat {
    if es == [] then 0
    else Callbacks(es[..|es| - 1]) + if es[|es| - 1].Callback() then 1 else 0
  }

  predicate NoRestart(es: seq<Event>) {
    forall ev <- es :: !ev.Begin?
  }

  /** t differs from the stopped e only by transfers that came back. */
  predicate WindsDown(e: Engine, t: Engine)
    requires e.Ok() && t.Ok()
  {
    && !t.running
    && t.usb.inSubmitted == e.usb.inSubmitted && t.usb.outSubmitted == e.usb.outSubmitted
    && t.outRing.rp == e.outRing.rp && t.outRing.log == e.outRing.log
  }

  lemma QuietHandleIn(e: Engine, i: nat, status: Status, packets: seq<Packet>, turns: seq<seq<Op>>, answer: Submit)
    requires e.Ok() && !e.running && i in e.usb.inFlight && |turns| == |packets|
    ensures var t := HandleIn(e, i, status, packets, turns, answer);
            WindsDown(e, t) && InTheAir(t) + 1 == InTheAir(e)
  {
    if status.Done() {
      HandleInDone(e, i, status, packets, turns, answer);
    }
  }

  lemma QuietHandleOut(e: Engine, i: nat, status: Status, answer: Submit, gaps: Gaps)
    requires e.Ok() && !e.running && i in e.usb.outFlight
    ensures var t := HandleOut(e, i, status, answer, gaps);
            WindsDown(e, t) && InTheAir(t) + 1 == InTheAir(e)
  {
  }

  lemma WindDownStep(e: Engine, ev: Event)
    requires e.Ok() && !e.running && Enabled(e, ev) && !ev.Begin?
    ensures WindsDown(e, Next(e, ev))
    ensures InTheAir(Next(e, ev)) + (if ev.Callback() then 1 else 0) == InTheAir(e)
  {
    match ev
    case InDone(i, status, packets, turns, answer) => QuietHandleIn(e, i, status, packets, turns, answer);
    case OutDone(i, status, answer, gaps) => QuietHandleOut(e, i, status, answer, gaps);
    case _ =>
  }

  /**
   Once the engine is not running, and until it is started again: nothing is submitted, the OUT ring is not
   read, and each callback delivered is one transfer fewer in flight, so that none is left after exactly as
   many callbacks as there were transfers.
   */
  lemma {:induction false} Quiescence(e: Engine, es: seq<Event>)
    requires e.Ok() && !e.running && Feasible(e, es) && NoRestart(es)
    ensures var t := Final(e, es);
            && WindsDown(e, t)
            && InTheAir(t) + Callbacks(es) == InTheAir(e)
            && (InTheAir(t) == 0 <==> Callbacks(es) == InTheAir(e))
  {
    if es != [] {
      Quiescence(e, es[..|es| - 1]);
      WindDownStep(Final(e, es[..|es| - 1]), es[|es| - 1]);
    }
  }

  lemma InMayFail(e: Engine, i: nat, packet: Packet)
    requires e.Ok() && i in e.usb.inFlight && packet == Packet(Failed, [])
    ensures Enabled(e, InDone(i, Failed, [packet, packet, packet, packet], [[], [], [], []], Submit(false, false)))
  {
  }

  lemma OutMayFail(e: Engine, i: nat, gaps: Gaps)
    requires e.Ok() && i in e.usb.outFlight && |gaps| == PACKETS_PER_XFER && GapsFit(e.outRing.Wp(), gaps)
    ensures Enabled(e, OutDone(i, Failed, Submit(false, false), gaps))
  {
  }

  /** The count reaches zero: while a transfer is in flight some callback for it may come. */
  lemma SomeCallbackIsEnabled(e: Engine)
    requires e.Ok() && InTheAir(e) > 0
    ensures exists ev :: Enabled(e, ev) && ev.Callback()
  {
    if i :| i in e.usb.inFlight {
      InMayFail(e, i, Packet(Failed, []));
    } else {
      var i :| i in e.usb.outFlight;
      QuietFits(e.outRing.Wp(), PACKETS_PER_XFER);
      OutMayFail(e, i, Quiet(PACKETS_PER_XFER));
    }
  }

  // ---- IN accounting ----

  /** The payloads libusb delivered over a run, in callback and packet order. */
  function Published(es: seq<Event>): seq<seq<byte>> {
    if es == [] then [] else Published(es[..|es| - 1]) + Brought(es[|es| - 1])
  }

  /** The payloads one event brings. */
  function Brought(ev: Event): seq<seq<byte>> {
    if ev.InDone? && ev.status.Done() then Payloads(ev.packets) else []
  }

  lemma StepPublishes(e: Engine, ev: Event, sofar: seq<seq<byte>>)
    requires e.Ok() && Enabled(e, ev)
    requires e.inRing.bytes == Concat(sofar) && e.sampleCount == Frames(sofar)
    ensures Next(e, ev).inRing.bytes == Concat(sofar + Brought(ev))
    ensures Next(e, ev).sampleCount == Frames(sofar + Brought(ev))
  {
    if ev.InDone? {
      HandleInData(e, ev.i, ev.status, ev.packets, ev.turns, ev.answer);
      if ev.status.Done() {
        RunWrites(e.inRing, Weave(ev.packets, ev.turns));
        WeaveWrites(ev.packets, ev.turns);
      }
      ConcatJoin(sofar, Brought(ev));
      FramesJoin(sofar, Brought(ev));
    } else {
      OtherEventsKeepInData(e, ev);
      assert sofar + Brought(ev) == sofar;
    }
  }

  /** Only an IN callback adds to the IN stream. */
  lemma OtherEventsKeepInData(e: Engine, ev: Event)
    requires e.Ok() && Enabled(e, ev) && !ev.InDone?
    ensures Next(e, ev).inRing.bytes == e.inRing.bytes && Next(e, ev).sampleCount == e.sampleCount
  {
    if ev.Begin? && !e.running && ev.allocs >= ALLOCATIONS {
      SubmitAllSameIn(Opened(e), NUM_XFERS, ev.answers, ev.plugin);
    }
  }

  /** Submitting leaves the IN ring and all counters alone. */
  predicate SameIn(e: Engine, t: Engine) {
    && t.inRing == e.inRing && t.sampleCount == e.sampleCount
    && t.inCompletions == e.inCompletions && t.inErrors == e.inErrors
    && t.outCompletions == e.outCompletions && t.outErrors == e.outErrors
  }

  lemma PairSameIn(e: Engine, i: nat, answer: (Submit, Submit), gaps: Gaps)
    requires e.Ok()
    ensures SameIn(e, SubmitPair(e, i, answer, gaps))
  {
  }

  lemma {:induction false} SubmitAllSameIn(e: Engine, k: nat, answers: seq<(Submit, Submit)>, plugin: seq<Gaps>)
    requires e.Ok() && k <= |answers| && k <= |plugin|
    ensures SameIn(e, SubmitAll(e, k, answers, plugin))
  {
    if k > 0 {
      SubmitAllSameIn(e, k - 1, answers, plugin);
      PairSameIn(SubmitAll(e, k - 1, answers, plugin), k - 1, answers[k - 1], plugin[k - 1]);
    }
  }

  /** The IN stream is the concatenation of the delivered payloads, and sample_count their whole frames. */
  lemma {:induction false} InStream(es: seq<Event>)
    requires Feasible(INITIAL, es)
    ensures Final(INITIAL, es).inRing.bytes == Concat(Published(es))
    ensures Final(INITIAL, es).sampleCount == Frames(Published(es))
  {
    if es != [] {
      InStream(es[..|es| - 1]);
      StepPublishes(Final(INITIAL, es[..|es| - 1]), es[|es| - 1], Published(es[..|es| - 1]));
    }
  }

  predicate AllWhole(payloads: seq<seq<byte>>) {
    forall p <- payloads :: |p| % FRAME_SIZE == 0
  }

  /** What flooring each payload to whole frames loses. */
  lemma {:induction false} FrameResidue(payloads: seq<seq<byte>>)
    ensures 0 <= |Concat(payloads)| - FRAME_SIZE * Frames(payloads) <= (FRAME_SIZE - 1) * |payloads|
    ensures |Concat(payloads)| == FRAME_SIZE * Frames(payloads) <==> AllWhole(payloads)
  {
    if payloads != [] {
      var front, p := payloads[..|payloads| - 1], payloads[|payloads| - 1];
      FrameResidue(front);
      assert payloads == front + [p];
      assert AllWhole(payloads) <==> AllWhole(front) && |p| % FRAME_SIZE == 0;
    }
  }

  /** sample_count undercounts the IN stream by at most 17 bytes a packet, and not at all iff packets are whole. */
  lemma InAccounting(es: seq<Event>)
    requires Feasible(INITIAL, es)
    ensures var t := Final(INITIAL, es);
            && t.inRing.bytes == Concat(Published(es))
            && 0 <= t.inRing.Wp() - FRAME_SIZE * t.sampleCount <= (FRAME_SIZE - 1) * |Published(es)|
            && (t.inRing.Wp() == FRAME_SIZE * t.sampleCount <==> AllWhole(Published(es)))
  {
    InStream(es);
    FrameResidue(Published(es));
  }

  // ---- Counters, against the events alone ----

  /** A callback that completed (failed is false) or failed (failed is true). */
  predicate Counted(status: Status, failed: bool) {
    if failed then status == Failed else status == Completed || status == TimedOut
  }

  function CountIn(es: seq<Event>, failed: bool): nat {
    if es == [] then 0
    else
      var ev := es[|es| - 1];
      CountIn(es[..|es| - 1], failed) + if ev.InDone? && Counted(ev.status, failed) then 1 else 0
  }

  function CountOut(es: seq<Event>, failed: bool): nat {
    if es == [] then 0
    else
      var ev := es[|es| - 1];
      CountOut(es[..|es| - 1], failed) + if ev.OutDone? && Counted(ev.status, failed) then 1 else 0
  }

  predicate Tallied(e: Engine, es: seq<Event>) {
    && e.inCompletions == CountIn(es, false) && e.inErrors == CountIn(es, true)
    && e.outCompletions == CountOut(es, false) && e.outErrors == CountOut(es, true)
  }

  function One(b: bool): nat {
    if b then 1 else 0
  }

  /** t's counters are those of e and what ev adds to them. */
  predicate TallyGrows(e: Engine, ev: Event, t: Engine) {
    && t.inCompletions == e.inCompletions + One(ev.InDone? && Counted(ev.status, false))
    && t.inErrors == e.inErrors + One(ev.InDone? && Counted(ev.status, true))
    && t.outCompletions == e.outCompletions + One(ev.OutDone? && Counted(ev.status, false))
    && t.outErrors == e.outErrors + One(ev.OutDone? && Counted(ev.status, true))
  }

  lemma InTally(e: Engine, ev: Event)
    requires e.Ok() && Enabled(e, ev) && ev.InDone?
    ensures TallyGrows(e, ev, Next(e, ev))
  {
    if ev.status.Done() {
      HandleInDone(e, ev.i, ev.status, ev.packets, ev.turns, ev.answer);
    }
  }

  lemma TallyStep(e: Engine, ev: Event)
    requires e.Ok() && Enabled(e, ev)
    ensures TallyGrows(e, ev, Next(e, ev))
  {
    match ev
    case Begin(_, answers, plugin) => SubmitAllSameIn(Opened(e), NUM_XFERS, answers, plugin);
    case InDone(_, _, _, _, _) => InTally(e, ev);
    case _ =>
  }

  /** Each counter is the number of callbacks of its direction and kind: nothing else moves it. */
  lemma {:induction false} CountersCountCallbacks(es: seq<Event>)
    requires Feasible(INITIAL, es)
    ensures Tallied(Final(INITIAL, es), es)
  {
    if es != [] {
      CountersCountCallbacks(es[..|es| - 1]);
      TallyStep(Final(INITIAL, es[..|es| - 1]), es[|es| - 1]);
    }
  }

  // ---- Delivery ----

  /** What the plugin writes during one event. */
  function WrittenIn(ev: Event): seq<byte> {
    match ev
    case Begin(_, _, plugin) => FlatAll(plugin)
    case OutDone(_, _, _, gaps) => Flat(gaps)
    case PluginWrite(data) => data
    case _ => []
  }

  /** What the plugin wrote over a run. */
  function PluginWrites(es: seq<Event>): seq<byte> {
    if es == [] then [] else PluginWrites(es[..|es| - 1]) + WrittenIn(es[|es| - 1])
  }

  lemma StartWrites(e: Engine, allocs: nat, answers: seq<(Submit, Submit)>, plugin: seq<Gaps>)
    requires Inv(e) && Enabled(e, Begin(allocs, answers, plugin))
    ensures Start(e, allocs, answers, plugin).outRing.bytes == e.outRing.bytes + FlatAll(plugin)
  {
    if !e.running && allocs >= ALLOCATIONS {
      PlanOfTransfers(e.outRing.Wp(), plugin);
      SubmitAllRings(Opened(e), NUM_XFERS, answers, plugin);
      assert plugin[..NUM_XFERS] == plugin;
    }
  }

  lemma OutStep(e: Engine, ev: Event)
    requires Inv(e) && Enabled(e, ev)
    ensures Next(e, ev).outRing.bytes == e.outRing.bytes + WrittenIn(ev)
  {
    assert e.outRing.bytes + [] == e.outRing.bytes;
    match ev
    case Begin(allocs, answers, plugin) => StartWrites(e, allocs, answers, plugin);
    case InDone(i, status, packets, turns, answer) => HandleInOut(e, i, status, packets, turns, answer);
    case OutDone(i, status, answer, gaps) => HandleOutRings(e, i, status, answer, gaps);
    case _ =>
  }

  lemma {:induction false} OutStream(es: seq<Event>)
    requires Feasible(INITIAL, es)
    ensures Final(INITIAL, es).outRing.bytes == PluginWrites(es)
  {
    if es != [] {
      InitialInv();
      RunKeepsInv(INITIAL, es[..|es| - 1]);
      OutStream(es[..|es| - 1]);
      OutStep(Final(INITIAL, es[..|es| - 1]), es[|es| - 1]);
    }
  }

  /** A ring's consumer has taken its stream up to the read position, minus the skipped intervals. */
  predicate Delivers(s: Stream, written: seq<byte>) {
    && s.Ok() && s.bytes == written
    && Delivered(s.log) == Kept(s.bytes, s.log, 0, s.rp)
    && |Delivered(s.log)| + Skipped(s.log) + s.Unread() == |written|
    && Laps(s.log) * (RING_BYTES + 1) <= |written|
  }

  lemma SoundDelivers(s: Stream)
    requires s.Sound(0)
    ensures Delivers(s, s.bytes)
  {
    Conservation(s.log, 0, s.rp);
    LapBound(s.log, 0, s.rp);
    DeliveredIsKept(s.log, s.bytes, 0, s.rp);
  }

  /**
   In every run, on both rings: what the plugin gets from the device, and what the engine takes off the OUT
   ring, is what the other side wrote with the skipped intervals cut out, and every byte written was delivered,
   skipped or is still unread.
   */
  lemma BothDirectionsDeliver(es: seq<Event>)
    requires Feasible(INITIAL, es)
    ensures Delivers(Final(INITIAL, es).inRing, Concat(Published(es)))
    ensures Delivers(Final(INITIAL, es).outRing, PluginWrites(es))
  {
    InitialInv();
    RunKeepsInv(INITIAL, es);
    InStream(es);
    OutStream(es);
    SoundDelivers(Final(INITIAL, es).inRing);
    SoundDelivers(Final(INITIAL, es).outRing);
  }

  /** Fillings that hold what the plugin wrote: in order, padded with silence, and nothing delivered is left out. */
  predicate CarriesStream(fills: seq<Fill>, written: seq<byte>, end: nat, delivered: seq<byte>) {
    Chained(written, fills, end) && Content(written, fills) == delivered
  }

  /**
   From the plugin to the USB. Every filling of an OUT transfer is four segments of the plugin's stream padded
   with silence, each filling starts where the one before it stopped, and together they hold exactly what was
   taken off the ring. The accepted ones, which reach libusb, are the successful submissions; a refused one
   ends its session, so what is taken but never reaches libusb is at most one transfer per start; and nothing
   is when nothing was refused.
   */
  lemma OutReachesUsb(es: seq<Event>)
    requires Feasible(INITIAL, es)
    ensures var t := Final(INITIAL, es);
            var written, fills, delivered := PluginWrites(es), t.usb.fills, Delivered(t.outRing.log);
            var sent := Content(written, Accepted(fills));
            && CarriesStream(fills, written, t.outRing.rp, delivered)
            && |Accepted(fills)| == t.usb.outSubmitted && |Refused(fills)| <= t.usb.starts
            && |sent| <= |delivered| <= |sent| + XFER_SIZE * t.usb.starts
            && |delivered| - |sent| == |Content(written, Refused(fills))|
            && (Refused(fills) == [] ==> sent == delivered)
  {
    InitialInv();
    RunKeepsInv(INITIAL, es);
    OutStream(es);
    var t := Final(INITIAL, es);
    ContentSplits(PluginWrites(es), t.usb.fills);
    AcceptedIsAll(t.usb.fills);
    RefusedBound(PluginWrites(es), t.usb.fills, t.outRing.rp);
  }

  lemma RefusedBound(written: seq<byte>, fills: seq<Fill>, end: nat)
    requires Chained(written, fills, end)
    ensures |Content(written, Refused(fills))| <= XFER_SIZE * |Refused(fills)|
  {
    ChainedMarks(written, fills, end);
    RefusedAreFills(fills);
    ContentBound(written, Refused(fills));
  }
}
