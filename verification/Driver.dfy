/** The objects themselves taken through a run: the bridge's engine and the plugin's handler on one segment. */
module Driver {
  import opened Protocol
  import opened EngineModel
  import opened EngineRuns
  import IsoEngine
  import Plugin
  import SharedMemory

  /** The plugin's handler holds the engine's segment, and the segment is the one the bridge initialised. */
  ghost predicate Linked(engine: IsoEngine.IsoEngine, handler: Plugin.IOHandler)
    reads engine, engine.shm.Repr, engine.handed.Values, handler
  {
    && engine.Valid()
    && handler !in engine.shm.Repr && handler.shm == engine.shm && SharedMemory.Validates(engine.shm.header)
  }

  lemma FlightIndex(e: Engine, i: nat)
    requires Inv(e) && i in e.usb.outFlight
    ensures i < NUM_XFERS
  {
  }

  method StartActs(engine: IsoEngine.IsoEngine, ghost handler: Plugin.IOHandler, ev: Event)
    requires Linked(engine, handler) && Enabled(engine.Model(), ev) && ev.Begin?
    modifies engine, engine.shm.outRing, engine.shm.outRing.data
    ensures Linked(engine, handler) && engine.Model() == Next(old(engine.Model()), ev)
    ensures engine.outBufs == old(engine.outBufs) || fresh(engine.outBufs)
  {
    var ok := engine.Start(ev.allocs, ev.answers, ev.plugin);
  }

  method InActs(engine: IsoEngine.IsoEngine, ghost handler: Plugin.IOHandler, ev: Event)
    requires Linked(engine, handler) && Enabled(engine.Model(), ev) && ev.InDone?
    modifies engine, engine.shm`sampleCount, engine.shm.inRing, engine.shm.inRing.data
    ensures Linked(engine, handler) && engine.Model() == Next(old(engine.Model()), ev)
    ensures engine.outBufs == old(engine.outBufs)
  {
    engine.HandleInCompletion(ev.i, ev.status, ev.packets, ev.turns, ev.answer);
  }

  method OutActs(engine: IsoEngine.IsoEngine, ghost handler: Plugin.IOHandler, ev: Event)
    requires Linked(engine, handler) && Inv(engine.Model()) && Enabled(engine.Model(), ev) && ev.OutDone?
    modifies engine, engine.shm.outRing, engine.shm.outRing.data, engine.outBufs
    ensures Linked(engine, handler) && engine.Model() == Next(old(engine.Model()), ev)
    ensures engine.outBufs == old(engine.outBufs)
  {
    FlightIndex(engine.Model(), ev.i);
    engine.HandleOutCompletion(ev.i, ev.status, ev.answer, ev.gaps);
  }

  method PluginConnects(engine: IsoEngine.IsoEngine, handler: Plugin.IOHandler)
    requires Linked(engine, handler)
    modifies handler, engine.shm.inRing
    ensures engine.Valid() && engine.Model() == Next(old(engine.Model()), PluginConnect)
    ensures handler.shm == engine.shm
  {
    handler.DisconnectFromShm();
    var ok := handler.ConnectToShm(engine.shm);
  }

  method PluginReads(engine: IsoEngine.IsoEngine, handler: Plugin.IOHandler, max: nat)
    requires Linked(engine, handler)
    modifies handler, engine.shm.inRing
    ensures engine.Valid() && engine.Model() == Next(old(engine.Model()), PluginRead(max))
    ensures handler.shm == engine.shm
  {
    var dst := new byte[max](_ => 0);
    handler.OnReadClientInput(dst);
  }

  method PluginWrites(engine: IsoEngine.IsoEngine, handler: Plugin.IOHandler, data: seq<byte>)
    requires Linked(engine, handler) && Enabled(engine.Model(), PluginWrite(data))
    modifies engine.shm.outRing, engine.shm.outRing.data
    ensures engine.Valid() && engine.Model() == Next(old(engine.Model()), PluginWrite(data))
    ensures handler.shm == engine.shm
  {
    handler.OnWriteMixedOutput(data);
  }

  /** What the plugin does between the engine's methods. */
  method PluginActs(engine: IsoEngine.IsoEngine, handler: Plugin.IOHandler, ev: Event)
    requires Linked(engine, handler) && Enabled(engine.Model(), ev)
    requires ev.PluginConnect? || ev.PluginRead? || ev.PluginWrite?
    modifies handler, engine.shm.inRing, engine.shm.outRing, engine.shm.outRing.data
    ensures Linked(engine, handler) && engine.Model() == Next(old(engine.Model()), ev)
    ensures engine.outBufs == old(engine.outBufs)
  {
    match ev {
      case PluginConnect => PluginConnects(engine, handler);
      case PluginRead(max) => PluginReads(engine, handler, max);
      case PluginWrite(data) => PluginWrites(engine, handler, data);
    }
  }

  /** What the engine does. */
  method EngineActs(engine: IsoEngine.IsoEngine, ghost handler: Plugin.IOHandler, ev: Event)
    requires Linked(engine, handler) && Inv(engine.Model()) && Enabled(engine.Model(), ev)
    requires ev.Begin? || ev.Halt? || ev.Callback()
    modifies engine, engine.shm.Repr, engine.outBufs
    ensures Linked(engine, handler) && engine.Model() == Next(old(engine.Model()), ev)
    ensures engine.outBufs == old(engine.outBufs) || fresh(engine.outBufs)
  {
    match ev {
      case Begin(_, _, _) => StartActs(engine, handler, ev);
      case Halt => engine.Stop();
      case InDone(_, _, _, _, _) => InActs(engine, handler, ev);
      case OutDone(_, _, _, _) => OutActs(engine, handler, ev);
    }
  }

  method Act(engine: IsoEngine.IsoEngine, handler: Plugin.IOHandler, ev: Event)
    requires Linked(engine, handler) && Inv(engine.Model()) && Enabled(engine.Model(), ev)
    modifies engine, handler, engine.shm.Repr, engine.outBufs
    ensures Linked(engine, handler) && engine.Model() == Next(old(engine.Model()), ev)
    ensures engine.outBufs == old(engine.outBufs) || fresh(engine.outBufs)
  {
    if ev.PluginConnect? || ev.PluginRead? || ev.PluginWrite? {
      PluginActs(engine, handler, ev);
    } else {
      EngineActs(engine, handler, ev);
    }
  }

  /** An initialised segment with the engine at one end ... */
  method BootBridge() returns (engine: IsoEngine.IsoEngine)
    ensures engine.Valid() && engine.Model() == INITIAL && SharedMemory.Validates(engine.shm.header)
    ensures fresh(engine) && fresh(engine.shm.Repr) && engine.outBufs == []
  {
    var shm := new SharedMemory.Segment();
    engine := new IsoEngine.IsoEngine(shm);
  }

  /** ... and a connected plugin at the other. */
  method Boot() returns (engine: IsoEngine.IsoEngine, handler: Plugin.IOHandler)
    ensures Linked(engine, handler) && engine.Model() == Next(INITIAL, PluginConnect)
    ensures fresh(engine) && fresh(handler) && fresh(engine.shm.Repr) && engine.outBufs == []
  {
    engine := BootBridge();
    handler := new Plugin.IOHandler();
    var ok := handler.ConnectToShm(engine.shm);
  }

  /** The objects stand where the model stands after these events. */
  ghost predicate Reached(engine: IsoEngine.IsoEngine, handler: Plugin.IOHandler, e: Engine, es: seq<Event>)
    reads engine, engine.shm.Repr, engine.handed.Values, handler
  {
    Linked(engine, handler) && e.Ok() && Feasible(e, es) && engine.Model() == Final(e, es)
  }

  method DriveOne(engine: IsoEngine.IsoEngine, handler: Plugin.IOHandler, ghost e: Engine, es: seq<Event>, k: nat)
    requires Inv(e) && Feasible(e, es) && k < |es| && Reached(engine, handler, e, es[..k])
    modifies engine, handler, engine.shm.Repr, engine.outBufs
    ensures Reached(engine, handler, e, es[..k + 1])
    ensures engine.outBufs == old(engine.outBufs) || fresh(engine.outBufs)
  {
    RunPrefix(e, es, k);
    Act(engine, handler, es[k]);
  }

  method DriveAll(engine: IsoEngine.IsoEngine, handler: Plugin.IOHandler, ghost e: Engine, es: seq<Event>)
    requires Inv(e) && Feasible(e, es) && Reached(engine, handler, e, [])
    modifies engine, handler, engine.shm.Repr, engine.outBufs
    ensures Reached(engine, handler, e, es[..|es|])
  {
    ghost var bufs := engine.outBufs;
    var k := 0;
    assert es[..0] == [];
    while k < |es|
      invariant k <= |es| && Reached(engine, handler, e, es[..k])
      invariant engine.outBufs == bufs || fresh(engine.outBufs)
    {
      DriveOne(engine, handler, e, es, k);
      k := k + 1;
    }
  }

  /** Over any feasible run the objects end in the state of the model. */
  method Drive(engine: IsoEngine.IsoEngine, handler: Plugin.IOHandler, es: seq<Event>)
    requires Linked(engine, handler) && Inv(engine.Model()) && Feasible(engine.Model(), es)
    modifies engine, handler, engine.shm.Repr, engine.outBufs
    ensures Linked(engine, handler) && engine.Model() == Final(old(engine.Model()), es)
  {
    DriveAll(engine, handler, engine.Model(), es);
    assert es[..|es|] == es;
  }

  /** The next event of a run. */
  lemma RunPrefix(e: Engine, es: seq<Event>, k: nat)
    requires Inv(e) && Feasible(e, es) && k < |es|
    ensures Feasible(e, es[..k]) && Feasible(e, es[..k + 1])
    ensures var m := Final(e, es[..k]);
            Inv(m) && Enabled(m, es[k]) && Final(e, es[..k + 1]) == Next(m, es[k])
  {
    PrefixFeasible(e, es, k + 1);
    assert es[..k + 1][..k] == es[..k];
    RunKeepsInv(e, es[..k]);
  }

  lemma {:induction false} PrefixFeasible(e: Engine, es: seq<Event>, k: nat)
    requires e.Ok() && Feasible(e, es) && k <= |es|
    ensures Feasible(e, es[..k])
  {
    if k < |es| {
      PrefixFeasible(e, es[..|es| - 1], k);
      assert es[..|es| - 1][..k] == es[..k];
    } else {
      assert es[..k] == es;
    }
  }
}
