/** The driver over a whole lifetime: module init binds the interrupt line,
    then any sequence of ioctls runs, then module exit releases what the
    globals still hold.  The mmap handler and the interrupt handler read the
    globals but change neither them nor the ledger, so a run consists of the
    two kinds of step that do.
 */
module HvisorRuns {
  import opened Effects
  import opened Hvisor
  import opened HvisorProperties

  /** The globals and every event caused so far. */
  datatype State = State(globals: Globals, trace: seq<Event>)

  const Loaded := State(Boot, [])

  datatype Op =
    | Probe(irq: nat)                        // hvisor_init binding virtio_irq
    | Request(cmd: Ioctl, arg: nat, o: Oracle) // one hvisor_ioctl

  function Step(cfg: Config, s: State, op: Op): State
  {
    match op
    case Probe(irq) => s.(globals := BindIrq(s.globals, irq))
    case Request(cmd, arg, o) =>
      var out := DoIoctl(cfg, s.globals, cmd, arg, o);
      State(out.globals, s.trace + out.events)
  }

  function Run(cfg: Config, s: State, ops: seq<Op>): State
    decreases |ops|
  {
    if ops == [] then s else Step(cfg, Run(cfg, s, ops[..|ops| - 1]), ops[|ops| - 1])
  }

  /** The ledger a state's trace has built up. */
  function LedgerOf(s: State): Ledger { Replay(EmptyLedger, s.trace) }

  /** What holds between operations while the module is loaded, over the
      ledger `l`, the pages obtained so far `pages` and the globals `g`: no
      heap buffer outlives the ioctl that allocated it; every page ever
      obtained is still allocated and reserved (none is freed before exit);
      and the current bridge, when there is one, is one of them. */
  ghost predicate Holds(l: Ledger, pages: seq<nat>, g: Globals)
  {
    && l.heap == multiset{}
    && l.pages == multiset(pages)
    && (forall p :: p in l.reserved <==> p in pages)
    && (g.virtioBridge != 0 ==> g.virtioBridge in pages)
  }

  ghost predicate Inv(s: State)
  {
    Holds(LedgerOf(s), PagesAllocated(s.trace), s.globals)
  }

  lemma LoadedInv()
    ensures Inv(Loaded)
  {
  }

  /** The ledger and the page list after a request, from those before it. */
  lemma AfterRequest(cfg: Config, s: State, cmd: Ioctl, arg: nat, o: Oracle)
    ensures var out := DoIoctl(cfg, s.globals, cmd, arg, o);
      var s' := Step(cfg, s, Request(cmd, arg, o));
      && s'.globals == out.globals
      && LedgerOf(s') == Replay(LedgerOf(s), out.events)
      && PagesAllocated(s'.trace) == PagesAllocated(s.trace) + PagesAllocated(out.events)
  {
    var out := DoIoctl(cfg, s.globals, cmd, arg, o);
    ReplayConcat(EmptyLedger, s.trace, out.events);
    ProjectConcat(s.trace, out.events, PageOf);
  }

  /** A request other than INIT_VIRTIO keeps the invariant: it leaves the
      ledger and the globals as they were and allocates no page. */
  lemma StepRequestInv(cfg: Config, s: State, cmd: Ioctl, arg: nat, o: Oracle)
    requires Inv(s) && cmd != CmdInitVirtio
    ensures Inv(Step(cfg, s, Request(cmd, arg, o)))
  {
    AfterRequest(cfg, s, cmd, arg, o);
    IoctlOthersKeepState(cfg, s.globals, cmd, arg, o, LedgerOf(s));
    assert PagesAllocated(s.trace) + [] == PagesAllocated(s.trace);
  }

  /** A page that INIT_VIRTIO obtains is allocated and reserved, and becomes
      the bridge. */
  lemma HoldsWithNewPage(l: Ledger, pages: seq<nat>, g: Globals, p: nat, t: Option<TaskId>)
    requires Holds(l, pages, g)
    ensures Holds(l.(pages := l.pages + multiset{p}, reserved := l.reserved + {p}),
                  pages + [p], g.(virtioBridge := p, task := t))
  {
  }

  /** INIT_VIRTIO on an unbound line keeps the invariant. */
  lemma StepInitUnboundInv(cfg: Config, s: State, arg: nat, o: Oracle)
    requires Inv(s) && s.globals.virtioIrq == -1
    ensures Inv(Step(cfg, s, Request(CmdInitVirtio, arg, o)))
  {
    AfterRequest(cfg, s, CmdInitVirtio, arg, o);
    InitVirtioUnbound(cfg, s.globals, o, LedgerOf(s));
    assert PagesAllocated(s.trace) + [] == PagesAllocated(s.trace);
  }

  /** INIT_VIRTIO whose page allocation fails keeps the invariant. */
  lemma StepInitNoPageInv(cfg: Config, s: State, arg: nat, o: Oracle)
    requires Inv(s) && s.globals.virtioIrq != -1 && o.page == 0
    ensures Inv(Step(cfg, s, Request(CmdInitVirtio, arg, o)))
  {
    AfterRequest(cfg, s, CmdInitVirtio, arg, o);
    InitVirtioNoPage(cfg, s.globals, o, LedgerOf(s));
    Project1(InitVirtio(cfg, s.globals, o).events, PageOf);
    assert PagesAllocated(s.trace) + [] == PagesAllocated(s.trace);
  }

  /** INIT_VIRTIO that obtains a page keeps the invariant. */
  lemma StepInitWithPageInv(cfg: Config, s: State, arg: nat, o: Oracle)
    requires Inv(s) && s.globals.virtioIrq != -1 && o.page != 0
    ensures Inv(Step(cfg, s, Request(CmdInitVirtio, arg, o)))
  {
    AfterRequest(cfg, s, CmdInitVirtio, arg, o);
    InitVirtioWithPage(cfg, s.globals, o, LedgerOf(s));
    Project4(InitVirtio(cfg, s.globals, o).events, PageOf);
    HoldsWithNewPage(LedgerOf(s), PagesAllocated(s.trace), s.globals, o.page, Some(o.current));
  }

  /** INIT_VIRTIO keeps the invariant. */
  lemma StepInitInv(cfg: Config, s: State, arg: nat, o: Oracle)
    requires Inv(s)
    ensures Inv(Step(cfg, s, Request(CmdInitVirtio, arg, o)))
  {
    if s.globals.virtioIrq == -1 {
      StepInitUnboundInv(cfg, s, arg, o);
    } else if o.page == 0 {
      StepInitNoPageInv(cfg, s, arg, o);
    } else {
      StepInitWithPageInv(cfg, s, arg, o);
    }
  }

  lemma StepInv(cfg: Config, s: State, op: Op)
    requires Inv(s)
    ensures Inv(Step(cfg, s, op))
  {
    match op
    case Probe(_) =>
    case Request(cmd, arg, o) =>
      if cmd == CmdInitVirtio { StepInitInv(cfg, s, arg, o); } else { StepRequestInv(cfg, s, cmd, arg, o); }
  }

  /** Every run from the freshly loaded module keeps the invariant. */
  lemma {:induction false} RunInv(cfg: Config, ops: seq<Op>)
    ensures Inv(Run(cfg, Loaded, ops))
    decreases |ops|
  {
    if ops == [] {
      LoadedInv();
    } else {
      RunInv(cfg, ops[..|ops| - 1]);
      StepInv(cfg, Run(cfg, Loaded, ops[..|ops| - 1]), ops[|ops| - 1]);
    }
  }

  // ---------------------------------------------------------------------
  // The notification target and the interrupt line

  /** The caller of the last INIT_VIRTIO request in `ops`, or `t` if there
      is none. */
  function LastInitCaller(ops: seq<Op>, t: Option<TaskId>): Option<TaskId>
    decreases |ops|
  {
    if ops == [] then t
    else
      var op := ops[|ops| - 1];
      if op.Request? && op.cmd == CmdInitVirtio then Some(op.o.current)
      else LastInitCaller(ops[..|ops| - 1], t)
  }

  /** The last interrupt number bound in `ops`, or `irq` if none was. */
  function LastProbe(ops: seq<Op>, irq: int): int
    decreases |ops|
  {
    if ops == [] then irq
    else if ops[|ops| - 1].Probe? then ops[|ops| - 1].irq
    else LastProbe(ops[..|ops| - 1], irq)
  }

  /** The target is whoever issued the last INIT_VIRTIO (whether or not it
      succeeded): it is replaced, never cleared, and no other request
      touches it. */
  lemma {:induction false} RunTask(cfg: Config, s: State, ops: seq<Op>)
    ensures Run(cfg, s, ops).globals.task == LastInitCaller(ops, s.globals.task)
    decreases |ops|
  {
    if ops != [] {
      var op, before := ops[|ops| - 1], Run(cfg, s, ops[..|ops| - 1]);
      RunTask(cfg, s, ops[..|ops| - 1]);
      if op.Request? && op.cmd != CmdInitVirtio {
        IoctlOthersKeepState(cfg, before.globals, op.cmd, op.arg, op.o, EmptyLedger);
      }
    }
  }

  /** Only module init binds `virtio_irq`; no ioctl changes it. */
  lemma {:induction false} RunIrq(cfg: Config, s: State, ops: seq<Op>)
    ensures Run(cfg, s, ops).globals.virtioIrq == LastProbe(ops, s.globals.virtioIrq)
    decreases |ops|
  {
    if ops != [] {
      var op, before := ops[|ops| - 1], Run(cfg, s, ops[..|ops| - 1]);
      RunIrq(cfg, s, ops[..|ops| - 1]);
      if op.Request? && op.cmd != CmdInitVirtio {
        IoctlOthersKeepState(cfg, before.globals, op.cmd, op.arg, op.o, EmptyLedger);
      }
    }
  }

  /** An interrupt from the hvisor device signals exactly the caller of the
      last INIT_VIRTIO, or nobody if there was none. */
  lemma InterruptSignalsLastInitCaller(cfg: Config, ops: seq<Op>)
    ensures IrqDecision(true, Run(cfg, Loaded, ops).globals.task).signal == LastInitCaller(ops, None)
  {
    RunTask(cfg, Loaded, ops);
  }

  // ---------------------------------------------------------------------
  // Module exit

  /** Exit from a state that keeps the invariant frees the current bridge
      page and nothing else. */
  lemma ExitFrom(s: State)
    requires Inv(s)
    ensures var after := Replay(LedgerOf(s), ExitEvents(s.globals));
      var b := s.globals.virtioBridge;
      && after.heap == multiset{}
      && after.pages == multiset(PagesAllocated(s.trace)) - (if b != 0 then multiset{b} else multiset{})
      && (forall p :: p in after.reserved <==> p in PagesAllocated(s.trace) && (b == 0 || p != b))
  {
    ExitReleases(s.globals, LedgerOf(s));
  }

  /** Exit after any run frees the current bridge page and nothing else:
      every page obtained by an earlier INIT_VIRTIO stays allocated and
      reserved (leaked), and no heap buffer is left. */
  lemma ExitAfterRun(cfg: Config, ops: seq<Op>)
    ensures var s := Run(cfg, Loaded, ops);
      var after := Replay(LedgerOf(s), ExitEvents(s.globals));
      var b := s.globals.virtioBridge;
      && after.heap == multiset{}
      && after.pages == multiset(PagesAllocated(s.trace)) - (if b != 0 then multiset{b} else multiset{})
      && (forall p :: p in after.reserved <==> p in PagesAllocated(s.trace) && (b == 0 || p != b))
  {
    RunInv(cfg, ops);
    ExitFrom(Run(cfg, Loaded, ops));
  }

  // ---------------------------------------------------------------------
  // Scenarios

  lemma RunSnoc(cfg: Config, s: State, ops: seq<Op>, op: Op)
    ensures Run(cfg, s, ops + [op]) == Step(cfg, Run(cfg, s, ops), op)
  {
    assert (ops + [op])[..|ops|] == ops;
  }

  /** Runs the three steps `a`, `b`, `c` one after the other. */
  lemma Run3(cfg: Config, a: Op, b: Op, c: Op)
    ensures Run(cfg, Loaded, [a, b, c]) == Step(cfg, Step(cfg, Step(cfg, Loaded, a), b), c)
  {
    RunSnoc(cfg, Loaded, [], a);
    RunSnoc(cfg, Loaded, [a], b);
    RunSnoc(cfg, Loaded, [a, b], c);
    assert [] + [a] == [a];
    assert [a] + [b] == [a, b];
    assert [a, b] + [c] == [a, b, c];
  }

  const Page1: nat := 0x8000_0000
  const Page2: nat := 0x8000_1000

  /** Collaborators that all succeed, the hypercall returning 0. */
  function Accepting(page: nat, buf: nat, caller: TaskId): Oracle
  {
    Oracle(page, buf, true, ZoneListArgs(0, 0), 0, true, caller)
  }

  /** An INIT_VIRTIO that obtains `page` on a bound line. */
  lemma InitStep(cfg: Config, s: State, page: nat, caller: TaskId)
    requires s.globals.virtioIrq != -1 && page != 0
    ensures var s' := Step(cfg, s, Request(CmdInitVirtio, 0, Accepting(page, 0, caller)));
      && s'.globals == s.globals.(virtioBridge := page, task := Some(caller))
      && PagesAllocated(s'.trace) == PagesAllocated(s.trace) + [page]
  {
    var o := Accepting(page, 0, caller);
    AfterRequest(cfg, s, CmdInitVirtio, 0, o);
    Project4(InitVirtio(cfg, s.globals, o).events, PageOf);
  }

  /** The state after binding the line and two accepted INIT_VIRTIO calls
      from process 7 that obtained `Page1`, then `Page2`. */
  lemma TwoInits(cfg: Config)
    ensures var s := Run(cfg, Loaded, [Probe(5), Request(CmdInitVirtio, 0, Accepting(Page1, 0, 7)),
                                       Request(CmdInitVirtio, 0, Accepting(Page2, 0, 7))]);
      && Inv(s)
      && s.globals == Globals(5, Page2, Some(7))
      && PagesAllocated(s.trace) == [Page1, Page2]
  {
    var a, b, c := Probe(5), Request(CmdInitVirtio, 0, Accepting(Page1, 0, 7)),
                   Request(CmdInitVirtio, 0, Accepting(Page2, 0, 7));
    Run3(cfg, a, b, c);
    var s1 := Step(cfg, Loaded, a);
    var s2 := Step(cfg, s1, b);
    LoadedInv();
    StepInv(cfg, Loaded, a);
    StepInv(cfg, s1, b);
    StepInv(cfg, s2, c);
    InitStep(cfg, s1, Page1, 7);
    InitStep(cfg, s2, Page2, 7);
  }

  /** Exit from a ledger holding exactly two pages, the second as bridge,
      leaves the first allocated and reserved. */
  lemma ExitKeepsOlderPage(l: Ledger, g: Globals, p1: nat, p2: nat)
    requires Holds(l, [p1, p2], g) && p1 != p2 && p2 != 0 && g.virtioBridge == p2
    ensures var after := Replay(l, ExitEvents(g));
      after.pages == multiset{p1} && after.reserved == {p1}
  {
    ExitReleases(g, l);
    assert l.pages == multiset{p1, p2};
    assert l.reserved == {p1, p2} by {
      forall p
        ensures p in l.reserved <==> p in {p1, p2}
      {
        assert p in [p1, p2] <==> p == p1 || p == p2;
      }
    }
    assert multiset{p1, p2} - multiset{p2} == multiset{p1};
    assert {p1, p2} - {p2} == {p1};
  }

  /** A second INIT_VIRTIO while a bridge exists allocates a new page and
      keeps the first one: after exit the first page is still allocated
      and reserved. */
  lemma SecondInitLeaksFirstPage(cfg: Config)
    ensures var s := Run(cfg, Loaded, [Probe(5), Request(CmdInitVirtio, 0, Accepting(Page1, 0, 7)),
                                       Request(CmdInitVirtio, 0, Accepting(Page2, 0, 7))]);
      var after := Replay(LedgerOf(s), ExitEvents(s.globals));
      && s.globals.virtioBridge == Page2
      && after.pages == multiset{Page1}
      && after.reserved == {Page1}
  {
    var s := Run(cfg, Loaded, [Probe(5), Request(CmdInitVirtio, 0, Accepting(Page1, 0, 7)),
                               Request(CmdInitVirtio, 0, Accepting(Page2, 0, 7))]);
    TwoInits(cfg);
    ExitKeepsOlderPage(LedgerOf(s), s.globals, Page1, Page2);
  }

  /** The protocol end to end: the line is bound, INIT_VIRTIO is accepted,
      a zone is started with a 256-byte configuration and succeeds, the
      interrupt signals the registered process once, and its FINISH_REQ
      reaches the hypervisor as (0, 0); no heap buffer is left. */
  lemma EndToEnd(cfg: Config)
    requires cfg.zoneConfigSize == 256
    ensures var caller, cfgBuf, user := 42, 0x9000, 0x4000;
      var ops := [Probe(5), Request(CmdInitVirtio, 0, Accepting(Page1, 0, caller)),
                  Request(CmdZoneStart, user, Accepting(0, cfgBuf, caller))];
      var s := Run(cfg, Loaded, ops);
      var irq := IrqDecision(true, s.globals.task);
      var fin := DoIoctl(cfg, s.globals, CmdFinishReq, 0, Accepting(0, 0, caller));
      && LedgerOf(s).heap == multiset{}
      && Calls(s.trace) == [Hypercall(HcInitVirtio, Page1, 0), Hypercall(HcStartZone, cfgBuf, 256)]
      && irq == IrqAction(IrqHandled, Some(caller))
      && Calls(fin.events) == [Hypercall(HcFinishReq, 0, 0)] && fin.ret == 0
  {
    var caller, cfgBuf, user := 42, 0x9000, 0x4000;
    var a, b, c := Probe(5), Request(CmdInitVirtio, 0, Accepting(Page1, 0, caller)),
                   Request(CmdZoneStart, user, Accepting(0, cfgBuf, caller));
    Run3(cfg, a, b, c);
    var s1 := Step(cfg, Loaded, a);
    var s2 := Step(cfg, s1, b);
    var s := Step(cfg, s2, c);
    assert s1 == State(Globals(5, 0, None), []);
    var e1 := InitVirtio(cfg, s1.globals, Accepting(Page1, 0, caller)).events;
    assert s2 == State(Globals(5, Page1, Some(caller)), [] + e1);
    var e2 := ZoneStart(cfg, s2.globals, user, Accepting(0, cfgBuf, caller)).events;
    assert s == State(s2.globals, [] + e1 + e2);
    assert [] + e1 + e2 == e1 + e2;
    Project4(e1, CallOf);
    ZoneStartCopyIn(cfg, s2.globals, user, Accepting(0, cfgBuf, caller));
    ProjectConcat(e1, e2, CallOf);
    RunInv(cfg, [a, b, c]);
    IoctlDirectCalls(cfg, s.globals, 0, Accepting(0, 0, caller));
  }
}
