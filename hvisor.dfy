/** The control logic of the hvisor kernel driver (driver/hvisor.c): its
    three globals, the ioctl dispatcher and its per-operation helpers, the
    mmap page-frame choice, the interrupt decision and the release of state
    at module exit.

    Every collaborator the driver calls into (the hypervisor trap, the user
    copy routines, the allocators, remap_pfn_range, send_sig_info and
    get_current) is an oracle: what it returned is an input of the model,
    gathered in an `Oracle` value.
 */
module Hvisor {
  import opened Effects

  // Linux errno values (asm-generic/errno-base.h).
  const ENOMEM: int := 12
  const EFAULT: int := 14
  const EINVAL: int := 22
  const ENOTTY: int := 25

  /** sizeof(u64), the staging buffer of CONFIG_CHECK. */
  const U64Size: nat := 8

  /** Identity of a process (`struct task_struct *`). */
  type TaskId = nat

  datatype Option<T> = None | Some(value: T)

  /** Build constants the driver's headers fix: whether LOONGARCH64 is
      defined, PAGE_SHIFT, and the sizes of the shared structures. */
  datatype Config = Config(
    loongarch: bool,
    pageShift: nat,
    bridgeSize: nat,       // sizeof(struct virtio_bridge)
    zoneConfigSize: nat,   // sizeof(zone_config_t)
    zoneInfoSize: nat,     // sizeof(zone_info_t)
    listArgsSize: nat)     // sizeof(zone_list_args_t)

  /** The driver's globals: `virtio_irq` (-1 while unbound), `virtio_bridge`
      (0 for NULL) and `task` (None for NULL). */
  datatype Globals = Globals(virtioIrq: int, virtioBridge: nat, task: Option<TaskId>)

  /** The globals as the module image initialises them. */
  const Boot := Globals(-1, 0, None)

  /** A `zone_list_args_t`: capacity and destination in user space. */
  datatype ZoneListArgs = ZoneListArgs(cnt: nat, zones: nat)

  /** What the collaborators return during one ioctl. */
  datatype Oracle = Oracle(
    page: nat,               // __get_free_pages (0: failed)
    buf: nat,                // kmalloc (0: failed)
    copyInOk: bool,          // copy_from_user copied everything
    listArgs: ZoneListArgs,  // the value copy_from_user read in hvisor_zone_list
    result: Int32,           // hvisor_call, as stored in an int
    copyOutOk: bool,         // copy_to_user copied everything
    current: TaskId)         // get_current()

  /** The return value, the new globals and the events of one operation. */
  datatype Outcome = Outcome(ret: int, globals: Globals, events: seq<Event>)

  /** The ioctl request codes; `OtherCmd` is any code that is none of the
      named ones. */
  datatype Ioctl =
    | CmdInitVirtio
    | CmdZoneStart
    | CmdZoneShutdown
    | CmdZoneList
    | CmdFinishReq
    | CmdConfigCheck
    | CmdClearInjectIrq
    | OtherCmd(code: nat)

  // ---------------------------------------------------------------------
  // The per-operation helpers

  /** hvisor_init_virtio. A failed allocation still overwrites
      `virtio_bridge` with NULL, and a failed hypercall keeps the page. */
  function InitVirtio(cfg: Config, g: Globals, o: Oracle): (r: Outcome)
    ensures r.globals.virtioIrq == g.virtioIrq && r.globals.task == g.task
    ensures r.events == [] || r.events[0] == GetFreePage(o.page)
  {
    if g.virtioIrq == -1 then
      Outcome(ENOTTY, g, [])
    else if o.page == 0 then
      Outcome(-ENOMEM, g.(virtioBridge := 0), [GetFreePage(0)])
    else
      Outcome(o.result, g.(virtioBridge := o.page),
              [GetFreePage(o.page), SetReserved(o.page), Memset(o.page, cfg.bridgeSize),
               Call(Hypercall(HcInitVirtio, o.page, 0))])
  }

  /** hvisor_finish_req. */
  function FinishReq(g: Globals, o: Oracle): (r: Outcome)
    ensures r.globals == g && r.ret == o.result
  {
    Outcome(o.result, g, [Call(Hypercall(HcFinishReq, 0, 0))])
  }

  /** hvisor_zone_start. The allocation is not checked: a NULL buffer goes on
      to the copy and the hypercall. */
  function ZoneStart(cfg: Config, g: Globals, arg: nat, o: Oracle): (r: Outcome)
    ensures r.globals == g
    ensures |r.events| >= 2 && r.events[0] == Kmalloc(o.buf, cfg.zoneConfigSize) && r.events[|r.events| - 1] == Kfree(o.buf)
  {
    var p := o.buf;
    var staged := [Kmalloc(p, cfg.zoneConfigSize),
                   CopyFromUser(Staging(p), arg, cfg.zoneConfigSize, o.copyInOk)];
    if !o.copyInOk then
      Outcome(-EFAULT, g, staged + [Kfree(p)])
    else
      Outcome(o.result, g, staged + [Call(Hypercall(HcStartZone, p, cfg.zoneConfigSize)), Kfree(p)])
  }

  /** hvisor_config_check. The staging word is copied back whatever the
      hypercall returned; it is neither checked for NULL nor zeroed. */
  function ConfigCheck(g: Globals, arg: nat, o: Oracle): (r: Outcome)
    ensures r.globals == g
    ensures |r.events| >= 2 && r.events[0] == Kmalloc(o.buf, U64Size) && r.events[|r.events| - 1] == Kfree(o.buf)
  {
    var p := o.buf;
    Outcome(if o.copyOutOk then o.result else -EFAULT, g,
            [Kmalloc(p, U64Size), Call(Hypercall(HcConfigCheck, p, 0)),
             CopyToUser(arg, Staging(p), U64Size, o.copyOutOk), Kfree(p)])
  }

  /** hvisor_zone_list. The hypercall's count is trusted: `ret` records are
      copied back, and a failed copy-back still returns `ret`. */
  function ZoneList(cfg: Config, g: Globals, arg: nat, o: Oracle): (r: Outcome)
    ensures r.globals == g
    ensures o.copyInOk ==>
      && |r.events| >= 3
      && r.events[1] == Kmalloc(o.buf, o.listArgs.cnt * cfg.zoneInfoSize)
      && r.events[|r.events| - 1] == Kfree(o.buf)
  {
    var copyIn := [CopyFromUser(LocalArgs, arg, cfg.listArgsSize, o.copyInOk)];
    if !o.copyInOk then
      Outcome(-EFAULT, g, copyIn)
    else
      var args, p := o.listArgs, o.buf;
      var size := args.cnt * cfg.zoneInfoSize;
      var called := copyIn + [Kmalloc(p, size), Memset(p, size), Call(Hypercall(HcZoneList, p, args.cnt))];
      if o.result < 0 then
        Outcome(o.result, g, called + [Kfree(p)])
      else
        Outcome(o.result, g,
                called + [CopyToUser(args.zones, Staging(p), o.result * cfg.zoneInfoSize, o.copyOutOk), Kfree(p)])
  }

  /** hvisor_ioctl: the case labels of the switch. `task` is set after
      INIT_VIRTIO whatever the helper returned. */
  function DoIoctl(cfg: Config, g: Globals, cmd: Ioctl, arg: nat, o: Oracle): (r: Outcome)
    ensures r.globals.virtioIrq == g.virtioIrq
  {
    match cmd
    case CmdInitVirtio =>
      var out := InitVirtio(cfg, g, o);
      out.(globals := out.globals.(task := Some(o.current)))
    case CmdZoneStart => ZoneStart(cfg, g, arg, o)
    case CmdZoneShutdown => Outcome(o.result, g, [Call(Hypercall(HcShutdownZone, arg, 0))])
    case CmdZoneList => ZoneList(cfg, g, arg, o)
    case CmdFinishReq => FinishReq(g, o)
    case CmdConfigCheck => ConfigCheck(g, arg, o)
    case CmdClearInjectIrq =>
      if cfg.loongarch then Outcome(o.result, g, [Call(Hypercall(HcClearInjectIrq, 0, 0))])
      else Outcome(-EINVAL, g, [])
    case OtherCmd(_) => Outcome(-EINVAL, g, [])
  }

  /** The hypercall each request is routed to, as a table: None for the codes
      that end in -EINVAL. */
  function HypercallFor(cfg: Config, cmd: Ioctl): (r: Option<HypercallCode>)
    ensures r.None? <==> cmd.OtherCmd? || (cmd.CmdClearInjectIrq? && !cfg.loongarch)
  {
    match cmd
    case CmdInitVirtio => Some(HcInitVirtio)
    case CmdZoneStart => Some(HcStartZone)
    case CmdZoneShutdown => Some(HcShutdownZone)
    case CmdZoneList => Some(HcZoneList)
    case CmdFinishReq => Some(HcFinishReq)
    case CmdConfigCheck => Some(HcConfigCheck)
    case CmdClearInjectIrq => if cfg.loongarch then Some(HcClearInjectIrq) else None
    case OtherCmd(_) => None
  }

  /** The module-init step kept here: `virtio_irq` bound to the number the
      device tree gave (the request_irq that makes it usable succeeded). */
  function BindIrq(g: Globals, irq: nat): (r: Globals)
    ensures r.virtioIrq == irq && r.virtioBridge == g.virtioBridge && r.task == g.task
  {
    g.(virtioIrq := irq)
  }

  /** The state-release part of hvisor_exit. */
  function ExitEvents(g: Globals): (r: seq<Event>)
    ensures forall e :: e in r ==> e.FreeIrq? || e.ClearReserved? || e.FreePage?
  {
    (if g.virtioIrq != -1 then [FreeIrq(g.virtioIrq)] else [])
    + (if g.virtioBridge != 0 then [ClearReserved(g.virtioBridge), FreePage(g.virtioBridge)] else [])
  }

  // ---------------------------------------------------------------------
  // mmap and the interrupt handler

  function Pow2(n: nat): (r: nat)
    ensures r >= 1
  {
    if n == 0 then 1 else 2 * Pow2(n - 1)
  }

  function PageSize(cfg: Config): (r: nat)
    ensures r >= 1
  {
    Pow2(cfg.pageShift)
  }

  /** `x >> n` on an unsigned value. */
  function Shr(x: nat, n: nat): (r: nat)
    ensures r <= x
  {
    if n == 0 then x else Shr(x / 2, n - 1)
  }

  /** `addr >> PAGE_SHIFT`: the number of the frame holding `addr`. */
  function PfnOf(cfg: Config, addr: nat): (r: nat)
    ensures r <= addr
  {
    Shr(addr, cfg.pageShift)
  }

  /** The part of a `vm_area_struct` hvisor_map reads. */
  datatype Vma = Vma(start: nat, end: nat, pgoff: nat)

  /** The arguments of one remap_pfn_range call. */
  datatype Remap = Remap(addr: nat, pfn: nat, len: nat)

  /** The remap_pfn_range call hvisor_map makes: the frame of the bridge
      page for offset 0, the offset itself otherwise, with no range check on
      the offset and no check of the length in either branch. */
  function MapRequest(cfg: Config, bridge: nat, vma: Vma): (r: Remap)
    requires vma.start <= vma.end
    ensures r.addr == vma.start && r.len == vma.end - vma.start
  {
    if vma.pgoff == 0 then
      Remap(vma.start, PfnOf(cfg, bridge), vma.end - vma.start)
    else
      Remap(vma.start, vma.pgoff, vma.end - vma.start)
  }

  datatype IrqReturn = IrqNone | IrqHandled

  /** What virtio_irq_handler returns and to whom it sends SIGHVI. */
  datatype IrqAction = IrqAction(ret: IrqReturn, signal: Option<TaskId>)

  function IrqDecision(isHvisorDev: bool, task: Option<TaskId>): (a: IrqAction)
    ensures a.ret == IrqHandled <==> isHvisorDev
    ensures a.signal.Some? <==> isHvisorDev && task.Some?
    ensures a.signal.Some? ==> a.signal == task
  {
    if !isHvisorDev then IrqAction(IrqNone, None)
    else IrqAction(IrqHandled, task)
  }
}
