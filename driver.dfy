/** The driver as the C code runs it: one object holding the three module
    globals, which the entry points update in place, and the log of every
    event the driver has caused in the kernel so far (allocations, copies,
    hypercalls). What the allocations leave behind is `Replay` over that
    log, whose properties module HvisorRuns proves.

    Each collaborator call logs its event and hands back the oracle's
    answer; each entry point follows the C body statement by statement and
    is specified by the function of module Hvisor that describes it.
 */
module HvisorDriver {
  import opened Effects
  import opened Hvisor
  import HvisorRuns

  class Driver {
    const cfg: Config

    var virtioIrq: int
    var virtioBridge: nat
    var task: Option<TaskId>
    var trace: seq<Event>

    function Snapshot(): Globals
      reads this
    {
      Globals(virtioIrq, virtioBridge, task)
    }

    /** The lifetime invariant over the globals and the ledger the log has
        built up: no heap buffer is live, every page obtained is allocated
        and reserved, and the bridge is one of them. */
    ghost predicate Valid()
      reads this
    {
      HvisorRuns.Inv(HvisorRuns.State(Snapshot(), trace))
    }

    /** The module image: `virtio_irq = -1`, NULL bridge and task. */
    constructor (cfg: Config)
      ensures this.cfg == cfg && Snapshot() == Boot && trace == []
      ensures Valid()
    {
      this.cfg := cfg;
      virtioIrq, virtioBridge, task := -1, 0, None;
      trace := [];
      HvisorRuns.LoadedInv();
    }

    // -------------------------------------------------------------------
    // Collaborators

    /** A call whose only trace is its event: memset, kfree, a user copy,
        SetPageReserved, free_irq. */
    method Log(e: Event)
      modifies this`trace
      ensures trace == old(trace) + [e]
    {
      trace := trace + [e];
    }

    /** __get_free_pages(GFP_KERNEL, 0), which returned `got` (0: failed). */
    method GetPage(got: nat) returns (page: nat)
      modifies this`trace
      ensures page == got && trace == old(trace) + [GetFreePage(got)]
    {
      page := got;
      Log(GetFreePage(page));
    }

    /** kmalloc(size, GFP_KERNEL), which returned `got` (0: failed). */
    method Alloc(size: nat, got: nat) returns (p: nat)
      modifies this`trace
      ensures p == got && trace == old(trace) + [Kmalloc(got, size)]
    {
      p := got;
      Log(Kmalloc(p, size));
    }

    /** hvisor_call(code, arg0, arg1), which returned `result`. */
    method Trap(code: HypercallCode, arg0: nat, arg1: nat, result: Int32) returns (r: Int32)
      modifies this`trace
      ensures r == result && trace == old(trace) + [Call(Hypercall(code, arg0, arg1))]
    {
      Log(Call(Hypercall(code, arg0, arg1)));
      r := result;
    }

    // -------------------------------------------------------------------
    // Entry points

    /** hvisor_init, reduced to binding `virtio_irq`. */
    method Init(irq: nat)
      requires Valid()
      modifies this`virtioIrq
      ensures Snapshot() == BindIrq(old(Snapshot()), irq) && trace == old(trace)
      ensures Valid()
    {
      virtioIrq := irq;
    }

    method InitVirtio(o: Oracle) returns (err: int)
      modifies this`virtioBridge, this`trace
      ensures var out := Hvisor.InitVirtio(cfg, old(Snapshot()), o);
        && err == out.ret && Snapshot() == out.globals && trace == old(trace) + out.events
    {
      if virtioIrq == -1 {
        return ENOTTY;
      }
      virtioBridge := GetPage(o.page);
      if virtioBridge == 0 {
        return -ENOMEM;
      }
      Log(SetReserved(virtioBridge));
      Log(Memset(virtioBridge, cfg.bridgeSize));
      err := Trap(HcInitVirtio, virtioBridge, 0, o.result);
      if err != 0 {
        return err;
      }
      return 0;
    }

    method FinishReq(o: Oracle) returns (err: int)
      modifies this`trace
      ensures var out := Hvisor.FinishReq(old(Snapshot()), o);
        && err == out.ret && Snapshot() == out.globals && trace == old(trace) + out.events
    {
      err := Trap(HcFinishReq, 0, 0, o.result);
      if err != 0 {
        return err;
      }
      return 0;
    }

    method ZoneStart(arg: nat, o: Oracle) returns (err: int)
      modifies this`trace
      ensures var out := Hvisor.ZoneStart(cfg, old(Snapshot()), arg, o);
        && err == out.ret && Snapshot() == out.globals && trace == old(trace) + out.events
    {
      var zoneConfig := Alloc(cfg.zoneConfigSize, o.buf);
      // A NULL result is only logged by the C code.
      Log(CopyFromUser(Staging(zoneConfig), arg, cfg.zoneConfigSize, o.copyInOk));
      if !o.copyInOk {
        Log(Kfree(zoneConfig));
        return -EFAULT;
      }
      err := Trap(HcStartZone, zoneConfig, cfg.zoneConfigSize, o.result);
      Log(Kfree(zoneConfig));
    }

    method ConfigCheck(arg: nat, o: Oracle) returns (err: int)
      modifies this`trace
      ensures var out := Hvisor.ConfigCheck(old(Snapshot()), arg, o);
        && err == out.ret && Snapshot() == out.globals && trace == old(trace) + out.events
    {
      var config := Alloc(U64Size, o.buf);
      err := Trap(HcConfigCheck, config, 0, o.result);
      Log(CopyToUser(arg, Staging(config), U64Size, o.copyOutOk));
      if !o.copyOutOk {
        Log(Kfree(config));
        return -EFAULT;
      }
      Log(Kfree(config));
    }

    method ZoneList(arg: nat, o: Oracle) returns (ret: int)
      modifies this`trace
      ensures var out := Hvisor.ZoneList(cfg, old(Snapshot()), arg, o);
        && ret == out.ret && Snapshot() == out.globals && trace == old(trace) + out.events
    {
      Log(CopyFromUser(LocalArgs, arg, cfg.listArgsSize, o.copyInOk));
      if !o.copyInOk {
        return -EFAULT;
      }
      var args := o.listArgs;
      var zones := Alloc(args.cnt * cfg.zoneInfoSize, o.buf);
      Log(Memset(zones, args.cnt * cfg.zoneInfoSize));
      ret := Trap(HcZoneList, zones, args.cnt, o.result);
      ghost var called := trace;
      label out: {
        if ret < 0 {
          break out;
        }
        Log(CopyToUser(args.zones, Staging(zones), ret * cfg.zoneInfoSize, o.copyOutOk));
        if !o.copyOutOk {
          break out;
        }
      }
      Log(Kfree(zones));
      assert trace == called
        + (if ret < 0 then [] else [CopyToUser(args.zones, Staging(zones), ret * cfg.zoneInfoSize, o.copyOutOk)])
        + [Kfree(zones)];
    }

    /** hvisor_ioctl. */
    method Ioctl(cmd: Ioctl, arg: nat, o: Oracle) returns (err: int)
      requires Valid()
      modifies this`virtioBridge, this`task, this`trace
      ensures var out := DoIoctl(cfg, old(Snapshot()), cmd, arg, o);
        && err == out.ret && Snapshot() == out.globals && trace == old(trace) + out.events
      ensures Valid()
    {
      ghost var before := HvisorRuns.State(Snapshot(), trace);
      match cmd {
      case CmdInitVirtio =>
        err := InitVirtio(o);
        task := Some(o.current);
      case CmdZoneStart =>
        err := ZoneStart(arg, o);
      case CmdZoneShutdown =>
        err := Trap(HcShutdownZone, arg, 0, o.result);
      case CmdZoneList =>
        err := ZoneList(arg, o);
      case CmdFinishReq =>
        err := FinishReq(o);
      case CmdConfigCheck =>
        err := ConfigCheck(arg, o);
      case CmdClearInjectIrq =>
        if cfg.loongarch {
          err := Trap(HcClearInjectIrq, 0, 0, o.result);
        } else {
          err := -EINVAL;
        }
      case OtherCmd(_) =>
        err := -EINVAL;
      }
      HvisorRuns.StepInv(cfg, before, HvisorRuns.Request(cmd, arg, o));
    }

    /** hvisor_map: the remap_pfn_range call it makes, and what it returns
        given that call's result. */
    method Map(vma: Vma, remapResult: Int32) returns (remap: Remap, err: int)
      requires vma.start <= vma.end
      ensures remap == MapRequest(cfg, virtioBridge, vma)
      ensures err == remapResult
    {
      var size := vma.end - vma.start;
      if vma.pgoff == 0 {
        remap := Remap(vma.start, PfnOf(cfg, virtioBridge), size);
      } else {
        remap := Remap(vma.start, vma.pgoff, size);
      }
      err := remapResult;
      if err != 0 {
        return;
      }
      err := 0;
    }

    /** virtio_irq_handler: what it returns and whom it signals, given what
        send_sig_info returned (which changes neither). */
    method IrqHandler(isHvisorDev: bool, sendResult: Int32) returns (ret: IrqReturn, signalled: Option<TaskId>)
      ensures IrqAction(ret, signalled) == IrqDecision(isHvisorDev, task)
    {
      if !isHvisorDev {
        return IrqNone, None;
      }
      signalled := None;
      if task != None {
        // A failed send (`sendResult < 0`) is only logged.
        signalled := task;
      }
      return IrqHandled, signalled;
    }

    /** The state-release part of hvisor_exit. */
    method Exit()
      modifies this`trace
      ensures Snapshot() == old(Snapshot()) && trace == old(trace) + ExitEvents(old(Snapshot()))
    {
      ghost var t0 := trace;
      if virtioIrq != -1 {
        Log(FreeIrq(virtioIrq));
      }
      ghost var t1 := trace;
      if virtioBridge != 0 {
        Log(ClearReserved(virtioBridge));
        Log(FreePage(virtioBridge));
      }
      assert trace == t0 + (t1[|t0|..] + trace[|t1|..]);
    }
  }
}
