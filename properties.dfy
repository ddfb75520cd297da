/** What each entry point of the driver promises, stated over the events it
    causes: which hypercalls it makes, what it allocates and frees, what it
    copies back to user space and what it returns.  Each lemma holds for
    every starting ledger `l`, so "leaves the ledger as it found it" means
    that every buffer the operation allocates is freed by it and nothing else
    is touched.
 */
module HvisorProperties {
  import opened Effects
  import opened Hvisor

  // ---------------------------------------------------------------------
  // hvisor_init_virtio

  /** Unbound interrupt line: the positive ENOTTY, and nothing else happens. */
  lemma InitVirtioUnbound(cfg: Config, g: Globals, o: Oracle, l: Ledger)
    requires g.virtioIrq == -1
    ensures var out := InitVirtio(cfg, g, o);
      && out.ret == ENOTTY && out.ret > 0
      && out.globals == g
      && Calls(out.events) == [] && ZeroFills(out.events) == []
      && Replay(l, out.events) == l
  {
  }

  /** Failed page allocation: -ENOMEM, no hypercall, nothing allocated, and
      `virtio_bridge` is left NULL. */
  lemma InitVirtioNoPage(cfg: Config, g: Globals, o: Oracle, l: Ledger)
    requires g.virtioIrq != -1 && o.page == 0
    ensures var out := InitVirtio(cfg, g, o);
      && out.ret == -ENOMEM
      && out.globals == g.(virtioBridge := 0)
      && Calls(out.events) == []
      && Replay(l, out.events) == l
  {
    var es := InitVirtio(cfg, g, o).events;
    Project1(es, CallOf);
    Replay1(l, es);
  }

  /** A page was obtained: it becomes the bridge, is zeroed over the size of
      the bridge structure before the only hypercall, which gets its address
      and length 0; the page stays allocated and reserved whatever the
      hypercall returned, and the result is 0 exactly when the hypercall's
      is, the hypercall's value otherwise. */
  lemma InitVirtioWithPage(cfg: Config, g: Globals, o: Oracle, l: Ledger)
    requires g.virtioIrq != -1 && o.page != 0
    ensures var out := InitVirtio(cfg, g, o);
      && out.globals == g.(virtioBridge := o.page)
      && Calls(out.events) == [Hypercall(HcInitVirtio, o.page, 0)]
      && ZeroFills(out.events) == [(o.page, cfg.bridgeSize)]
      && Calls(out.events[..|out.events| - 1]) == []
      && (out.ret == 0 <==> o.result == 0)
      && (out.ret != 0 ==> out.ret == o.result)
      && Replay(l, out.events) == l.(pages := l.pages + multiset{o.page}, reserved := l.reserved + {o.page})
  {
    var es := InitVirtio(cfg, g, o).events;
    Project4(es, CallOf);
    Project4(es, ZeroFillOf);
    Project3(es[..3], CallOf);
    Replay4(l, es);
  }

  // ---------------------------------------------------------------------
  // hvisor_ioctl

  /** INIT_VIRTIO records the caller as the notification target whatever
      hvisor_init_virtio returned, and changes `virtio_irq` never. */
  lemma IoctlInitVirtioSetsTask(cfg: Config, g: Globals, arg: nat, o: Oracle)
    ensures var out := DoIoctl(cfg, g, CmdInitVirtio, arg, o);
      && out.globals.task == Some(o.current)
      && out.globals == InitVirtio(cfg, g, o).globals.(task := Some(o.current))
      && out.globals.virtioIrq == g.virtioIrq
      && out.ret == InitVirtio(cfg, g, o).ret
      && out.events == InitVirtio(cfg, g, o).events
  {
  }

  /** Every other request leaves all three globals and the ledger as they
      were. */
  lemma IoctlOthersKeepState(cfg: Config, g: Globals, cmd: Ioctl, arg: nat, o: Oracle, l: Ledger)
    requires cmd != CmdInitVirtio
    ensures var out := DoIoctl(cfg, g, cmd, arg, o);
      && out.globals == g
      && Replay(l, out.events) == l
      && PagesAllocated(out.events) == []
  {
    var es := DoIoctl(cfg, g, cmd, arg, o).events;
    match cmd
    case CmdZoneStart => ZoneStartStaging(cfg, g, arg, o, l);
    case CmdZoneList => ZoneListStaging(cfg, g, arg, o, l);
    case CmdConfigCheck => ConfigCheckStaging(g, arg, o, l);
    case _ =>
      if es != [] {
        Project1(es, PageOf);
        Replay1(l, es);
      }
  }

  /** The dispatcher agrees with the routing table: a request makes at most
      one hypercall, and only the one the table names; a code the switch
      does not list returns -EINVAL having done nothing. */
  lemma IoctlFollowsTable(cfg: Config, g: Globals, cmd: Ioctl, arg: nat, o: Oracle)
    ensures var out := DoIoctl(cfg, g, cmd, arg, o);
      && |Calls(out.events)| <= 1
      && (Calls(out.events) != [] ==> HypercallFor(cfg, cmd) == Some(Calls(out.events)[0].code))
      && (HypercallFor(cfg, cmd) == None ==> out.ret == -EINVAL && out.events == [])
  {
    var es := DoIoctl(cfg, g, cmd, arg, o).events;
    match cmd
    case CmdInitVirtio =>
      if g.virtioIrq != -1 {
        if o.page == 0 { Project1(es, CallOf); } else { Project4(es, CallOf); }
      }
    case CmdZoneStart => ZoneStartCopyIn(cfg, g, arg, o);
    case CmdZoneList => ZoneListCalls(cfg, g, arg, o);
    case CmdConfigCheck => ConfigCheckCopiesBack(g, arg, o);
    case _ =>
      if es != [] { Project1(es, CallOf); }
  }

  /** Two request codes routed to the same hypercall are the same code. */
  lemma RoutingIsInjective(cfg: Config, c1: Ioctl, c2: Ioctl)
    requires HypercallFor(cfg, c1).Some? && HypercallFor(cfg, c1) == HypercallFor(cfg, c2)
    ensures c1 == c2
  {
  }

  /** ZONE_SHUTDOWN hands `arg` through unchanged with 0 as second argument;
      FINISH_REQ and (on LoongArch) CLEAR_INJECT_IRQ call with (0, 0).
      Each returns what the hypercall returned. */
  lemma IoctlDirectCalls(cfg: Config, g: Globals, arg: nat, o: Oracle)
    ensures var out := DoIoctl(cfg, g, CmdZoneShutdown, arg, o);
      Calls(out.events) == [Hypercall(HcShutdownZone, arg, 0)] && out.ret == o.result
    ensures var out := DoIoctl(cfg, g, CmdFinishReq, arg, o);
      Calls(out.events) == [Hypercall(HcFinishReq, 0, 0)] && out.ret == o.result
    ensures var out := DoIoctl(cfg, g, CmdClearInjectIrq, arg, o);
      if cfg.loongarch then Calls(out.events) == [Hypercall(HcClearInjectIrq, 0, 0)] && out.ret == o.result
      else Calls(out.events) == [] && out.ret == -EINVAL
  {
    Project1(DoIoctl(cfg, g, CmdZoneShutdown, arg, o).events, CallOf);
    Project1(DoIoctl(cfg, g, CmdFinishReq, arg, o).events, CallOf);
    if cfg.loongarch { Project1(DoIoctl(cfg, g, CmdClearInjectIrq, arg, o).events, CallOf); }
  }

  // ---------------------------------------------------------------------
  // hvisor_zone_start

  /** The staging buffer is freed exactly once on both paths (and kfree of a
      NULL buffer frees nothing), so the ledger ends as it began. */
  lemma ZoneStartStaging(cfg: Config, g: Globals, arg: nat, o: Oracle, l: Ledger)
    ensures var out := ZoneStart(cfg, g, arg, o);
      && Allocs(out.events) == Frees(out.events) == (if o.buf != 0 then multiset{o.buf} else multiset{})
      && Replay(l, out.events) == l
      && PagesAllocated(out.events) == []
      && out.globals == g
  {
    var p, n := o.buf, cfg.zoneConfigSize;
    var mid := [CopyFromUser(Staging(p), arg, n, o.copyInOk)]
             + (if o.copyInOk then [Call(Hypercall(HcStartZone, p, n))] else []);
    assert ZoneStart(cfg, g, arg, o).events == [] + [Kmalloc(p, n)] + mid + [Kfree(p)];
    Bracketed(l, [], p, n, mid);
  }

  /** A failed copy-in returns -EFAULT without calling the hypervisor;
      otherwise START_ZONE gets the buffer the configuration was copied into
      and sizeof(zone_config_t), and its result is returned. */
  lemma ZoneStartCopyIn(cfg: Config, g: Globals, arg: nat, o: Oracle)
    ensures var out := ZoneStart(cfg, g, arg, o);
      && out.events[1] == CopyFromUser(Staging(o.buf), arg, cfg.zoneConfigSize, o.copyInOk)
      && (!o.copyInOk ==> out.ret == -EFAULT && Calls(out.events) == [])
      && (o.copyInOk ==> out.ret == o.result
                         && Calls(out.events) == [Hypercall(HcStartZone, o.buf, cfg.zoneConfigSize)])
    // In order, between the allocation and the free: the copy in, then
    // (on success) the call.
    ensures var out := ZoneStart(cfg, g, arg, o);
      && Calls(out.events[..2]) == []
      && (o.copyInOk ==> out.events[2] == Call(Hypercall(HcStartZone, o.buf, cfg.zoneConfigSize)))
  {
    var es := ZoneStart(cfg, g, arg, o).events;
    if o.copyInOk { Project4(es, CallOf); } else { Project3(es, CallOf); }
    Project2(es[..2], CallOf);
  }

  // ---------------------------------------------------------------------
  // hvisor_config_check

  /** The 8-byte word is copied back from the very buffer handed to the
      hypervisor, whether or not the call succeeded; -EFAULT if that copy
      fails, the call's result otherwise. The word is never zeroed, so a
      failed call hands back whatever the allocator left in it. */
  lemma ConfigCheckCopiesBack(g: Globals, arg: nat, o: Oracle)
    ensures var out := ConfigCheck(g, arg, o);
      && Calls(out.events) == [Hypercall(HcConfigCheck, o.buf, 0)]
      && CopiesOut(out.events) == [CopyToUser(arg, Staging(o.buf), U64Size, o.copyOutOk)]
      && ZeroFills(out.events) == []
      && out.ret == (if o.copyOutOk then o.result else -EFAULT)
    // In order, between the allocation and the free: the call, then the
    // copy back of what the call left.
    ensures var out := ConfigCheck(g, arg, o);
      && out.events[1] == Call(Hypercall(HcConfigCheck, o.buf, 0))
      && out.events[2] == CopyToUser(arg, Staging(o.buf), U64Size, o.copyOutOk)
  {
    var es := ConfigCheck(g, arg, o).events;
    Project4(es, CallOf); Project4(es, CopyOutOf); Project4(es, ZeroFillOf);
  }

  /** The staging word is freed exactly once on both paths. */
  lemma ConfigCheckStaging(g: Globals, arg: nat, o: Oracle, l: Ledger)
    ensures var out := ConfigCheck(g, arg, o);
      && Allocs(out.events) == Frees(out.events) == (if o.buf != 0 then multiset{o.buf} else multiset{})
      && Replay(l, out.events) == l
      && PagesAllocated(out.events) == []
      && out.globals == g
  {
    var p := o.buf;
    var mid := [Call(Hypercall(HcConfigCheck, p, 0)), CopyToUser(arg, Staging(p), U64Size, o.copyOutOk)];
    assert ConfigCheck(g, arg, o).events == [] + [Kmalloc(p, U64Size)] + mid + [Kfree(p)];
    Bracketed(l, [], p, U64Size, mid);
  }

  // ---------------------------------------------------------------------
  // hvisor_zone_list

  /** A failed copy-in of the arguments returns -EFAULT before anything is
      allocated or called. Otherwise a zeroed buffer of `cnt` records goes to
      ZONE_LIST with `cnt`; a negative result copies nothing back, a result
      `ret >= 0` copies back exactly `ret` records from that buffer, and
      `ret` is returned even when the copy fails. */
  lemma ZoneListCalls(cfg: Config, g: Globals, arg: nat, o: Oracle)
    ensures var out := ZoneList(cfg, g, arg, o);
      && out.events[0] == CopyFromUser(LocalArgs, arg, cfg.listArgsSize, o.copyInOk)
      && (!o.copyInOk ==> out.ret == -EFAULT && out.events == [out.events[0]] && Calls(out.events) == [])
      && (o.copyInOk ==>
            var args := o.listArgs;
            && out.ret == o.result
            && Calls(out.events) == [Hypercall(HcZoneList, o.buf, args.cnt)]
            && ZeroFills(out.events) == [(o.buf, args.cnt * cfg.zoneInfoSize)]
            && (o.result < 0 ==> CopiesOut(out.events) == [])
            && (o.result >= 0 ==>
                  CopiesOut(out.events)
                  == [CopyToUser(args.zones, Staging(o.buf), o.result * cfg.zoneInfoSize, o.copyOutOk)]))
    // In order, after the allocation: zero, call, then copy back (when
    // `ret >= 0`), before the free.
    ensures var out := ZoneList(cfg, g, arg, o);
      o.copyInOk ==>
        var args, n := o.listArgs, o.listArgs.cnt * cfg.zoneInfoSize;
        && out.events[2] == Memset(o.buf, n)
        && out.events[3] == Call(Hypercall(HcZoneList, o.buf, args.cnt))
        && (o.result >= 0 ==>
              out.events[4] == CopyToUser(args.zones, Staging(o.buf), o.result * cfg.zoneInfoSize, o.copyOutOk))
  {
    var es := ZoneList(cfg, g, arg, o).events;
    if !o.copyInOk {
      Project1(es, CallOf);
    } else if o.result < 0 {
      Project5(es, CallOf); Project5(es, ZeroFillOf); Project5(es, CopyOutOf);
    } else {
      Project6(es, CallOf); Project6(es, ZeroFillOf); Project6(es, CopyOutOf);
    }
  }

  /** The record buffer is freed exactly once on every path that allocated
      it, including the `goto out` ones. */
  lemma ZoneListStaging(cfg: Config, g: Globals, arg: nat, o: Oracle, l: Ledger)
    ensures var out := ZoneList(cfg, g, arg, o);
      && Allocs(out.events) == Frees(out.events)
      && Allocs(out.events) == (if o.copyInOk && o.buf != 0 then multiset{o.buf} else multiset{})
      && Replay(l, out.events) == l
      && PagesAllocated(out.events) == []
      && out.globals == g
  {
    var es := ZoneList(cfg, g, arg, o).events;
    var pre := [CopyFromUser(LocalArgs, arg, cfg.listArgsSize, o.copyInOk)];
    if !o.copyInOk {
      ReplayNeutral(l, es);
      NeutralUnaccounted(es);
    } else {
      var args, p := o.listArgs, o.buf;
      var n := args.cnt * cfg.zoneInfoSize;
      var mid := [Memset(p, n), Call(Hypercall(HcZoneList, p, args.cnt))]
               + (if o.result >= 0 then [CopyToUser(args.zones, Staging(p), o.result * cfg.zoneInfoSize, o.copyOutOk)]
                  else []);
      assert es == pre + [Kmalloc(p, n)] + mid + [Kfree(p)];
      Bracketed(l, pre, p, n, mid);
    }
  }

  /** The count the hypervisor returns is not clamped to `cnt`: when it
      exceeds the capacity, the copy-back reads past the end of the staging
      buffer; only a count within the capacity keeps the copy inside it. */
  lemma ZoneListTrustsCount(cfg: Config, g: Globals, arg: nat, o: Oracle)
    requires o.copyInOk && o.result >= 0 && cfg.zoneInfoSize > 0
    ensures var copies := CopiesOut(ZoneList(cfg, g, arg, o).events);
      && |copies| == 1 && copies[0].CopyToUser?
      && (copies[0].len <= o.listArgs.cnt * cfg.zoneInfoSize <==> o.result <= o.listArgs.cnt)
  {
    var es := ZoneList(cfg, g, arg, o).events;
    Project6(es, CopyOutOf);
    var n, c, z := o.result as nat, o.listArgs.cnt, cfg.zoneInfoSize;
    if n <= c {
      assert n * z <= c * z by { MulMonotone(n, c, z); }
    } else {
      assert c * z < n * z by { MulMonotone(c + 1, n, z); }
    }
  }

  lemma MulMonotone(a: nat, b: nat, z: nat)
    requires a <= b
    ensures a * z <= b * z
  {
  }

  // ---------------------------------------------------------------------
  // hvisor_map

  /** Shifting right by `n` bits finds the block of 2^n that holds `x`. */
  lemma {:induction false} ShrBounds(x: nat, n: nat)
    ensures Shr(x, n) * Pow2(n) <= x < (Shr(x, n) + 1) * Pow2(n)
  {
    if n > 0 {
      var y, p := x / 2, Pow2(n - 1);
      var q := Shr(y, n - 1);
      ShrBounds(y, n - 1);
      assert q * Pow2(n) == 2 * (q * p);
      assert (q + 1) * Pow2(n) == 2 * ((q + 1) * p);
    }
  }

  /** A multiple of 2^n shifts right by `n` bits to its quotient. */
  lemma {:induction false} ShrAligned(k: nat, n: nat)
    ensures Shr(k * Pow2(n), n) == k
  {
    if n > 0 {
      var p := Pow2(n - 1);
      assert k * Pow2(n) == 2 * (k * p);
      assert k * Pow2(n) / 2 == k * p;
      ShrAligned(k, n - 1);
    }
  }

  /** For offset 0 the mapping starts at the frame that holds the bridge
      page, exactly at the page when it is page-aligned; any other offset is
      taken as the frame number, unchecked. */
  lemma MapFrame(cfg: Config, bridge: nat, vma: Vma)
    requires vma.start <= vma.end
    ensures var r := MapRequest(cfg, bridge, vma);
      && (vma.pgoff == 0 ==> r.pfn * PageSize(cfg) <= bridge < (r.pfn + 1) * PageSize(cfg))
      && (vma.pgoff == 0 ==> forall k: nat :: bridge == k * PageSize(cfg) ==> r.pfn == k)
      && (vma.pgoff != 0 ==> r.pfn == vma.pgoff)
  {
    ShrBounds(bridge, cfg.pageShift);
    forall k: nat | bridge == k * PageSize(cfg)
      ensures Shr(bridge, cfg.pageShift) == k
    {
      ShrAligned(k, cfg.pageShift);
    }
  }

  // ---------------------------------------------------------------------
  // hvisor_exit

  /** What exit does to the ledger: it frees the bridge page, its reserved
      mark cleared first, only when there is one. */
  lemma ExitLedger(g: Globals, l: Ledger)
    ensures g.virtioBridge == 0 ==> Replay(l, ExitEvents(g)) == l
    ensures g.virtioBridge != 0 ==>
      Replay(l, ExitEvents(g)) == l.(pages := l.pages - multiset{g.virtioBridge},
                                      reserved := l.reserved - {g.virtioBridge})
  {
    var i, b := g.virtioIrq, g.virtioBridge;
    var irqPart := if i != -1 then [FreeIrq(i)] else [];
    var pagePart := if b != 0 then [ClearReserved(b), FreePage(b)] else [];
    assert ExitEvents(g) == irqPart + pagePart;
    ReplayConcat(l, irqPart, pagePart);
    assert Replay(l, irqPart) == l by {
      if i != -1 { Replay1(l, irqPart); }
    }
    if b != 0 {
      Replay2(l, pagePart);
      assert LedgerStep(l, pagePart[0]) == l.(reserved := l.reserved - {b});
    }
  }

  /** Exit releases the interrupt only when bound, and the bridge page (its
      reserved mark cleared first) only when there is one; heap buffers are
      not touched. */
  lemma ExitReleases(g: Globals, l: Ledger)
    ensures var es := ExitEvents(g);
      && (FreeIrq(g.virtioIrq) in es <==> g.virtioIrq != -1)
      && (g.virtioBridge == 0 ==> Replay(l, es) == l)
      && (g.virtioBridge != 0 ==>
            Replay(l, es) == l.(pages := l.pages - multiset{g.virtioBridge},
                                reserved := l.reserved - {g.virtioBridge}))
    // The reserved mark is cleared before the page is freed, and both
    // come last.
    ensures var es, b := ExitEvents(g), g.virtioBridge;
      b != 0 ==> |es| >= 2 && es[|es| - 2] == ClearReserved(b) && es[|es| - 1] == FreePage(b)
  {
    ExitLedger(g, l);
  }
}
