# hvisor kernel driver: control state machine

A model of the `hvisor` Linux kernel driver (`driver/hvisor.c`). This driver
lets the root Linux of the hvisor hypervisor:

- start, stop and list zones;
- check a zone configuration;
- register as the target of virtio notifications;
- map the shared virtio bridge page into user space.

The model covers the logic around each trap into the hypervisor:

- which hypercall a request makes, with which arguments;
- which buffers are allocated, zeroed, copied and freed, on which path;
- what is returned;
- how the three module globals `virtio_irq`, `virtio_bridge` and `task` change.

## Layout

- `effects.dfy` (module `Effects`) holds what an operation does to the
  kernel, written as a sequence of events:
  - allocation and freeing of pages and heap buffers;
  - page reservation;
  - `memset`, user copies, hypercalls and `free_irq`.

  The allocation ledger is a triple. It holds the live heap buffers (a
  multiset), the allocated pages (a multiset) and the reserved pages (a set).
  `Replay` folds a list of events into this ledger. The module also has
  projections that pick out the hypercalls, allocations, frees, copies back
  and zero fills of an event list.
- `hvisor.dfy` (module `Hvisor`) holds the specification functions:
  - one function per entry point, mapping the globals and the collaborators'
    answers to an `Outcome` (return value, new globals, events);
  - the dispatcher's routing table;
  - the mmap frame choice and the interrupt decision.
- `properties.dfy` (module `HvisorProperties`) states what each entry point
  promises about those outcomes.
- `runs.dfy` (module `HvisorRuns`) covers the driver over a whole lifetime:
  - module init, then any sequence of ioctls, then module exit;
  - an invariant over the ledger and the globals that holds between
    requests;
  - who receives the notification;
  - what exit releases and what it leaks.
- `driver.dfy` (module `HvisorDriver`) is the driver as the C code runs it.
  - A class `Driver` holds the three globals and the log of events caused
    so far. Its methods update them in place, statement by statement, as
    the C functions do.
  - Each method's `ensures` ties the new globals, the return value and the
    events appended to the log to the specification function of `Hvisor`.
  - `mmap` and the interrupt handler change nothing and are specified by
    `MapRequest` and `IrqDecision`.

The collaborators are inputs of the model:

- `hvisor_call`;
- `copy_from_user` and `copy_to_user`;
- `kmalloc` and `__get_free_pages`;
- `remap_pfn_range`, `send_sig_info` and `get_current`.

Each one's answer for a request is gathered in an `Oracle` value, or passed
as a method parameter. A pointer is its physical address (`__pa` is the
identity) and NULL is 0.

The build constants come from headers that are not part of this model. They
are fields of a `Config` record: `PAGE_SHIFT`, whether `LOONGARCH64` is
defined, and the sizes of `struct virtio_bridge`, `zone_config_t`,
`zone_info_t` and `zone_list_args_t`.

The model keeps the behaviour of the code as written:

- `ENOTTY` is returned as a positive value.
- `task` is set after `HVISOR_INIT_VIRTIO` whether or not initialisation
  succeeded.
- A failed page allocation still overwrites `virtio_bridge` with NULL.
- A failed `INIT_VIRTIO` hypercall keeps the page.
- Allocations in `hvisor_zone_start`, `hvisor_config_check` and
  `hvisor_zone_list` are not checked for NULL.
- `hvisor_zone_list` returns the hypervisor's count even when the copy back
  fails.
- `hvisor_zone_list` copies back as many records as the hypervisor says,
  not clamped to the capacity.
- `hvisor_map` checks neither the offset nor the length.

Three consequences of the code as written are easy to expect otherwise:

- mmap at offset 0 does not refuse a length over one page: `vm_end -
  vm_start` is passed through unchecked (`HvisorProperties.MapFrame`,
  `Hvisor.MapRequest`).
- An unbound notification line is reported as the positive `ENOTTY`, not
  as a negative error code (`HvisorProperties.InitVirtioUnbound`).
- No operation releases the bridge page before module exit, so a second
  INIT_VIRTIO always leaks the first page
  (`HvisorRuns.SecondInitLeaksFirstPage`).

## Model

| member | source | states |
|---|---|---|
| `HvisorDriver.Driver.constructor` | driver/hvisor.c:35-37 | the module image: `virtio_irq` is -1, the bridge and the task are NULL, nothing has happened yet; the lifetime invariant `Valid` holds |
| `HvisorDriver.Driver.Init` | driver/hvisor.c:326 | module init binds `virtio_irq` to the device-tree number and changes nothing else; `Valid` is kept |
| `HvisorDriver.Driver.InitVirtio` | driver/hvisor.c:41-57 | the method's return value, new globals and logged events are those of `Hvisor.InitVirtio` on the globals it started from |
| `HvisorDriver.Driver.FinishReq` | driver/hvisor.c:60-66 | one FINISH_REQ hypercall with (0, 0); returns its result; globals unchanged |
| `HvisorDriver.Driver.ZoneStart` | driver/hvisor.c:97-120 | return value, globals and logged events are those of `Hvisor.ZoneStart` |
| `HvisorDriver.Driver.ConfigCheck` | driver/hvisor.c:144-162 | return value, globals and logged events are those of `Hvisor.ConfigCheck` |
| `HvisorDriver.Driver.ZoneList` | driver/hvisor.c:164-191 | the `goto out` body ends with the return value, globals and events of `Hvisor.ZoneList` |
| `HvisorDriver.Driver.Ioctl` | driver/hvisor.c:193-226 | the switch over request codes, with its effect on the globals and the log, is `Hvisor.DoIoctl`; every request keeps `Valid` (no heap buffer live, every page obtained allocated and reserved, the bridge among them) |
| `HvisorDriver.Driver.Map` | driver/hvisor.c:229-258 | the remap_pfn_range call made is `MapRequest` of the current bridge; the remap error is returned unchanged, 0 on success |
| `HvisorDriver.Driver.IrqHandler` | driver/hvisor.c:274-298 | the return value and the signalled process are `IrqDecision` of the device check and `task`, whatever send_sig_info returned |
| `HvisorDriver.Driver.Exit` | driver/hvisor.c:379-384 | exit appends exactly `ExitEvents` of the globals to the log and leaves the globals alone |
| `Hvisor.InitVirtio` | driver/hvisor.c:41-57 | never changes `virtio_irq` or `task`; the page allocation is its first event (properties in `HvisorProperties.InitVirtioUnbound`, `InitVirtioNoPage`, `InitVirtioWithPage`) |
| `Hvisor.FinishReq` | driver/hvisor.c:60-66 | returns the hypercall's value and changes no global (its call in `HvisorProperties.IoctlDirectCalls`) |
| `Hvisor.ZoneStart` | driver/hvisor.c:97-120 | changes no global; the staging allocation comes first and its kfree last on both paths (more in `HvisorProperties.ZoneStartCopyIn`, `ZoneStartStaging`) |
| `Hvisor.ConfigCheck` | driver/hvisor.c:144-162 | changes no global; the staging allocation comes first and its kfree last (more in `HvisorProperties.ConfigCheckCopiesBack`, `ConfigCheckStaging`) |
| `Hvisor.ZoneList` | driver/hvisor.c:164-191 | changes no global; after a successful argument copy the record buffer is allocated next and freed last, `goto out` paths included (more in `HvisorProperties.ZoneListCalls`, `ZoneListStaging`, `ZoneListTrustsCount`) |
| `Hvisor.DoIoctl` | driver/hvisor.c:193-226 | no request changes `virtio_irq` (more in `HvisorProperties.IoctlInitVirtioSetsTask`, `IoctlOthersKeepState`, `IoctlFollowsTable`) |
| `Hvisor.HypercallFor` | driver/hvisor.c:196-225 | a request has no hypercall exactly when its code has no case label: an unlisted code, or CLEAR_INJECT_IRQ without LOONGARCH64 |
| `Hvisor.BindIrq` | driver/hvisor.c:326 | only `virtio_irq` changes, to the bound number |
| `Hvisor.ExitEvents` | driver/hvisor.c:379-384 | exit only releases: every event is a free_irq, a ClearPageReserved or a free_pages (order and ledger effect in `HvisorProperties.ExitReleases`) |
| `Hvisor.Shr` | driver/hvisor.c:237 | `x >> n` never exceeds `x` (exact bounds in `HvisorProperties.ShrBounds`) |
| `Hvisor.PfnOf` | driver/hvisor.c:234-237 | the frame number of an address never exceeds the address |
| `Hvisor.MapRequest` | driver/hvisor.c:237-238 | the mapping starts at `vm_start` and is `vm_end - vm_start` long in both branches |
| `Hvisor.IrqDecision` | driver/hvisor.c:276-297 | IRQ_HANDLED exactly for the driver's device; a signal is sent exactly when it is the driver's device and `task` is set, and then to `task` |
| `HvisorProperties.InitVirtioUnbound` | driver/hvisor.c:43-46 | an unbound line returns the positive ENOTTY, makes no hypercall, zeroes nothing, leaves globals and ledger unchanged |
| `HvisorProperties.InitVirtioNoPage` | driver/hvisor.c:47-49 | a failed page allocation returns -ENOMEM with no hypercall and an unchanged ledger, and sets the bridge to NULL |
| `HvisorProperties.InitVirtioWithPage` | driver/hvisor.c:47-56 | a page obtained becomes the bridge and is zeroed over the bridge size before the only hypercall, INIT_VIRTIO(page, 0); the result is 0 exactly when the call's is, the call's value otherwise; the page stays allocated and reserved either way |
| `HvisorProperties.IoctlInitVirtioSetsTask` | driver/hvisor.c:197-200 | INIT_VIRTIO sets `task` to the caller whatever the helper returned; its globals are the helper's (a NULL bridge after a failed allocation included) with only `task` replaced, and `virtio_irq` never changes |
| `HvisorProperties.IoctlOthersKeepState` | driver/hvisor.c:201-224 | every other request leaves all three globals and the ledger unchanged and allocates no page |
| `HvisorProperties.IoctlFollowsTable` | driver/hvisor.c:196-225 | a request makes at most one hypercall, only the one the routing table names; a code with no case returns -EINVAL and does nothing |
| `HvisorProperties.RoutingIsInjective` | driver/hvisor.c:196-225 | no two request codes are routed to the same hypercall |
| `HvisorProperties.IoctlDirectCalls` | driver/hvisor.c:204-220 | ZONE_SHUTDOWN calls with (arg, 0), FINISH_REQ and (LoongArch only) CLEAR_INJECT_IRQ with (0, 0), each returning the call's result; without LoongArch, CLEAR_INJECT_IRQ is -EINVAL |
| `HvisorProperties.ZoneStartStaging` | driver/hvisor.c:99-119 | the staging buffer is the only allocation, is freed exactly once on both paths, and the ledger and globals end as they began |
| `HvisorProperties.ZoneStartCopyIn` | driver/hvisor.c:105-119 | the configuration is copied into the staging buffer; a failed copy returns -EFAULT with no hypercall, otherwise START_ZONE(buffer, sizeof(zone_config_t)) and its result; in order: allocation, copy in (no call before it), the call as third event, kfree last |
| `HvisorProperties.ConfigCheckCopiesBack` | driver/hvisor.c:147-161 | one CONFIG_CHECK call on the staging word, which is copied back (8 bytes) whether or not the call succeeded and never zeroed; -EFAULT if the copy fails, the call's result otherwise; in order: allocation, the call, the copy back, kfree |
| `HvisorProperties.ConfigCheckStaging` | driver/hvisor.c:147-161 | the staging word is freed exactly once on both paths; ledger and globals unchanged |
| `HvisorProperties.ZoneListCalls` | driver/hvisor.c:170-187 | failed argument copy: -EFAULT and nothing else; otherwise a zeroed buffer of `cnt` records goes to ZONE_LIST(buffer, cnt); a negative result copies nothing back, a result `ret >= 0` copies back exactly `ret` records, and `ret` is returned even when that copy fails; in order: argument copy, allocation, zero fill, the call, the copy back (when `ret >= 0`), kfree last |
| `HvisorProperties.ZoneListStaging` | driver/hvisor.c:175-190 | the record buffer is allocated only after a successful argument copy and freed exactly once on every path, `goto out` included; ledger and globals unchanged |
| `HvisorProperties.ZoneListTrustsCount` | driver/hvisor.c:178-187 | the copy back stays within the staging buffer exactly when the hypervisor's count does not exceed `cnt` |
| `HvisorProperties.ShrBounds` | driver/hvisor.c:237 | `x >> n` is the index of the 2^n-block that holds `x` |
| `HvisorProperties.ShrAligned` | driver/hvisor.c:237 | a multiple of 2^n shifted right by `n` gives its quotient |
| `HvisorProperties.MapFrame` | driver/hvisor.c:232-252 | offset 0 maps the frame holding the bridge, exactly the bridge's frame number when it is page-aligned; any other offset is itself the frame number, unchecked |
| `HvisorProperties.ExitLedger` | driver/hvisor.c:381-384 | exit frees the bridge page and clears its reserved mark when there is one, and leaves the ledger unchanged otherwise |
| `HvisorProperties.ExitReleases` | driver/hvisor.c:379-384 | exit frees the interrupt exactly when it is bound, and the bridge page only when there is one, its reserved mark cleared just before the page is freed, both as the last events; nothing else in the ledger changes |
| `HvisorRuns.LoadedInv` | driver/hvisor.c:35-37 | the freshly loaded module satisfies the lifetime invariant |
| `HvisorRuns.AfterRequest` | driver/hvisor.c:193-226 | a request extends the ledger and the list of pages obtained by exactly its own events |
| `HvisorRuns.StepRequestInv` | driver/hvisor.c:201-224 | a request other than INIT_VIRTIO preserves the invariant |
| `HvisorRuns.HoldsWithNewPage` | driver/hvisor.c:47-53 | adding a newly obtained, reserved page as the bridge preserves the invariant |
| `HvisorRuns.StepInitUnboundInv` | driver/hvisor.c:43-46 | INIT_VIRTIO on an unbound line preserves the invariant |
| `HvisorRuns.StepInitNoPageInv` | driver/hvisor.c:47-49 | INIT_VIRTIO whose page allocation fails preserves the invariant |
| `HvisorRuns.StepInitWithPageInv` | driver/hvisor.c:47-56 | INIT_VIRTIO that obtains a page preserves the invariant, whatever the hypercall returned |
| `HvisorRuns.StepInitInv` | driver/hvisor.c:41-57 | INIT_VIRTIO preserves the invariant on all three paths |
| `HvisorRuns.StepInv` | driver/hvisor.c:193-226 | binding the line and every request preserve the invariant |
| `HvisorRuns.RunInv` | driver/hvisor.c:35-226 | between requests: no heap buffer is live, every page obtained so far is allocated and reserved, and the bridge, when set, is one of them |
| `HvisorRuns.RunTask` | driver/hvisor.c:197-200 | `task` is the caller of the last INIT_VIRTIO, successful or not; it is replaced, never cleared |
| `HvisorRuns.RunIrq` | driver/hvisor.c:326 | only module init changes `virtio_irq`; no request does |
| `HvisorRuns.InterruptSignalsLastInitCaller` | driver/hvisor.c:285-297 | an interrupt from the device signals exactly the process that issued the last INIT_VIRTIO, nobody if none did |
| `HvisorRuns.ExitFrom` | driver/hvisor.c:379-384 | from any state with the invariant, exit frees the current bridge page and nothing else |
| `HvisorRuns.ExitAfterRun` | driver/hvisor.c:379-384 | after any run, exit leaves no heap buffer and frees only the current bridge page; earlier bridge pages stay allocated and reserved |
| `HvisorRuns.InitStep` | driver/hvisor.c:47-56 | an accepted INIT_VIRTIO on a bound line makes its page the bridge, its caller the task, and adds the page to those obtained |
| `HvisorRuns.TwoInits` | driver/hvisor.c:47-56 | after two accepted INIT_VIRTIO calls both pages are held and the bridge is the second |
| `HvisorRuns.ExitKeepsOlderPage` | driver/hvisor.c:381-384 | with two pages obtained and the second as bridge, exit leaves the first allocated and reserved |
| `HvisorRuns.SecondInitLeaksFirstPage` | driver/hvisor.c:47-56 | after a second INIT_VIRTIO and exit, the first bridge page is still allocated and reserved |
| `HvisorRuns.EndToEnd` | driver/hvisor.c:193-226 | bind, INIT_VIRTIO and ZONE_START make exactly the hypercalls INIT_VIRTIO(page, 0) and START_ZONE(buffer, 256) and leave no heap buffer; the interrupt then signals the registered process, whose FINISH_REQ reaches the hypervisor as (0, 0) |

## Left out

- `hvisor_call`, the user copy routines, the allocators, `remap_pfn_range`, `send_sig_info` and `get_current` are opaque kernel or firmware calls. Their answers are inputs: a copy succeeds or fails as a whole, and a trap's result is the value as stored in the driver's `int`.
- The device-tree and clock discovery of `hvisor_init` (driver/hvisor.c:303-370) is platform glue. This covers the `of_*` lookups, `request_irq` failure with its unwinding, the `clk_prepare_enable` loop and `misc_register`. Only the binding of `virtio_irq` after a successful `request_irq` is kept.
- The freeing of `clks` and `misc_deregister` in `hvisor_exit` (driver/hvisor.c:376-378, 385) do not touch the three globals or the buffers of the protocol.
- The interrupt handler and the ioctls run concurrently in the kernel, with no locking. The model is sequential.
- `flush_cache` and `is_reserved_memory` (driver/hvisor.c:68-95, 122-142) are commented out.
- Logging (`pr_err`, `pr_info`) is left out because it has no effect on state or results.
- The `LINUX_VERSION_CODE` choice between the two signal structures is left out because both branches make the same call. The contents of the `siginfo` also go unmodelled.
- The contents of `zone_config_t`, `zone_info_t` and `struct virtio_bridge` are opaque; only their sizes, as `Config` fields, appear.
- The numeric values of the ioctl request codes and of the hypercall identifiers come from headers that are not part of this model. They are abstract names.
- What the kernel does with a NULL staging buffer is not modelled. This covers passing it to a copy or to the hypervisor, and the `memset` of a NULL record buffer in `hvisor_zone_list` (driver/hvisor.c:176). The model records each event with address 0 and carries on, and `kfree(NULL)` frees nothing.
- `HvisorDriver.Driver.Map`: at offset 0 with a NULL bridge, the model maps frame 0. The code maps `virt_to_phys(NULL) >> PAGE_SHIFT`, whose value depends on the kernel's address layout.
- `HvisorProperties.ZoneListStaging`: does not model the overflow of `cnt * sizeof(zone_info_t)` in a machine word; sizes are unbounded integers.
- `HvisorDriver.Driver`: the allocation ledger is not a field of the class. It is `Replay` over the event log the class keeps. The class invariant `Valid` states the lifetime invariant over it, which `HvisorRuns` proves step by step.
- `HvisorDriver.Driver.Map`: does not model the page tables `remap_pfn_range` builds, or the protection bits it is given.
