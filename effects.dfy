/** What the hvisor driver does to the world outside its own globals.

    Every operation of the driver is described by the sequence of EVENTS it
    causes: allocations and frees, page reservation marks, zero fills, copies
    across the user boundary and trapped calls into the hypervisor.  The
    allocation ledger (live heap buffers, live pages, reserved pages) is not
    kept separately: it is what replaying those events yields.

    Kernel pointers are represented by the physical address they translate to,
    so `__pa` and `virt_to_phys` are the identity here; NULL is 0.
 */
module Effects {

  /** The value range of a C `int`, the type the driver stores results in. */
  type Int32 = x: int | -0x8000_0000 <= x <= 0x7fff_ffff

  /** Hypercall identifiers (the HVISOR_HC_* codes of hvisor.h). */
  datatype HypercallCode =
    | HcInitVirtio
    | HcFinishReq
    | HcStartZone
    | HcShutdownZone
    | HcZoneList
    | HcConfigCheck
    | HcClearInjectIrq

  /** One `hvisor_call(code, arg0, arg1)`. */
  datatype Hypercall = Hypercall(code: HypercallCode, arg0: nat, arg1: nat)

  /** The kernel side of a user copy: a heap staging buffer, or a local
      variable on the kernel stack (the `args` of `hvisor_zone_list`). */
  datatype Loc = Staging(addr: nat) | LocalArgs

  datatype Event =
    | GetFreePage(page: nat)          // __get_free_pages(GFP_KERNEL, 0) returned page (0: failed)
    | FreePage(page: nat)             // free_pages(page, 0)
    | SetReserved(page: nat)          // SetPageReserved
    | ClearReserved(page: nat)        // ClearPageReserved
    | Kmalloc(addr: nat, size: nat)   // kmalloc(size) returned addr (0: failed)
    | Kfree(addr: nat)                // kfree(addr)
    | Memset(addr: nat, len: nat)     // memset(addr, 0, len)
    | CopyFromUser(into: Loc, user: nat, len: nat, ok: bool)
    | CopyToUser(user: nat, from: Loc, len: nat, ok: bool)
    | Call(hc: Hypercall)
    | FreeIrq(irq: int)

  /** The allocation ledger. */
  datatype Ledger = Ledger(heap: multiset<nat>, pages: multiset<nat>, reserved: set<nat>)

  const EmptyLedger := Ledger(multiset{}, multiset{}, {})

  /** How one event changes the ledger. kfree(NULL) and free_pages(0, 0) do
      nothing, and a failed allocation adds nothing. */
  function LedgerStep(l: Ledger, e: Event): Ledger
  {
    match e
    case GetFreePage(p) => if p == 0 then l else l.(pages := l.pages + multiset{p})
    case FreePage(p) => if p == 0 then l else l.(pages := l.pages - multiset{p})
    case SetReserved(p) => l.(reserved := l.reserved + {p})
    case ClearReserved(p) => l.(reserved := l.reserved - {p})
    case Kmalloc(p, _) => if p == 0 then l else l.(heap := l.heap + multiset{p})
    case Kfree(p) => if p == 0 then l else l.(heap := l.heap - multiset{p})
    case _ => l
  }

  /** The ledger after the events `es`, starting from `l`. */
  function Replay(l: Ledger, es: seq<Event>): Ledger
    decreases |es|
  {
    if es == [] then l else LedgerStep(Replay(l, es[..|es| - 1]), es[|es| - 1])
  }

  lemma {:induction false} ReplayConcat(l: Ledger, a: seq<Event>, b: seq<Event>)
    ensures Replay(l, a + b) == Replay(Replay(l, a), b)
    decreases |b|
  {
    if b == [] {
      assert a + b == a;
    } else {
      var b' := b[..|b| - 1];
      assert (a + b)[..|a + b| - 1] == a + b';
      assert (a + b)[|a + b| - 1] == b[|b| - 1];
      ReplayConcat(l, a, b');
    }
  }

  lemma ReplayOne(l: Ledger, e: Event)
    ensures Replay(l, [e]) == LedgerStep(l, e)
  {
    assert [e][..0] == [];
  }

  // Unfolding Replay over the short event sequences of one operation.

  lemma Replay1(l: Ledger, es: seq<Event>)
    requires |es| == 1
    ensures Replay(l, es) == LedgerStep(l, es[0])
  {
    assert es[..0] == [];
  }

  lemma Replay2(l: Ledger, es: seq<Event>)
    requires |es| == 2
    ensures Replay(l, es) == LedgerStep(LedgerStep(l, es[0]), es[1])
  {
    Replay1(l, es[..1]);
  }

  lemma Replay3(l: Ledger, es: seq<Event>)
    requires |es| == 3
    ensures Replay(l, es) == LedgerStep(LedgerStep(LedgerStep(l, es[0]), es[1]), es[2])
  {
    Replay2(l, es[..2]);
  }

  lemma Replay4(l: Ledger, es: seq<Event>)
    requires |es| == 4
    ensures Replay(l, es) == LedgerStep(LedgerStep(LedgerStep(LedgerStep(l, es[0]), es[1]), es[2]), es[3])
  {
    Replay3(l, es[..3]);
  }

  lemma Replay5(l: Ledger, es: seq<Event>)
    requires |es| == 5
    ensures Replay(l, es)
         == LedgerStep(LedgerStep(LedgerStep(LedgerStep(LedgerStep(l, es[0]), es[1]), es[2]), es[3]), es[4])
  {
    Replay4(l, es[..4]);
  }

  lemma Replay6(l: Ledger, es: seq<Event>)
    requires |es| == 6
    ensures Replay(l, es)
         == LedgerStep(LedgerStep(LedgerStep(LedgerStep(LedgerStep(LedgerStep(l, es[0]), es[1]), es[2]), es[3]), es[4]), es[5])
  {
    Replay5(l, es[..5]);
  }

  /** The elements `f` picks out of each event, in order. */
  function Project<T>(es: seq<Event>, f: Event -> seq<T>): seq<T>
    decreases |es|
  {
    if es == [] then [] else f(es[0]) + Project(es[1..], f)
  }

  lemma {:induction false} ProjectConcat<T>(a: seq<Event>, b: seq<Event>, f: Event -> seq<T>)
    ensures Project(a + b, f) == Project(a, f) + Project(b, f)
    decreases |a|
  {
    if a == [] {
      assert a + b == b;
    } else {
      assert (a + b)[0] == a[0];
      assert (a + b)[1..] == a[1..] + b;
      ProjectConcat(a[1..], b, f);
    }
  }

  // Unfolding Project over the short event sequences of one operation.

  lemma Project1<T>(es: seq<Event>, f: Event -> seq<T>)
    requires |es| == 1
    ensures Project(es, f) == f(es[0])
  {
    assert es[1..] == [];
  }

  lemma Project2<T>(es: seq<Event>, f: Event -> seq<T>)
    requires |es| == 2
    ensures Project(es, f) == f(es[0]) + f(es[1])
  {
    Project1(es[1..], f);
  }

  lemma Project3<T>(es: seq<Event>, f: Event -> seq<T>)
    requires |es| == 3
    ensures Project(es, f) == f(es[0]) + f(es[1]) + f(es[2])
  {
    Project2(es[1..], f);
  }

  lemma Project4<T>(es: seq<Event>, f: Event -> seq<T>)
    requires |es| == 4
    ensures Project(es, f) == f(es[0]) + f(es[1]) + f(es[2]) + f(es[3])
  {
    Project3(es[1..], f);
  }

  lemma Project5<T>(es: seq<Event>, f: Event -> seq<T>)
    requires |es| == 5
    ensures Project(es, f) == f(es[0]) + f(es[1]) + f(es[2]) + f(es[3]) + f(es[4])
  {
    Project4(es[1..], f);
  }

  lemma Project6<T>(es: seq<Event>, f: Event -> seq<T>)
    requires |es| == 6
    ensures Project(es, f) == f(es[0]) + f(es[1]) + f(es[2]) + f(es[3]) + f(es[4]) + f(es[5])
  {
    Project5(es[1..], f);
  }

  function CallOf(e: Event): seq<Hypercall> { if e.Call? then [e.hc] else [] }
  function AllocOf(e: Event): seq<nat> { if e.Kmalloc? && e.addr != 0 then [e.addr] else [] }
  function FreeOf(e: Event): seq<nat> { if e.Kfree? && e.addr != 0 then [e.addr] else [] }
  function PageOf(e: Event): seq<nat> { if e.GetFreePage? && e.page != 0 then [e.page] else [] }
  function CopyOutOf(e: Event): seq<Event> { if e.CopyToUser? then [e] else [] }
  function ZeroFillOf(e: Event): seq<(nat, nat)> { if e.Memset? then [(e.addr, e.len)] else [] }

  /** The hypercalls made, in order. */
  function Calls(es: seq<Event>): seq<Hypercall> { Project(es, CallOf) }
  /** The heap buffers successfully allocated. */
  function Allocs(es: seq<Event>): multiset<nat> { multiset(Project(es, AllocOf)) }
  /** The non-NULL heap buffers freed, with multiplicity. */
  function Frees(es: seq<Event>): multiset<nat> { multiset(Project(es, FreeOf)) }
  /** The pages successfully allocated, in order. */
  function PagesAllocated(es: seq<Event>): seq<nat> { Project(es, PageOf) }
  /** The attempted copies to user space, in order. */
  function CopiesOut(es: seq<Event>): seq<Event> { Project(es, CopyOutOf) }
  /** The ranges (address, length) that were zero-filled, in order. */
  function ZeroFills(es: seq<Event>): seq<(nat, nat)> { Project(es, ZeroFillOf) }

  // ---------------------------------------------------------------------
  // Buffers bracketed by their own allocation and free

  /** Events that touch no part of the ledger. */
  predicate Neutral(e: Event)
  {
    e.Memset? || e.CopyFromUser? || e.CopyToUser? || e.Call? || e.FreeIrq?
  }

  predicate AllNeutral(es: seq<Event>)
  {
    forall i :: 0 <= i < |es| ==> Neutral(es[i])
  }

  lemma {:induction false} ReplayNeutral(l: Ledger, es: seq<Event>)
    requires AllNeutral(es)
    ensures Replay(l, es) == l
    decreases |es|
  {
    if es != [] {
      ReplayNeutral(l, es[..|es| - 1]);
    }
  }

  lemma {:induction false} NeutralUnaccounted(es: seq<Event>)
    requires AllNeutral(es)
    ensures Project(es, AllocOf) == [] && Project(es, FreeOf) == [] && Project(es, PageOf) == []
    decreases |es|
  {
    if es != [] {
      NeutralUnaccounted(es[1..]);
    }
  }

  /** The ledger half of `Bracketed`. */
  lemma BracketedLedger(l: Ledger, pre: seq<Event>, p: nat, n: nat, mid: seq<Event>)
    requires AllNeutral(pre) && AllNeutral(mid)
    ensures Replay(l, pre + [Kmalloc(p, n)] + mid + [Kfree(p)]) == l
  {
    var m := pre + [Kmalloc(p, n)];
    ReplayConcat(l, pre, [Kmalloc(p, n)]);
    ReplayNeutral(l, pre);
    ReplayOne(l, Kmalloc(p, n));
    var l1 := LedgerStep(l, Kmalloc(p, n));
    ReplayConcat(l, m, mid);
    ReplayNeutral(l1, mid);
    ReplayConcat(l, m + mid, [Kfree(p)]);
    ReplayOne(l1, Kfree(p));
    if p != 0 {
      assert l1.heap + multiset{} - multiset{p} == l.heap;
    }
  }

  /** A projection of an allocate-then-free bracket, piece by piece. */
  lemma ProjectBracket<T>(pre: seq<Event>, p: nat, n: nat, mid: seq<Event>, f: Event -> seq<T>)
    ensures Project(pre + [Kmalloc(p, n)] + mid + [Kfree(p)], f)
         == Project(pre, f) + f(Kmalloc(p, n)) + Project(mid, f) + f(Kfree(p))
  {
    var m := pre + [Kmalloc(p, n)];
    ProjectConcat(pre, [Kmalloc(p, n)], f);
    ProjectConcat(m, mid, f);
    ProjectConcat(m + mid, [Kfree(p)], f);
    Project1([Kmalloc(p, n)], f);
    Project1([Kfree(p)], f);
  }

  /** The accounting half of `Bracketed`. */
  lemma BracketedAccounts(pre: seq<Event>, p: nat, n: nat, mid: seq<Event>)
    requires AllNeutral(pre) && AllNeutral(mid)
    ensures var es := pre + [Kmalloc(p, n)] + mid + [Kfree(p)];
      && Allocs(es) == Frees(es) == (if p != 0 then multiset{p} else multiset{})
      && PagesAllocated(es) == []
  {
    NeutralUnaccounted(pre);
    NeutralUnaccounted(mid);
    ProjectBracket(pre, p, n, mid, AllocOf);
    ProjectBracket(pre, p, n, mid, FreeOf);
    ProjectBracket(pre, p, n, mid, PageOf);
    var one: seq<nat> := if p != 0 then [p] else [];
    assert AllocOf(Kmalloc(p, n)) == one && AllocOf(Kfree(p)) == [];
    assert FreeOf(Kmalloc(p, n)) == [] && FreeOf(Kfree(p)) == one;
    assert PageOf(Kmalloc(p, n)) == [] && PageOf(Kfree(p)) == [];
    var none: seq<nat> := [];
    assert none + one + none + none == one;
    assert none + none + none + one == one;
    assert none + none + none + none == none;
  }

  /** A buffer allocated and then freed by the same operation, with only
      neutral events around it, leaves the ledger as it was: it is the one
      buffer allocated, and it is freed exactly once. */
  lemma Bracketed(l: Ledger, pre: seq<Event>, p: nat, n: nat, mid: seq<Event>)
    requires AllNeutral(pre) && AllNeutral(mid)
    ensures var es := pre + [Kmalloc(p, n)] + mid + [Kfree(p)];
      && Replay(l, es) == l
      && Allocs(es) == Frees(es) == (if p != 0 then multiset{p} else multiset{})
      && PagesAllocated(es) == []
  {
    BracketedLedger(l, pre, p, n, mid);
    BracketedAccounts(pre, p, n, mid);
  }
}
