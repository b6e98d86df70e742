/** The four-page device under every run of mmap, loads, stores, unmaps and exit. The kernel's part - access
    rights, the page tables, copy on write for private mappings - is the environment: per page of
    address space there is what the mapping says about it, and perhaps a page-table entry. */
module PageRuns {
  import opened Kernel
  import opened PageDevice

  /** One page of one address space. */
  datatype Slot = Slot(space: nat, vpn: nat)

  datatype Mapped = Mapped(pgoff: nat, flags: Flags)

  /** A page-table entry: one of the driver's pages, or a private copy. */
  datatype Pte = Ours(page: nat) | Copy(bytes: Page)

  datatype State = State(pages: seq<Page>, refs: seq<int>, areas: map<Slot, Mapped>, ptes: map<Slot, Pte>, exited: bool)

  datatype Action =
    | Mmap(space: nat, v: Area)
    | Load(k: Slot)
    | Store(k: Slot, at: nat, c: char)
    | Unmap(ks: set<Slot>)
    | Exit

  function Init(pages: seq<Page>): State { State(pages, [1, 1, 1, 1], map[], map[], false) }

  function SlotAt(space: nat, v: Area, i: nat): Slot { Slot(space, v.start / PAGE_SIZE + i) }

  function SlotsOf(space: nat, v: Area): set<Slot> {
    set i: nat | i < Pages(v) :: SlotAt(space, v, i)
  }

  function MappingOf(space: nat, v: Area): map<Slot, Mapped>
    requires KernelArea(v)
  {
    map k | k in SlotsOf(space, v) :: Mapped(PgoffAt(v, k.vpn - v.start / PAGE_SIZE), v.flags)
  }

  /** The entries that hold a reference to page `p`. */
  function Users(s: State, p: nat): set<Slot> { set k | k in s.ptes && s.ptes[k] == Ours(p) }

  predicate Sized(s: State) { |s.pages| == PAGES == |s.refs| }

  /** The module cannot be unloaded while a mapping holds the device open; the kernel maps only where
      nothing is mapped, and lets through only accesses that the mapping allows. */
  predicate Allowed(s: State, a: Action) {
    match a
    case Mmap(space, v) => KernelArea(v) && SlotsOf(space, v) !! s.areas.Keys
    case Load(k) => k in s.areas && Readable(s.areas[k].flags)
    case Store(k, at, _) => k in s.areas && Writable(s.areas[k].flags) && at < PAGE_SIZE
    case Unmap(_) => true
    case Exit => s.areas == map[]
  }

  /** Besides what is allowed this only says what makes sense of the state; see AllowedIsEnabled. */
  predicate Enabled(s: State, a: Action) {
    && Sized(s) && !s.exited
    && (forall k | k in s.ptes && s.ptes[k].Ours? :: s.ptes[k].page < PAGES)
    && Allowed(s, a)
  }

  /** An access that finds no entry: the driver's fault handler supplies a page and a reference to it. */
  function Fault(s: State, k: Slot): State
    requires Sized(s) && k in s.areas
  {
    match FaultPage(s.areas[k].pgoff)
    case None => s
    case Some(p) =>
      FaultPageIs(s.areas[k].pgoff);
      s.(refs := s.refs[p := s.refs[p] + 1], ptes := s.ptes[k := Ours(p)])
  }

  function Update(b: Page, at: nat, c: char): Page
    requires at < PAGE_SIZE
  {
    b[at := c]
  }

  function StoreAt(s: State, k: Slot, at: nat, c: char): State
    requires Sized(s) && k in s.areas && at < PAGE_SIZE
    requires k in s.ptes && s.ptes[k].Ours? ==> s.ptes[k].page < PAGES
  {
    if k !in s.ptes then s                                     // SIGBUS: the fault gave no page
    else
      match s.ptes[k]
      case Copy(b) => s.(ptes := s.ptes[k := Copy(Update(b, at, c))])
      case Ours(p) =>
        if Shared(s.areas[k].flags) then s.(pages := s.pages[p := Update(s.pages[p], at, c)])
        else s.(ptes := s.ptes[k := Copy(Update(s.pages[p], at, c))], refs := s.refs[p := s.refs[p] - 1])
  }

  function Next(s: State, a: Action): State
    requires Enabled(s, a)
  {
    match a
    case Mmap(space, v) => if MmapCode(v) != 0 then s else s.(areas := s.areas + MappingOf(space, v))
    case Load(k) => if k in s.ptes then s else Fault(s, k)
    case Store(k, at, c) =>
      var s1 := if k in s.ptes then s else Fault(s, k);
      FaultPageIs(s.areas[k].pgoff);
      StoreAt(s1, k, at, c)
    case Unmap(ks) =>
      State(s.pages, seq(PAGES, p requires 0 <= p < PAGES => s.refs[p] - |Users(s, p) * ks|),
            s.areas - ks, s.ptes - ks, false)
    case Exit => s.(refs := seq(PAGES, p requires 0 <= p < PAGES => s.refs[p] - 1), exited := true)
  }

  function After(pages: seq<Page>, run: seq<Action>): Option<State> {
    if run == [] then Some(Init(pages))
    else
      match After(pages, run[..|run| - 1])
      case None => None
      case Some(s) => if Enabled(s, run[|run| - 1]) then Some(Next(s, run[|run| - 1])) else None
  }

  // --- the invariant ------------------------------------------------------------------------------------

  /** What holds of one slot: rights follow the file page, and the entry follows the mapping. */
  predicate SlotOk(s: State, k: Slot) {
    && (k in s.ptes ==> k in s.areas)
    && (k in s.areas ==> s.areas[k].pgoff <= 5 && (Writable(s.areas[k].flags) ==> s.areas[k].pgoff >= 2))
    && (k in s.ptes && s.ptes[k].Ours? ==> s.ptes[k].page == s.areas[k].pgoff < PAGES)
    && (k in s.ptes && s.ptes[k].Copy? ==> s.areas[k].pgoff < PAGES &&
                                            Writable(s.areas[k].flags) && !Shared(s.areas[k].flags))
  }

  predicate RefsOk(s: State, p: nat)
    requires Sized(s) && p < PAGES
  {
    s.refs[p] == (if s.exited then 0 else 1) + |Users(s, p)|
  }

  ghost predicate Inv(s: State, pages: seq<Page>) {
    && Sized(s) && |pages| == PAGES
    && (forall k :: SlotOk(s, k))
    && (forall p: nat | p < PAGES :: RefsOk(s, p))
    && s.pages[0] == pages[0] && s.pages[1] == pages[1]
    && (s.exited ==> s.areas == map[])
  }

  lemma MmapKeepsSlots(s: State, space: nat, v: Area, k: Slot)
    requires Enabled(s, Mmap(space, v)) && SlotOk(s, k)
    ensures SlotOk(Next(s, Mmap(space, v)), k)
  {
    if MmapCode(v) == 0 && k in SlotsOf(space, v) {
      AdmittedIff(v);
      assert k !in s.areas;
    }
  }

  lemma FaultKeeps(s: State, k: Slot, pages: seq<Page>)
    requires Inv(s, pages) && k in s.areas && k !in s.ptes
    ensures Inv(Fault(s, k), pages)
  {
    FaultPageIs(s.areas[k].pgoff);
    var s1 := Fault(s, k);
    assert SlotOk(s, k);
    forall j ensures SlotOk(s1, j) { assert SlotOk(s, j); }
    forall p: nat | p < PAGES ensures RefsOk(s1, p) {
      assert RefsOk(s, p);
      assert Users(s1, p) == Users(s, p) + (if FaultPage(s.areas[k].pgoff) == Some(p) then {k} else {});
    }
  }

  lemma StoreKeeps(s: State, k: Slot, at: nat, c: char, pages: seq<Page>)
    requires Inv(s, pages) && k in s.areas && Writable(s.areas[k].flags) && at < PAGE_SIZE
    requires k in s.ptes && s.ptes[k].Ours? ==> s.ptes[k].page < PAGES
    ensures Inv(StoreAt(s, k, at, c), pages)
  {
    var s1 := StoreAt(s, k, at, c);
    assert SlotOk(s, k);
    forall j ensures SlotOk(s1, j) { assert SlotOk(s, j); }
    forall p: nat | p < PAGES ensures RefsOk(s1, p) {
      assert RefsOk(s, p);
      if k in s.ptes {
        var gone := if s.ptes[k] == Ours(p) && !Shared(s.areas[k].flags) then {k} else {};
        assert Users(s1, p) == Users(s, p) - gone;
      }
    }
  }

  lemma UnmapKeeps(s: State, ks: set<Slot>, pages: seq<Page>)
    requires Inv(s, pages) && Enabled(s, Unmap(ks))
    ensures Inv(Next(s, Unmap(ks)), pages)
  {
    var s1 := Next(s, Unmap(ks));
    forall j ensures SlotOk(s1, j) { assert SlotOk(s, j); }
    forall p: nat | p < PAGES ensures RefsOk(s1, p) {
      assert RefsOk(s, p);
      assert Users(s1, p) == Users(s, p) - (Users(s, p) * ks);
    }
  }

  lemma StepKeepsInv(s: State, a: Action, pages: seq<Page>)
    requires Inv(s, pages) && Enabled(s, a)
    ensures Inv(Next(s, a), pages)
  {
    match a {
      case Mmap(space, v) =>
        var s1 := Next(s, a);
        forall k ensures SlotOk(s1, k) { MmapKeepsSlots(s, space, v, k); }
        forall p: nat | p < PAGES ensures RefsOk(s1, p) {
          assert RefsOk(s, p) && Users(s1, p) == Users(s, p);
        }
      case Load(k) => if k !in s.ptes { FaultKeeps(s, k, pages); }
      case Store(k, at, c) =>
        var s1 := if k in s.ptes then s else Fault(s, k);
        FaultPageIs(s.areas[k].pgoff);
        if k !in s.ptes { FaultKeeps(s, k, pages); }
        StoreKeeps(s1, k, at, c, pages);
      case Unmap(ks) => UnmapKeeps(s, ks, pages);
      case Exit =>
        forall p: nat | p < PAGES ensures RefsOk(Next(s, a), p) {
          assert RefsOk(s, p) && Users(Next(s, a), p) == Users(s, p);
        }
        forall k ensures SlotOk(Next(s, a), k) { assert SlotOk(s, k); }
    }
  }

  lemma {:induction false} RunKeepsInv(pages: seq<Page>, run: seq<Action>)
    requires |pages| == PAGES && After(pages, run).Some?
    ensures Inv(After(pages, run).value, pages)
    decreases |run|
  {
    if run != [] {
      RunKeepsInv(pages, run[..|run| - 1]);
      StepKeepsInv(After(pages, run[..|run| - 1]).value, run[|run| - 1], pages);
    }
  }

  /** That rest never excludes an action: until exit everything that is allowed is possible. */
  lemma AllowedIsEnabled(pages: seq<Page>, run: seq<Action>, a: Action)
    requires |pages| == PAGES && After(pages, run).Some?
    ensures var s := After(pages, run).value;
            Enabled(s, a) <==> !s.exited && Allowed(s, a)
  {
    RunKeepsInv(pages, run);
    var s := After(pages, run).value;
    assert forall k | k in s.ptes && s.ptes[k].Ours? :: SlotOk(s, k);
  }

  // --- the theorems -----------------------------------------------------------------------------------------

  /** No run of mappings, loads, stores and unmaps changes the first two pages, and no mapping that may be
      written ever has one of them in its page table or would get one by a fault. */
  lemma FirstTwoPagesAreProtected(pages: seq<Page>, run: seq<Action>)
    requires |pages| == PAGES && After(pages, run).Some?
    ensures var s := After(pages, run).value;
            && s.pages[0] == pages[0] && s.pages[1] == pages[1]
            && (forall k | k in s.areas && Writable(s.areas[k].flags) ::
                  && FaultPage(s.areas[k].pgoff) !in {Some(0), Some(1)}
                  && (k in s.ptes ==> s.ptes[k] !in {Ours(0), Ours(1)}))
  {
    RunKeepsInv(pages, run);
    var s := After(pages, run).value;
    forall k | k in s.areas && Writable(s.areas[k].flags)
      ensures FaultPage(s.areas[k].pgoff) !in {Some(0), Some(1)}
      ensures k in s.ptes ==> s.ptes[k] !in {Ours(0), Ours(1)}
    {
      assert SlotOk(s, k);
      FaultPageIs(s.areas[k].pgoff);
    }
  }

  /** The count of a page is one, for the driver, plus one per page-table entry that leads to it; so it is not
      zero while the page is mapped, and it is zero after exit. */
  lemma ReferencesAreConserved(pages: seq<Page>, run: seq<Action>, p: nat)
    requires |pages| == PAGES && After(pages, run).Some? && p < PAGES
    ensures var s := After(pages, run).value;
            && s.refs[p] == (if s.exited then 0 else 1) + |Users(s, p)|
            && (forall k | k in s.ptes && s.ptes[k] == Ours(p) :: s.refs[p] > 1)
            && (s.exited ==> s.refs[p] == 0 && Users(s, p) == {})
  {
    RunKeepsInv(pages, run);
    var s := After(pages, run).value;
    assert RefsOk(s, p);
    forall k | k in s.ptes && s.ptes[k] == Ours(p) ensures s.refs[p] > 1 {
      assert k in Users(s, p) && SlotOk(s, k);
    }
    if s.exited {
      forall k ensures k !in Users(s, p) { assert SlotOk(s, k); }
    }
  }

  /** What a load at byte `at` of a slot sees; None is SIGBUS. */
  function Sees(s: State, k: Slot, at: nat): Option<char>
    requires Sized(s) && k in s.areas && at < PAGE_SIZE
    requires k in s.ptes && s.ptes[k].Ours? ==> s.ptes[k].page < PAGES
  {
    FaultPageIs(s.areas[k].pgoff);
    if k in s.ptes then
      match s.ptes[k]
      case Copy(b) => Some(b[at])
      case Ours(p) => Some(s.pages[p][at])
    else
      match FaultPage(s.areas[k].pgoff)
      case None => None
      case Some(p) => Some(s.pages[p][at])
  }

  /** Can a store at `k` be seen at `j`? */
  predicate Together(s: State, k: Slot, j: Slot)
    requires k in s.areas && j in s.areas
  {
    j == k ||
    (Shared(s.areas[k].flags) && s.areas[j].pgoff == s.areas[k].pgoff && (j in s.ptes ==> s.ptes[j].Ours?))
  }

  /** A fault by itself changes nothing that anybody sees. */
  lemma FaultIsUnseen(s: State, pages: seq<Page>, k: Slot, j: Slot, i: nat)
    requires Inv(s, pages) && k in s.areas && k !in s.ptes && j in s.areas && i < PAGE_SIZE
    requires SlotOk(s, j) && SlotOk(Fault(s, k), j)
    ensures Sees(Fault(s, k), j, i) == Sees(s, j, i)
    ensures Together(Fault(s, k), k, j) == Together(s, k, j)
  {
    FaultPageIs(s.areas[k].pgoff);
  }

  lemma StoreAtIsSeen(s: State, k: Slot, at: nat, c: char, j: Slot, i: nat)
    requires Sized(s) && k in s.areas && k in s.ptes && j in s.areas && i < PAGE_SIZE && at < PAGE_SIZE
    requires SlotOk(s, k) && SlotOk(s, j)
    requires SlotOk(StoreAt(s, k, at, c), j)
    ensures Sees(StoreAt(s, k, at, c), j, i) ==
            if i == at && Together(s, k, j) then Some(c) else Sees(s, j, i)
  {
    FaultPageIs(s.areas[j].pgoff);
  }

  /** A store is seen by exactly those slots that map the same page without a copy of their own if the
      mapping that stores is shared, and by its own slot alone if it is private; every other byte that
      anybody sees stays as it was. A store behind the last page is seen by nobody. */
  lemma StoreIsSeen(pages: seq<Page>, run: seq<Action>, k: Slot, at: nat, c: char, j: Slot, i: nat)
    requires |pages| == PAGES && After(pages, run).Some? && Enabled(After(pages, run).value, Store(k, at, c))
    requires j in After(pages, run).value.areas && i < PAGE_SIZE
    ensures var s := After(pages, run).value;
            var s1 := Next(s, Store(k, at, c));
            && Sized(s1) && s1.areas == s.areas && SlotOk(s1, j)
            && Sees(s1, j, i) ==
               if i == at && s.areas[k].pgoff < PAGES && Together(s, k, j) then Some(c) else Sees(s, j, i)
  {
    RunKeepsInv(pages, run);
    var s := After(pages, run).value;
    StepKeepsInv(s, Store(k, at, c), pages);
    var s1 := Next(s, Store(k, at, c));
    assert SlotOk(s, k) && SlotOk(s, j) && SlotOk(s1, j);
    if k in s.ptes {
      StoreAtIsSeen(s, k, at, c, j, i);
    } else if s.areas[k].pgoff >= PAGES {
      FaultPageIs(s.areas[k].pgoff);
      assert s1 == s;
    } else {
      FaultKeeps(s, k, pages);
      FaultPageIs(s.areas[k].pgoff);
      assert SlotOk(Fault(s, k), j) && SlotOk(Fault(s, k), k);
      FaultIsUnseen(s, pages, k, j, i);
      StoreAtIsSeen(Fault(s, k), k, at, c, j, i);
    }
  }

  // --- what each step is for whoever looks -------------------------------------------------------------------

  /** The part of the pages in one address space that an area covers. */
  predicate Covers(space: nat, v: Area, k: Slot) {
    k.space == space && v.start <= k.vpn * PAGE_SIZE < v.end
  }

  lemma SlotsAreCovered(space: nat, v: Area, k: Slot)
    requires KernelArea(v)
    ensures k in SlotsOf(space, v) <==> Covers(space, v, k)
  {
    assert v.start == v.start / PAGE_SIZE * PAGE_SIZE && v.end == v.end / PAGE_SIZE * PAGE_SIZE;
    if Covers(space, v, k) {
      var i := k.vpn - v.start / PAGE_SIZE;
      assert 0 <= i < Pages(v) && SlotAt(space, v, i) == k;
    }
  }

  /** The page number of an address of an area, counted from its start. */
  lemma PageOfAddress(v: Area, addr: nat)
    requires KernelArea(v) && v.start <= addr < v.end
    ensures addr / PAGE_SIZE - v.start / PAGE_SIZE == (addr - v.start) / PAGE_SIZE
    ensures v.start <= addr / PAGE_SIZE * PAGE_SIZE < v.end
  {
    assert v.start == v.start / PAGE_SIZE * PAGE_SIZE && v.end == v.end / PAGE_SIZE * PAGE_SIZE;
  }

  /** An admitted mmap maps exactly the pages of its area, with its rights, and leaves everything else alone; one
      that is refused changes nothing. */
  lemma MmapAddsItsPages(s: State, space: nat, v: Area, k: Slot)
    requires Enabled(s, Mmap(space, v))
    ensures var t := Next(s, Mmap(space, v));
            && t.pages == s.pages && t.refs == s.refs && t.ptes == s.ptes && t.exited == s.exited
            && (MmapCode(v) != 0 ==> t.areas == s.areas)
            && (MmapCode(v) == 0 ==>
                  && (k in t.areas <==> k in s.areas || Covers(space, v, k))
                  && (k in s.areas ==> t.areas[k] == s.areas[k])
                  && (Covers(space, v, k) ==> t.areas[k].flags == v.flags))
  {
    SlotsAreCovered(space, v, k);
  }

  /** After any run, whoever looks at an address of a mapping that is admitted sees the byte of page
      vm_pgoff + (addr - vm_start) / PAGE_SIZE when that is below 4, and gets SIGBUS otherwise. */
  lemma MmapIsSeen(pages: seq<Page>, run: seq<Action>, space: nat, v: Area, addr: nat)
    requires |pages| == PAGES && After(pages, run).Some? && Enabled(After(pages, run).value, Mmap(space, v))
    requires MmapCode(v) == 0 && v.start <= addr < v.end
    ensures var s := After(pages, run).value;
            var t := Next(s, Mmap(space, v));
            var k := Slot(space, addr / PAGE_SIZE);
            var p := v.pgoff + (addr - v.start) / PAGE_SIZE;
            && k in t.areas && k !in t.ptes && Sized(t)
            && Sees(t, k, addr % PAGE_SIZE) == if p < 4 then Some(s.pages[p][addr % PAGE_SIZE]) else None
  {
    RunKeepsInv(pages, run);
    var s := After(pages, run).value;
    var k := Slot(space, addr / PAGE_SIZE);
    PageOfAddress(v, addr);
    SlotsAreCovered(space, v, k);
    assert k !in s.areas && SlotOk(s, k);
    AdmittedTranslation(v, addr);
  }

  /** A load changes nothing that anybody sees, and afterwards the page looked at, if there is one, is installed. */
  lemma LoadIsUnseen(pages: seq<Page>, run: seq<Action>, k: Slot, j: Slot, i: nat)
    requires |pages| == PAGES && After(pages, run).Some? && Enabled(After(pages, run).value, Load(k))
    requires j in After(pages, run).value.areas && i < PAGE_SIZE
    ensures var s := After(pages, run).value;
            var t := Next(s, Load(k));
            && t.pages == s.pages && t.areas == s.areas && Sized(t) && SlotOk(s, j) && SlotOk(t, j)
            && Sees(t, j, i) == Sees(s, j, i)
            && (k in t.ptes <==> s.areas[k].pgoff < PAGES)
  {
    RunKeepsInv(pages, run);
    var s := After(pages, run).value;
    StepKeepsInv(s, Load(k), pages);
    assert SlotOk(s, j) && SlotOk(s, k) && SlotOk(Next(s, Load(k)), j);
    FaultPageIs(s.areas[k].pgoff);
    if k !in s.ptes {
      FaultIsUnseen(s, pages, k, j, i);
    }
  }

  /** An unmap takes exactly the pages it is called for, and nobody else sees a change. */
  lemma UnmapTakesItsPages(pages: seq<Page>, run: seq<Action>, ks: set<Slot>, j: Slot, i: nat)
    requires |pages| == PAGES && After(pages, run).Some? && Enabled(After(pages, run).value, Unmap(ks))
    requires i < PAGE_SIZE
    ensures var s := After(pages, run).value;
            var t := Next(s, Unmap(ks));
            && t.pages == s.pages && Sized(t)
            && (j in t.areas <==> j in s.areas && j !in ks)
            && (j in t.ptes ==> j in t.areas)
            && (j in t.areas ==>
                  SlotOk(s, j) && SlotOk(t, j) && t.areas[j] == s.areas[j] && Sees(t, j, i) == Sees(s, j, i))
  {
    RunKeepsInv(pages, run);
    var s := After(pages, run).value;
    StepKeepsInv(s, Unmap(ks), pages);
    assert SlotOk(s, j) && SlotOk(Next(s, Unmap(ks)), j);
  }

  /** The last step ends all that the module does, and leaves the bytes alone. */
  lemma ExitIsLast(s: State, a: Action)
    requires Enabled(s, Exit)
    ensures var t := Next(s, Exit);
            t.pages == s.pages && t.areas == map[] && t.exited && !Enabled(t, a)
  {
  }
}
