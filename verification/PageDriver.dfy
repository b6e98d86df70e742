/** The driver's own code for the four pages: init, mmap, fault and exit, on its page pointers and their reference
    counts. Together with what the kernel keeps, the mappings and the page tables, its state is that of
    PageRuns, and each method is one of its steps. */
module PageDriver {
  import opened Kernel
  import opened PageDevice
  import opened PageRuns

  /** A mapping under construction; `ops` says whether the driver has attached its fault handler. */
  class VmArea {
    const area: Area
    var ops: bool

    constructor (area: Area)
      ensures this.area == area && !ops
    {
      this.area := area;
      ops := false;
    }
  }

  /** The text init puts at the start of each page. */
  const TEXTS: seq<string> := ["1st page", "2nd page", "3rd page", "4th page"]

  /** A page that begins with a terminated text and is otherwise as it was allocated. */
  predicate Labelled(page: Page, raw: Page, text: string)
    requires |text| < PAGE_SIZE
  {
    page[..|text|] == text && page[|text|] == '\0' && page[|text| + 1..] == raw[|text| + 1..]
  }

  /** Without a mapping there is no page-table entry. */
  lemma NoUsers(s: State, pages: seq<Page>)
    requires Inv(s, pages) && s.areas == map[] && !s.exited
    ensures forall i | 0 <= i < PAGES :: s.refs[i] == 1
  {
    forall p: nat | p < PAGES ensures s.refs[p] == 1 {
      assert RefsOk(s, p);
      forall k ensures k !in Users(s, p) { assert SlotOk(s, k); }
      assert Users(s, p) == {};
    }
  }

  class Driver {
    var mem: seq<Page>          // the contents of mem1 to mem4
    const refs: array<int>      // their reference counts

    constructor ()
      ensures fresh(refs) && refs.Length == PAGES && mem == []
      ensures forall i | 0 <= i < PAGES :: refs[i] == 0
    {
      refs := new int[PAGES](_ => 0);
      mem := [];
    }

    ghost function Abs(areas: map<Slot, Mapped>, ptes: map<Slot, Pte>, exited: bool): State
      reads this, refs
    {
      State(mem, refs[..], areas, ptes, exited)
    }

    /** `raw` is what the four pages contain when they are allocated. Afterwards the state is that in which every run
        begins, and no two pages are alike. */
    method MyInit(raw: seq<Page>)
      requires |raw| == PAGES == refs.Length
      modifies this, refs
      ensures Abs(map[], map[], false) == Init(mem)
      ensures |mem| == PAGES && forall i | 0 <= i < PAGES :: Labelled(mem[i], raw[i], TEXTS[i])
      ensures forall i, j | 0 <= i < j < PAGES :: mem[i] != mem[j]
    {
      refs[0] := 1;
      refs[1] := 1;
      refs[2] := 1;
      refs[3] := 1;
      mem := [Strcpy(raw[0], "1st page"), Strcpy(raw[1], "2nd page"),
              Strcpy(raw[2], "3rd page"), Strcpy(raw[3], "4th page")];
      assert forall i | 0 <= i < PAGES :: Labelled(mem[i], raw[i], TEXTS[i]);
      assert forall i | 0 <= i < PAGES :: mem[i][0] == TEXTS[i][0];
    }

    method MyMmap(v: VmArea) returns (code: int)
      requires KernelArea(v.area)
      modifies v
      ensures code == MmapCode(v.area) && v.ops == (old(v.ops) || code == 0)
      ensures code == 0 || code == -EINVAL
      ensures code == 0 <==>
              && v.area.end - v.area.start <= 2 * PAGE_SIZE && v.area.pgoff <= 4
              && (v.area.pgoff < 2 ==> Readable(v.area.flags) && !Writable(v.area.flags))
              && (2 <= v.area.pgoff < 4 ==> Readable(v.area.flags) && Writable(v.area.flags))
    {
      AdmittedIff(v.area);
      var pgoff := v.area.pgoff;
      if v.area.end - v.area.start > 2 * PAGE_SIZE {
        return -EINVAL;
      }
      if pgoff > 4 {
        return -EINVAL;
      }
      if pgoff < 2 {
        if v.area.flags & (VM_WRITE | VM_READ) != VM_READ {
          return -EINVAL;
        }
      }
      if pgoff >= 2 && pgoff < 4 {
        if v.area.flags & (VM_WRITE | VM_READ) != VM_READ | VM_WRITE {
          return -EINVAL;
        }
      }
      v.ops := true;
      code := 0;
    }

    /** A fault at page slot `k`. Some(page) is success and has taken a reference, and the kernel installs the
        page; None is SIGBUS and has changed nothing. Either is the step of the machine. */
    method MyFault(pgoff: nat, ghost k: Slot, ghost areas: map<Slot, Mapped>, ghost ptes: map<Slot, Pte>)
      returns (page: Option<nat>)
      requires refs.Length == PAGES == |mem| && k in areas && areas[k].pgoff == pgoff
      modifies refs
      ensures page == FaultPage(pgoff)
      ensures Abs(areas, if page.Some? then ptes[k := Ours(page.value)] else ptes, false) ==
              Fault(old(Abs(areas, ptes, false)), k)
    {
      var offset := ShiftPage(pgoff);
      page := MyFindPage(offset);
      if page.None? {
        return;
      }
      refs[page.value] := refs[page.value] + 1;
    }

    /** Unloading after any run: it is the machine's last step, and no reference to any page is left. */
    method MyExit(ghost ptes: map<Slot, Pte>, ghost pages: seq<Page>)
      requires refs.Length == PAGES && Inv(Abs(map[], ptes, false), pages)
      requires Enabled(Abs(map[], ptes, false), Exit)
      modifies refs
      ensures Abs(map[], ptes, true) == Next(old(Abs(map[], ptes, false)), Exit)
      ensures forall i | 0 <= i < PAGES :: refs[i] == 0
    {
      NoUsers(Abs(map[], ptes, false), pages);
      refs[0] := refs[0] - 1;
      refs[1] := refs[1] - 1;
      refs[2] := refs[2] - 1;
      refs[3] := refs[3] - 1;
    }
  }
}
