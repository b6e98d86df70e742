/** The device that maps four pages into user space: which mappings it admits, and which page a fault in one
    of them gets. */
module PageDevice {
  import opened Kernel

  const PAGE_SIZE: nat := 4096
  const PAGES: int := 4

  /** The low byte of vm_flags, which holds all the flags that matter here. */
  type Flags = bv8

  const VM_READ: Flags := 1
  const VM_WRITE: Flags := 2
  const VM_SHARED: Flags := 8

  // --- translation -----------------------------------------------------------------------------------

  /** `x << PAGE_SHIFT` on a 64-bit unsigned long. */
  function ShiftPage(x: nat): nat { (x * PAGE_SIZE) % WORD }

  /** The cascade of range tests on a byte offset, one of which starts too low; the order saves it. */
  function MyFindPage(offset: nat): Option<nat> {
    if offset >= 0 && offset < PAGE_SIZE then Some(0)
    else if offset >= PAGE_SIZE && offset < 2 * PAGE_SIZE then Some(1)
    else if offset >= PAGE_SIZE && offset < 3 * PAGE_SIZE then Some(2)
    else if offset >= PAGE_SIZE && offset < 4 * PAGE_SIZE then Some(3)
    else None
  }

  /** The cascade divides: page number offset / PAGE_SIZE when there is such a page, none otherwise. */
  lemma FindPageDivides(offset: nat)
    ensures MyFindPage(offset) == if offset / 4096 < 4 then Some(offset / 4096) else None
  {
  }

  /** The page that a fault at file page `pgoff` gets; None is SIGBUS. */
  function FaultPage(pgoff: nat): Option<nat> { MyFindPage(ShiftPage(pgoff)) }

  /** The shift is harmless for a page number below 2^52: exactly the pages 0 to 3 exist. Beyond that the
      fault finds a page exactly when the low 52 bits of the number are below 4. */
  lemma FaultPageIs(pgoff: nat)
    ensures var low := pgoff % (WORD / PAGE_SIZE);
            FaultPage(pgoff) == if low < PAGES then Some(low) else None
    ensures pgoff < WORD / PAGE_SIZE ==> FaultPage(pgoff) == if pgoff < PAGES then Some(pgoff) else None
  {
    var q, low := pgoff / (WORD / PAGE_SIZE), pgoff % (WORD / PAGE_SIZE);
    assert pgoff * PAGE_SIZE == q * WORD + low * PAGE_SIZE;
    assert 0 <= low * PAGE_SIZE < WORD;
    ModuloIs(q, low * PAGE_SIZE);
    FindPageDivides(low * PAGE_SIZE);
  }

  lemma ModuloIs(q: nat, x: nat)
    requires x < WORD
    ensures (q * WORD + x) % WORD == x
  {
  }

  // --- admission ----------------------------------------------------------------------------------------

  /** A mapping as the kernel presents it; page-aligned, not empty, inside the address space. */
  datatype Area = Area(start: nat, end: nat, pgoff: nat, flags: Flags)

  predicate KernelArea(v: Area) {
    v.start < v.end <= WORD && v.start % PAGE_SIZE == 0 && v.end % PAGE_SIZE == 0 && v.pgoff < WORD
  }

  function Pages(v: Area): int
  {
    (v.end - v.start) / PAGE_SIZE
  }

  /** The file page at page `i` of a mapping. */
  function PgoffAt(v: Area, i: nat): nat { v.pgoff + i }

  predicate Readable(flags: Flags) { flags & VM_READ != 0 }
  predicate Writable(flags: Flags) { flags & VM_WRITE != 0 }
  predicate Shared(flags: Flags) { flags & VM_SHARED != 0 }

  /** What `my_mmap` answers. */
  function MmapCode(v: Area): int {
    if v.end - v.start > 2 * PAGE_SIZE then -EINVAL
    else if v.pgoff > 4 then -EINVAL
    else if v.pgoff < 2 && v.flags & (VM_WRITE | VM_READ) != VM_READ then -EINVAL
    else if 2 <= v.pgoff < 4 && v.flags & (VM_WRITE | VM_READ) != VM_READ | VM_WRITE then -EINVAL
    else 0
  }

  lemma FlagTests(flags: Flags)
    ensures VM_READ == 1 && VM_WRITE == 2 && VM_SHARED == 8
    ensures flags & (VM_WRITE | VM_READ) == VM_READ <==> Readable(flags) && !Writable(flags)
    ensures flags & (VM_WRITE | VM_READ) == VM_READ | VM_WRITE <==> Readable(flags) && Writable(flags)
  {
  }

  /** Admitted are mappings of one or two pages: read-only from the first two file pages, read-write from the
      next two, and anything from the page after the last. */
  lemma AdmittedIff(v: Area)
    requires KernelArea(v)
    ensures MmapCode(v) == 0 <==>
            Pages(v) <= 2 &&
            (if v.pgoff < 2 then Readable(v.flags) && !Writable(v.flags)
             else if v.pgoff < 4 then Readable(v.flags) && Writable(v.flags)
             else v.pgoff == 4)
    ensures MmapCode(v) == 0 || MmapCode(v) == -EINVAL
  {
    FlagTests(v.flags);
  }

  /** For every admitted mapping and every address in it: the fault gives page
      vm_pgoff + (addr - vm_start) / PAGE_SIZE when that is below 4 and SIGBUS otherwise, and a
      mapping that may be written never gives one of the first two. */
  lemma AdmittedTranslation(v: Area, addr: nat)
    requires KernelArea(v) && MmapCode(v) == 0 && v.start <= addr < v.end
    ensures var pgoff := v.pgoff + (addr - v.start) / PAGE_SIZE;
            && pgoff <= 5
            && FaultPage(pgoff) == (if pgoff < PAGES then Some(pgoff) else None)
            && (Writable(v.flags) && FaultPage(pgoff).Some? ==> FaultPage(pgoff).value >= 2)
  {
    AdmittedIff(v);
    var i := (addr - v.start) / PAGE_SIZE;
    assert i < 2;
    FaultPageIs(v.pgoff + i);
  }

  /** A mapping from the page after the last is admitted with any rights, but every access to it fails. */
  lemma MappingBehindTheLastPage(v: Area, addr: nat)
    requires KernelArea(v) && v.pgoff == 4 && Pages(v) <= 2 && v.start <= addr < v.end
    ensures MmapCode(v) == 0
    ensures FaultPage(v.pgoff + (addr - v.start) / PAGE_SIZE).None?
  {
    AdmittedIff(v);
    AdmittedTranslation(v, addr);
  }

  type Page = p: seq<char> | |p| == PAGE_SIZE witness seq(PAGE_SIZE, _ => '\0')
}
