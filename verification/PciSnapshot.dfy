/** The module that lists all PCI devices when it is loaded and compares when it is unloaded: the enumeration
    passes a reference from device to device, the list holds one reference for each of its entries. */
module PciSnapshot {
  import opened Kernel

  type DevId = int

  datatype Device = Device(domain: int, bus: int, devfn: nat)

  function PciSlot(devfn: nat): nat { (devfn / 8) % 32 }
  function PciFunc(devfn: nat): nat { devfn % 8 }

  /** Comparing slot and function is comparing the 8-bit devfn. */
  lemma SlotAndFuncAreDevfn(a: nat, b: nat)
    requires a < 256 && b < 256
    ensures PciSlot(a) == PciSlot(b) && PciFunc(a) == PciFunc(b) <==> a == b
  {
  }

  /** The four-part comparison of the driver. */
  predicate SameAddress(x: Device, y: Device) {
    && x.domain == y.domain && x.bus == y.bus
    && PciSlot(x.devfn) == PciSlot(y.devfn) && PciFunc(x.devfn) == PciFunc(y.devfn)
  }

  predicate Distinct(s: seq<DevId>) {
    forall i, j | 0 <= i < j < |s| :: s[i] != s[j]
  }

  function Reverse(s: seq<DevId>): seq<DevId> {
    if s == [] then [] else [s[|s| - 1]] + Reverse(s[..|s| - 1])
  }

  lemma {:induction false} ReverseHas(s: seq<DevId>)
    ensures multiset(Reverse(s)) == multiset(s)
  {
    if s != [] {
      ReverseHas(s[..|s| - 1]);
      assert s == s[..|s| - 1] + [s[|s| - 1]];
    }
  }

  /** The list has the last device first. */
  lemma {:induction false} ReverseIs(s: seq<DevId>)
    ensures |Reverse(s)| == |s| && forall i | 0 <= i < |s| :: Reverse(s)[i] == s[|s| - 1 - i]
  {
    if s != [] {
      ReverseIs(s[..|s| - 1]);
    }
  }

  lemma ReverseNext(s: seq<DevId>, i: nat)
    requires i < |s|
    ensures Reverse(s[..i + 1]) == [s[i]] + Reverse(s[..i])
  {
    assert s[..i + 1][..i] == s[..i];
  }

  /** What every device id stands for; the objects stay as long as they are referenced. */
  type Info = DevId -> Device

  predicate Match(info: Info, d: DevId, e: DevId) { SameAddress(info(d), info(e)) }

  predicate Matches(info: Info, d: DevId, s: seq<DevId>) {
    exists i | 0 <= i < |s| :: Match(info, d, s[i])
  }

  /** How many references the entries of the list hold to `d`. */
  function Entries(list: seq<DevId>, d: DevId): nat {
    if list == [] then 0 else (if list[0] == d then 1 else 0) + Entries(list[1..], d)
  }

  /** The reference counts of all devices. */
  type Refs = DevId -> int

  function Added(refs: Refs, p: DevId, k: int): Refs { d => if d == p then refs(d) + k else refs(d) }

  /** Against `before`, one more reference for each entry of the list and one for the device where the
      enumeration is. */
  ghost predicate Holds(before: Refs, refs: Refs, list: seq<DevId>, pdev: Option<DevId>) {
    forall d :: refs(d) == before(d) + Entries(list, d) + (if pdev == Some(d) then 1 else 0)
  }

  ghost predicate Same(before: Refs, refs: Refs) { forall d :: refs(d) == before(d) }

  /** The devices of `present` whose address is not that of any entry of the list, in order. */
  function PluggedIn(info: Info, present: seq<DevId>, list: seq<DevId>): seq<DevId> {
    if present == [] then []
    else
      var last := present[|present| - 1];
      PluggedIn(info, present[..|present| - 1], list) + (if Matches(info, last, list) then [] else [last])
  }

  /** The entries of the list whose address no present device has. */
  function Removed(info: Info, present: seq<DevId>, list: seq<DevId>): seq<DevId> {
    if list == [] then []
    else
      var last := list[|list| - 1];
      Removed(info, present, list[..|list| - 1]) + (if Matches(info, last, present) then [] else [last])
  }

  /** Where the first device with the address of `p` is; the length when there is none. */
  function FirstMatch(info: Info, present: seq<DevId>, p: DevId): (n: nat)
    ensures n <= |present|
    ensures forall i | 0 <= i < n :: !Match(info, p, present[i])
    ensures n < |present| ==> Match(info, p, present[n])
  {
    if present == [] || Match(info, p, present[0]) then 0 else 1 + FirstMatch(info, present[1..], p)
  }

  /** The devices up to which, themselves included, none has the address of `p`. */
  function BeforeMatch(info: Info, present: seq<DevId>, p: DevId): seq<DevId> {
    if present == [] then []
    else
      BeforeMatch(info, present[..|present| - 1], p) +
      (if Matches(info, p, present) then [] else [present[|present| - 1]])
  }

  lemma {:induction false} BeforeMatchIs(info: Info, present: seq<DevId>, p: DevId, i: nat)
    requires i <= |present|
    ensures var n := FirstMatch(info, present, p);
            BeforeMatch(info, present[..i], p) == present[..if i <= n then i else n]
  {
    if i > 0 {
      var n := FirstMatch(info, present, p);
      BeforeMatchIs(info, present, p, i - 1);
      assert present[..i][..i - 1] == present[..i - 1];
      MatchesIff(info, present, p, i);
    }
  }

  lemma OneMore(info: Info, present: seq<DevId>, p: DevId, i: nat)
    requires i < |present|
    ensures Matches(info, p, present[..i + 1]) <==> Matches(info, p, present[..i]) || Match(info, p, present[i])
    ensures BeforeMatch(info, present[..i + 1], p) ==
            BeforeMatch(info, present[..i], p) + (if Matches(info, p, present[..i + 1]) then [] else [present[i]])
  {
    MatchesIff(info, present, p, i);
    MatchesIff(info, present, p, i + 1);
    assert present[..i + 1][..i] == present[..i];
  }

  lemma MatchesIff(info: Info, present: seq<DevId>, p: DevId, i: nat)
    requires i <= |present|
    ensures Matches(info, p, present[..i]) <==> FirstMatch(info, present, p) < i
  {
    var n := FirstMatch(info, present, p);
    assert forall k | 0 <= k < i :: present[..i][k] == present[k];
    if n < i {
      assert Match(info, p, present[..i][n]);
    }
  }

  /** The devices of which the loop that should report removed devices prints vendor and device number: for each
      entry, the present devices that come before the first one with its address. */
  function RemovedReport(info: Info, present: seq<DevId>, list: seq<DevId>): seq<DevId> {
    if list == [] then []
    else
      RemovedReport(info, present, list[..|list| - 1]) + present[..FirstMatch(info, present, list[|list| - 1])]
  }

  class Module {
    const info: Info
    var present: seq<DevId>          // the devices in the system, in the order of enumeration
    var refs: Refs
    var pdevList: seq<DevId>

    constructor (info: Info, present: seq<DevId>, refs: Refs)
      ensures this.info == info && this.present == present && this.refs == refs && pdevList == []
    {
      this.info, this.present, this.refs, pdevList := info, present, refs, [];
    }

    /** `pci_get_device`: the device after the `i`-th step of the enumeration; the reference to the one
        before goes, the one to the new one comes. */
    method PciGetDevice(from: Option<DevId>, ghost i: nat, ghost before: Refs, ghost list: seq<DevId>)
      returns (next: Option<DevId>)
      requires Distinct(present) && i <= |present|
      requires from == if i == 0 then None else Some(present[i - 1])
      requires Holds(before, refs, list, from)
      modifies this`refs
      ensures next == if i < |present| then Some(present[i]) else None
      ensures Holds(before, refs, list, next)
    {
      var k := 0;
      if from.Some? {
        while k < |present| && present[k] != from.value
          invariant 0 <= k < i
        {
          k := k + 1;
        }
        k := k + 1;
        refs := Added(refs, from.value, -1);
      }
      if k < |present| {
        next := Some(present[k]);
        refs := Added(refs, present[k], 1);
      } else {
        next := None;
      }
    }

    /** `memory` is how many list entries can be allocated, `registered` what pci_register_driver returns. When it
        fails, either way, nobody gives back the references: they are leaked unless there are no devices. */
    method MyInit(memory: nat, registered: int) returns (retval: int)
      requires Distinct(present)
      modifies this`refs, this`pdevList
      ensures |present| <= memory ==>
                retval == registered && pdevList == Reverse(present) && Holds(old(refs), refs, pdevList, None)
      ensures retval != 0 ==> (Same(old(refs), refs) <==> present == [])
      ensures |present| > memory ==>
                && retval == -EIO && pdevList == Reverse(present[..memory])
                && Holds(old(refs), refs, pdevList, Some(present[memory]))
    {
      pdevList := [];
      ghost var before := refs;
      var i := 0;
      var pdev := PciGetDevice(None, 0, before, []);
      while pdev.Some?
        invariant i <= |present| && i <= memory
        invariant pdev == if i < |present| then Some(present[i]) else None
        invariant pdevList == Reverse(present[..i])
        invariant Holds(before, refs, pdevList, pdev)
        decreases |present| - i
      {
        if i == memory {
          assert refs(pdev.value) > before(pdev.value);
          return -EIO;
        }
        refs := Added(refs, pdev.value, 1);
        ReverseNext(present, i);
        pdevList := [pdev.value] + pdevList;
        pdev := PciGetDevice(pdev, i + 1, before, pdevList);
        i := i + 1;
      }
      assert present[..i] == present;
      if present != [] {
        assert pdevList != [] && Entries(pdevList, pdevList[0]) >= 1;
        assert refs(pdevList[0]) > before(pdevList[0]);
      }
      retval := registered;
    }

    /** One pass over the list, to the end whatever it finds. */
    method FoundInList(d: DevId) returns (found: bool)
      ensures found == Matches(info, d, pdevList)
    {
      found := false;
      var j := 0;
      while j < |pdevList|
        invariant j <= |pdevList|
        invariant found == exists i | 0 <= i < j :: Match(info, d, pdevList[i])
      {
        if Match(info, d, pdevList[j]) {
          found := true;
        }
        j := j + 1;
      }
    }

    /** The first loop of exit: the devices that were plugged in since the list was made. */
    method ReportPlugged() returns (plugged: seq<DevId>)
      requires Distinct(present)
      modifies this`refs
      ensures plugged == PluggedIn(info, present, pdevList) && Same(old(refs), refs)
    {
      plugged := [];
      ghost var before := refs;
      ghost var i := 0;
      var pdev := PciGetDevice(None, 0, before, []);
      while pdev.Some?
        invariant i <= |present|
        invariant pdev == if i < |present| then Some(present[i]) else None
        invariant plugged == PluggedIn(info, present[..i], pdevList)
        invariant Holds(before, refs, [], pdev)
        decreases |present| - i
      {
        var found := FoundInList(pdev.value);
        if !found {
          plugged := plugged + [pdev.value];
        }
        assert present[..i + 1][..i] == present[..i];
        pdev := PciGetDevice(pdev, i + 1, before, []);
        i := i + 1;
      }
      assert present[..i] == present;
    }

    /** One round of the second loop: the whole enumeration for one entry of the list. */
    method ReportBeforeMatch(p: DevId) returns (report: seq<DevId>)
      requires Distinct(present)
      modifies this`refs
      ensures report == present[..FirstMatch(info, present, p)] && Same(old(refs), refs)
    {
      report := [];
      var found := false;
      ghost var before := refs;
      ghost var i := 0;
      var pdev := PciGetDevice(None, 0, before, []);
      while pdev.Some?
        invariant i <= |present|
        invariant pdev == if i < |present| then Some(present[i]) else None
        invariant found == Matches(info, p, present[..i])
        invariant report == BeforeMatch(info, present[..i], p)
        invariant Holds(before, refs, [], pdev)
        decreases |present| - i
      {
        OneMore(info, present, p, i);
        if Match(info, p, pdev.value) {
          found := true;
        }
        if !found {
          report := report + [pdev.value];
        }
        pdev := PciGetDevice(pdev, i + 1, before, []);
        i := i + 1;
      }
      assert present[..i] == present;
      BeforeMatchIs(info, present, p, i);
    }

    method ReportRemoved() returns (report: seq<DevId>)
      requires Distinct(present)
      modifies this`refs
      ensures report == RemovedReport(info, present, pdevList) && Same(old(refs), refs)
    {
      report := [];
      var j := 0;
      while j < |pdevList|
        invariant j <= |pdevList|
        invariant report == RemovedReport(info, present, pdevList[..j]) && Same(old(refs), refs)
      {
        var part := ReportBeforeMatch(pdevList[j]);
        report := report + part;
        assert pdevList[..j + 1][..j] == pdevList[..j];
        j := j + 1;
      }
      assert pdevList[..j] == pdevList;
    }

    method MyExit() returns (plugged: seq<DevId>, report: seq<DevId>)
      requires Distinct(present)
      modifies this`refs, this`pdevList
      ensures plugged == PluggedIn(info, present, old(pdevList))
      ensures report == RemovedReport(info, present, old(pdevList))
      ensures pdevList == [] && Holds(refs, old(refs), old(pdevList), None)
    {
      plugged := ReportPlugged();
      report := ReportRemoved();
      ghost var list := pdevList;
      while pdevList != []
        invariant forall d :: refs(d) - Entries(pdevList, d) == old(refs)(d) - Entries(list, d)
        decreases |pdevList|
      {
        refs := Added(refs, pdevList[0], -1);
        pdevList := pdevList[1..];
      }
    }

    /** Load, let devices come and go, unload: every reference is back where it was, and the report of
        plugged-in devices is against the devices of the time of loading. */
    method LoadHotplugUnload(memory: nat, registered: int, later: seq<DevId>)
      returns (retval: int, plugged: seq<DevId>)
      requires Distinct(present) && Distinct(later)
      modifies this
      ensures retval == 0 ==>
                && Same(old(refs), refs) && pdevList == []
                && plugged == PluggedIn(info, later, Reverse(old(present)))
    {
      plugged := [];
      retval := MyInit(memory, registered);
      if retval == 0 {
        present := later;
        var report;
        plugged, report := MyExit();
      }
    }
  }

  // --- what the reports mean ----------------------------------------------------------------------------

  /** The plugged-in report has exactly the present devices whose address is new ... */
  lemma {:induction false} PluggedInIsNew(info: Info, present: seq<DevId>, list: seq<DevId>, d: DevId)
    ensures d in PluggedIn(info, present, list) <==> d in present && !Matches(info, d, list)
    decreases |present|
  {
    if present != [] {
      var last := |present| - 1;
      PluggedInIsNew(info, present[..last], list, d);
      assert present == present[..last] + [present[last]];
    }
  }

  /** ... and those before any point of the enumeration first: it keeps the order. */
  lemma {:induction false} PluggedInKeepsOrder(info: Info, a: seq<DevId>, b: seq<DevId>, list: seq<DevId>)
    ensures PluggedIn(info, a + b, list) == PluggedIn(info, a, list) + PluggedIn(info, b, list)
    decreases |b|
  {
    if b == [] {
      assert a + b == a;
    } else {
      var last := |b| - 1;
      PluggedInKeepsOrder(info, a, b[..last], list);
      assert (a + b)[..|a + b| - 1] == a + b[..last];
    }
  }

  /** With 8-bit devfns: a device is reported exactly when it is present and no device at load time had
      its domain, bus and devfn. */
  lemma PluggedInAfterLoad(info: Info, atLoad: seq<DevId>, later: seq<DevId>, d: DevId)
    requires forall e :: info(e).devfn < 256
    ensures d in PluggedIn(info, later, Reverse(atLoad)) <==> d in later && forall e | e in atLoad :: info(e) != info(d)
  {
    PluggedInIsNew(info, later, Reverse(atLoad), d);
    ReverseHas(atLoad);
    var list := Reverse(atLoad);
    assert forall e :: e in list <==> e in multiset(list);
    assert forall e :: e in atLoad <==> e in multiset(atLoad);
    forall e
      ensures Match(info, d, e) <==> info(e) == info(d)
    {
      SlotAndFuncAreDevfn(info(d).devfn, info(e).devfn);
    }
    if Matches(info, d, list) {
      var i :| 0 <= i < |list| && Match(info, d, list[i]);
      assert list[i] in atLoad;
    }
    if e :| e in atLoad && info(e) == info(d) {
      assert e in list;
      var i :| 0 <= i < |list| && list[i] == e;
      assert Match(info, d, list[i]);
    }
  }

  /** The other report is the reports for the entries one after another ... */
  lemma RemovedReportGrows(info: Info, present: seq<DevId>, list: seq<DevId>, p: DevId)
    ensures RemovedReport(info, present, list + [p]) ==
            RemovedReport(info, present, list) + RemovedReport(info, present, [p])
  {
    assert (list + [p])[..|list|] == list;
    assert [p][..0] == [];
    var part := present[..FirstMatch(info, present, p)];
    assert [] + part == part;
  }

  /** ... and that for one entry is the present devices before the first one with its address. */
  lemma RemovedReportForOne(info: Info, present: seq<DevId>, p: DevId)
    ensures var report := RemovedReport(info, present, [p]);
            && report <= present
            && (forall i | 0 <= i < |report| :: info(present[i]) != info(p))
            && (|report| < |present| ==> SameAddress(info(p), info(present[|report|])))
  {
    assert [p][..0] == [];
    assert [] + present[..FirstMatch(info, present, p)] == present[..FirstMatch(info, present, p)];
    var n := FirstMatch(info, present, p);
    forall i | 0 <= i < n
      ensures info(present[i]) != info(p)
    {
      assert !Match(info, p, present[i]);
    }
  }

  /** The other report names only devices that are present, never one that was removed ... */
  lemma {:induction false} RemovedReportNamesPresent(info: Info, present: seq<DevId>, list: seq<DevId>, d: DevId)
    ensures d in RemovedReport(info, present, list) ==> d in present
    ensures d in Removed(info, present, list) ==> d in list && !Matches(info, d, present)
    decreases |list|
  {
    if list != [] {
      RemovedReportNamesPresent(info, present, list[..|list| - 1], d);
    }
  }

  /** Every entry of the list is found at once: it has the address of the first device enumerated. */
  predicate AllFirst(info: Info, present: seq<DevId>, list: seq<DevId>) {
    list == [] || (present != [] && forall i | 0 <= i < |list| :: Match(info, list[i], present[0]))
  }

  lemma AllFirstStep(info: Info, present: seq<DevId>, list: seq<DevId>, p: DevId)
    ensures AllFirst(info, present, list + [p]) <==>
            AllFirst(info, present, list) && present != [] && Match(info, p, present[0])
  {
    assert (list + [p])[|list|] == p;
    assert forall i | 0 <= i < |list| :: (list + [p])[i] == list[i];
  }

  lemma FoundAtOnceIff(info: Info, present: seq<DevId>, p: DevId)
    ensures FirstMatch(info, present, p) == 0 && Matches(info, p, present) <==>
            present != [] && Match(info, p, present[0])
  {
  }

  lemma {:induction false} BothEmptyIffAllFirst(info: Info, present: seq<DevId>, list: seq<DevId>)
    ensures RemovedReport(info, present, list) == [] && Removed(info, present, list) == [] <==>
            AllFirst(info, present, list)
    decreases |list|
  {
    if list != [] {
      var rest, p := list[..|list| - 1], list[|list| - 1];
      BothEmptyIffAllFirst(info, present, rest);
      AllFirstStep(info, present, rest, p);
      FoundAtOnceIff(info, present, p);
      assert list == rest + [p];
    }
  }

  lemma OwnMatch(info: Info, present: seq<DevId>, d: DevId)
    ensures d in present ==> Matches(info, d, present)
  {
    if d in present {
      var i :| 0 <= i < |present| && present[i] == d;
      assert Match(info, d, present[i]);
    }
  }

  /** ... so it equals the removed devices exactly when there are none and nothing is printed. */
  lemma RemovedReportIsRightIff(info: Info, present: seq<DevId>, list: seq<DevId>)
    ensures RemovedReport(info, present, list) == Removed(info, present, list) <==> AllFirst(info, present, list)
  {
    var report, removed := RemovedReport(info, present, list), Removed(info, present, list);
    BothEmptyIffAllFirst(info, present, list);
    forall d | d in removed
      ensures d !in report
    {
      RemovedReportNamesPresent(info, present, list, d);
      OwnMatch(info, present, d);
    }
    assert removed != [] ==> removed[0] in removed;
  }

  /** One device at load time and another in its place now: the loop prints the new one, not the one
      that was removed. */
  lemma RemovedReportExample(info: Info)
    requires info(1) == Device(0, 0, 8) && info(2) == Device(0, 1, 8)
    ensures RemovedReport(info, [2], [1]) == [2] && Removed(info, [2], [1]) == [1]
  {
    assert !Match(info, 1, 2);
    assert FirstMatch(info, [2], 1) == 1 by { assert [2][1..] == []; }
    assert RemovedReport(info, [2], [1][..0]) == [];
    assert Removed(info, [2], [1][..0]) == [];
  }
}
