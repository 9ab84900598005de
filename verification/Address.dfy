/** Guest addresses, page geometry, big-endian byte memory and the physical
    address map that the memory controller provides. */
module Address {
  import opened Bits
  import opened Wrappers

  /** TLB_INVALID_TAG: not page-aligned, so no page ever has it. */
  const INVALID_TAG: u32 := 0xFFFF_FFFF

  function PageNumber(va: u32): nat {
    va / 4096
  }

  function PageOffset(va: u32): nat {
    va % 4096
  }

  function PageTag(va: u32): u32 {
    va - va % 4096
  }

  /** Position of a page in every TLB array (4096 sets). */
  function SetIndex(va: u32): (i: nat)
    ensures i < 4096
  {
    va / 4096 % 4096
  }

  /** guest_va + n on 32 bits. */
  function Advance(va: u32, n: nat): u32 {
    (va + n) % 0x1_0000_0000
  }

  lemma Geometry(va: u32)
    ensures PageTag(PageTag(va)) == PageTag(va) != INVALID_TAG
    ensures SetIndex(PageTag(va)) == SetIndex(va)
    ensures PageNumber(PageTag(va)) == PageNumber(va)
    ensures PageOffset(PageTag(va)) == 0
    ensures va == PageTag(va) + PageOffset(va)
  {
  }

  lemma SamePage(va: u32, va': u32)
    ensures PageTag(va) == PageTag(va') <==> PageNumber(va) == PageNumber(va')
  {
  }

  // ---------- Physical address map ----------

  datatype RegionKind = Ram | Rom | Mmio

  /** A region of the physical address map: whole pages, backed either by
      host memory starting at `host` or by a device. */
  datatype Region = Region(kind: RegionKind, firstPage: nat, lastPage: nat, host: nat)

  /** MemCtrlBase::find_range: the first region that contains the page. */
  function FindRange(regions: seq<Region>, page: nat): (r: Option<Region>)
    ensures r.Some? ==> r.value in regions && r.value.firstPage <= page <= r.value.lastPage
    ensures r.None? ==> forall g :: g in regions ==> !(g.firstPage <= page <= g.lastPage)
  {
    if regions == [] then None
    else if regions[0].firstPage <= page <= regions[0].lastPage then Some(regions[0])
    else FindRange(regions[1..], page)
  }

  /** Where regions overlap the first one in the map decides. */
  lemma {:induction false} FirstRegion(regions: seq<Region>, page: nat, i: nat)
    requires i < |regions| && regions[i].firstPage <= page <= regions[i].lastPage
    requires forall j: nat :: j < i ==> !(regions[j].firstPage <= page <= regions[j].lastPage)
    ensures FindRange(regions, page) == Some(regions[i])
    decreases i
  {
    if i > 0 {
      assert !(regions[0].firstPage <= page <= regions[0].lastPage);
      FirstRegion(regions[1..], page, i - 1);
    }
  }

  /** Every host-backed region lies, page-aligned, inside host memory. */
  predicate ValidRegions(regions: seq<Region>, size: nat) {
    forall r :: r in regions && r.kind != Mmio ==>
      r.firstPage <= r.lastPage && r.host % 4096 == 0 &&
      r.host + (r.lastPage - r.firstPage + 1) * 4096 <= size
  }

  /** Host address of a physical address inside a host-backed region. */
  function HostAddress(r: Region, pa: u32): int {
    r.host + pa - r.firstPage * 4096
  }

  lemma HostAddressInRange(regions: seq<Region>, size: nat, r: Region, pa: u32)
    requires ValidRegions(regions, size) && r in regions && r.kind != Mmio
    requires r.firstPage <= PageNumber(pa) <= r.lastPage
    ensures 0 <= HostAddress(r, pa) < size
    ensures HostAddress(r, pa) % 4096 == PageOffset(pa)
    ensures HostAddress(r, pa) - PageOffset(pa) + 4096 <= size
  {
    assert HostAddress(r, pa) == (r.host / 4096 + PageNumber(pa) - r.firstPage) * 4096 + PageOffset(pa);
  }

  // ---------- Host memory ----------

  type Memory = seq<byte>

  function ReadWord(mem: Memory, a: nat): u32
    requires a + 4 <= |mem|
  {
    mem[a] as int * 0x100_0000 + mem[a + 1] as int * 0x1_0000 + mem[a + 2] as int * 0x100 + mem[a + 3] as int
  }
}
