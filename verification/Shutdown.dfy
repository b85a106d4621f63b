/** The end of `shutdown_locked`: with the workers joined and public calls
    excluded, every handle in the table is released and the table emptied. */
module Shutdown {
  import opened Collections
  import opened Pages
  import opened Budgets
  import opened Protocol
  import opened ProtocolInvariant
  import opened ProtocolOps
  import opened ProtocolSteps

  /** No thread is inside the runtime. */
  predicate Quiescent(s: State) {
    s.locals == map[]
  }

  /** One round of the teardown loop: release every non-null handle of the
      page, a resident buffer and a cached extent range alike, then erase it. */
  function TeardownPage(s: State, id: PageId): State
    requires id in s.table
  {
    var p := s.table[id];
    s.(host := FreeBuffer(s.host, p.host),
       ram := if p.host.Some? then Refund(s.ram, p.size) else s.ram,
       dev := FreeBuffer(s.dev, p.vram),
       vram := if p.vram.Some? then Refund(s.vram, p.size) else s.vram,
       ext := if p.offset.Some? then Disown(s.ext, p.offset.value, Extents(p.size, s.pageSize)) else s.ext,
       nvme := if p.offset.Some? then Refund(s.nvme, p.size) else s.nvme,
       table := s.table - {id})
  }

  /** With no thread about, a page is in nobody's hands and holds exactly what
      its entry names. */
  lemma AtRest(s: State, id: PageId)
    requires Structure(s) && Quiescent(s) && id in s.table
    ensures s.table[id].flight.None? && Carrier(s, s.table[id]).None?
    ensures var p := s.table[id];
      LiveVram(p, Carrier(s, p)) == p.vram && LiveHost(p, Carrier(s, p)) == p.host && LiveRange(p, Carrier(s, p)) == p.offset
  {
    hide Structure, Holds, OwnsRange, Authoritative, TargetData;
    StructureAt(s, id, 0);
  }

  lemma BufferFreed(b: map<Handle, Buffer>, h: Option<Handle>, id: PageId, t: Tid)
    requires Holds(b, OfPage(id), h)
    ensures BuffersFramed(b, FreeBuffer(b, h), id, t)
    ensures Holds(FreeBuffer(b, h), OfPage(id), None)
    ensures Holds(b, OfThread(t), None) ==> Holds(FreeBuffer(b, h), OfThread(t), None)
  {
    if h.Some? { BufferRemoved(b, h.value, OfPage(id), id, t); }
  }

  lemma RangeGone(s: State, r: Option<nat>, n: nat, id: PageId)
    requires OwnsRange(s.ext, id, r, n)
    ensures var ext := if r.Some? then Disown(s.ext, r.value, n) else s.ext;
      ExtentsFramed(s.ext, ext, id) && OwnsRange(ext, id, None, 0)
  {
    if r.Some? { RangeDisowned(s.ext, r.value, n, 0, id); }
  }

  lemma TeardownSound(s: State, id: PageId)
    requires Ready(s, id, 0) && Quiescent(s) && id in s.table
    ensures Sound(s, TeardownPage(s, id), id, 0)
  {
    hide Structure, Holds, OwnsRange, BornBelow, Authoritative, TargetData, Shape;
    hide BornFramed, TableFramed, LocalsFramed, BuffersFramed, ExtentsFramed, StoreFramed;
    var p := s.table[id];
    StructureAt(s, id, 0);
    AtRest(s, id);
    Kept(s, id, 0);
    TableSet(s.table, id, p);
    BufferFreed(s.dev, p.vram, id, 0);
    BufferFreed(s.host, p.host, id, 0);
    RangeGone(s, p.offset, Extents(p.size, s.pageSize), id);
  }

  lemma TeardownKeepsInv(s: State, id: PageId)
    requires Inv(s) && Quiescent(s) && id in s.table
    ensures Inv(TeardownPage(s, id)) && Quiescent(TeardownPage(s, id))
  {
    hide Structure, Ledger, Sound, Covers;
    Covered(s, id, 0);
    TeardownSound(s, id);
    Preserves(s, TeardownPage(s, id), id, 0);
  }

  /** An empty table with nobody about: every tier is empty and unused. */
  lemma EmptyTableUsesNothing(s: State)
    requires Inv(s) && Quiescent(s) && s.table == map[]
    ensures s.vram.used == 0 && s.ram.used == 0 && s.nvme.used == 0
    ensures s.dev == map[] && s.host == map[] && s.ext == map[]
  {
    assert PagesVram(s) == map[] && PagesRam(s) == map[] && PagesNvme(s) == map[];
    assert ThreadsVram(s) == map[] && ThreadsRam(s) == map[] && ThreadsNvme(s) == map[];
  }
}
