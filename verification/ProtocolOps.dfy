/** What the elementary updates of a step (a table entry, a thread, a buffer, an
    extent range) do to the frame and to who holds what. */
module ProtocolOps {
  import opened Collections
  import opened Pages
  import opened Protocol
  import opened ProtocolInvariant

  /** What is left alone is framed. */
  lemma Kept(s: State, id: PageId, t: Tid)
    ensures BornFramed(s.born, s.born)
    ensures TableFramed(s.table, s.table, id)
    ensures LocalsFramed(s.locals, s.locals, t)
    ensures BuffersFramed(s.dev, s.dev, id, t)
    ensures BuffersFramed(s.host, s.host, id, t)
    ensures ExtentsFramed(s.ext, s.ext, id)
    ensures StoreFramed(s.ext, s.store, s.store, id)
  {}

  lemma TableSet(m: map<PageId, Page>, id: PageId, p: Page)
    ensures TableFramed(m, m[id := p], id)
    ensures TableFramed(m, m - {id}, id)
  {}

  lemma LocalSet(m: map<Tid, Local>, t: Tid, l: Local)
    ensures LocalsFramed(m, m[t := l], t)
    ensures LocalsFramed(m, m - {t}, t)
  {}

  lemma BufferAdded(b: map<Handle, Buffer>, h: Handle, buf: Buffer, id: PageId, t: Tid)
    requires h !in b && Mine(buf.owner, id, t) && Holds(b, buf.owner, None)
    ensures BuffersFramed(b, b[h := buf], id, t)
    ensures Holds(b[h := buf], buf.owner, Some(h))
    ensures forall o, x :: o != buf.owner && Holds(b, o, x) ==> Holds(b[h := buf], o, x)
  {
    var b' := b[h := buf];
    forall o, x | o != buf.owner && Holds(b, o, x) ensures Holds(b', o, x) {
      forall k ensures x == Some(k) <==> k in b' && b'[k].owner == o {
        assert x == Some(k) <==> k in b && b[k].owner == o;
      }
    }
  }

  lemma BufferRemoved(b: map<Handle, Buffer>, h: Handle, o: Owner, id: PageId, t: Tid)
    requires Mine(o, id, t) && Holds(b, o, Some(h))
    ensures h in b
    ensures BuffersFramed(b, b - {h}, id, t)
    ensures Holds(b - {h}, o, None)
    ensures forall o', x :: o' != o && Holds(b, o', x) ==> Holds(b - {h}, o', x)
  {
    var b' := b - {h};
    forall o', x | o' != o && Holds(b, o', x) ensures Holds(b', o', x) {
      forall k ensures x == Some(k) <==> k in b' && b'[k].owner == o' {
        assert x == Some(k) <==> k in b && b[k].owner == o';
      }
    }
  }

  /** A buffer passes from its thread to the page. */
  lemma BufferGiven(b: map<Handle, Buffer>, h: Handle, id: PageId, t: Tid)
    requires Holds(b, OfThread(t), Some(h)) && Holds(b, OfPage(id), None)
    ensures h in b && b[h].owner == OfThread(t)
    ensures BuffersFramed(b, Reown(b, h, OfPage(id)), id, t)
    ensures Holds(Reown(b, h, OfPage(id)), OfPage(id), Some(h))
    ensures Holds(Reown(b, h, OfPage(id)), OfThread(t), None)
  {}

  lemma BufferWritten(b: map<Handle, Buffer>, h: Handle, data: Content, id: PageId, t: Tid)
    requires Holds(b, OfPage(id), Some(h))
    ensures h in b && b[h].owner == OfPage(id)
    ensures BuffersFramed(b, PutBuffer(b, Some(h), data), id, t)
    ensures Holds(PutBuffer(b, Some(h), data), OfPage(id), Some(h))
    ensures forall o, x :: o != OfPage(id) && Holds(b, o, x) ==> Holds(PutBuffer(b, Some(h), data), o, x)
  {
    var b' := PutBuffer(b, Some(h), data);
    forall o, x | o != OfPage(id) && Holds(b, o, x) ensures Holds(b', o, x) {
      forall k ensures x == Some(k) <==> k in b' && b'[k].owner == o {
        assert x == Some(k) <==> k in b && b[k].owner == o;
      }
    }
  }

  lemma RangeOwned(s: State, first: nat, n: nat, m: nat, id: PageId)
    requires RangeFree(s, first, n) && OwnsRange(s.ext, id, None, m)
    ensures ExtentsFramed(s.ext, Own(s.ext, first, n, id), id)
    ensures OwnsRange(Own(s.ext, first, n, id), id, Some(first), n)
  {
    var ext := Own(s.ext, first, n, id);
    forall e ensures e in ext && ext[e] == id <==> first <= e < first + n {
      assert !(e in s.ext && s.ext[e] == id);
    }
  }

  lemma RangeDisowned(ext: map<nat, PageId>, first: nat, n: nat, m: nat, id: PageId)
    requires OwnsRange(ext, id, Some(first), n)
    ensures ExtentsFramed(ext, Disown(ext, first, n), id)
    ensures OwnsRange(Disown(ext, first, n), id, None, m)
  {
    var ext' := Disown(ext, first, n);
    forall e ensures e in ext' && ext'[e] == id <==> false {
      assert e in ext && ext[e] == id <==> first <= e < first + n;
    }
    forall e | e in ext && ext[e] != id ensures e in ext' && ext'[e] == ext[e] {
      assert !(first <= e < first + n);
    }
  }

  lemma RangeWritten(s: State, first: nat, data: Content, id: PageId)
    requires OwnsRange(s.ext, id, Some(first), |data|) && first + |data| <= |s.store|
    ensures StoreFramed(s.ext, s.store, PutRange(s.store, Some(first), data), id)
    ensures Slice(PutRange(s.store, Some(first), data), first, |data|) == data
  {
    SliceOfSplice(s.store, first, data);
    var store' := PutRange(s.store, Some(first), data);
    forall e | e in s.ext && s.ext[e] != id && e < |s.store| ensures store'[e] == s.store[e] {
      assert !(first <= e < first + |data|);
    }
  }

  lemma IdHandedOut(born: map<PageId, Birth>, nextId: nat, b: Birth)
    requires BornBelow(born, nextId)
    ensures BornFramed(born, born[nextId := b])
    ensures BornBelow(born[nextId := b], nextId + 1)
  {}

  lemma RangelessPage(s: State, id: PageId)
    requires id in s.table && PageOk(s, id) && s.table[id].offset.None?
    ensures OwnsRange(s.ext, id, None, 0)
  {}
}
