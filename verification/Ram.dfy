/** The sparse RAM (components/platform/src/ram.rs): a map of the pages that hold a non-zero byte, which refines a flat
    byte array, and is the only such map of its contents. */
module Ram {
  import opened Words

  /** A page of memory. */
  type Page = p: seq<Byte> | |p| == PAGE witness seq(PAGE, i => 0)

  type Pages = map<nat, Page>

  predicate NonZero(s: seq<Byte>) {
    exists i :: 0 <= i < |s| && s[i] != 0
  }

  /** The byte at `a`: zero in a page the map omits. */
  function ByteAt(pages: Pages, a: nat): Byte {
    if a / PAGE in pages then pages[a / PAGE][a % PAGE] else 0
  }

  /** Every stored page has a non-zero byte and no non-zero byte past the end. */
  ghost predicate Canonical(pages: Pages, size: nat) {
    && (forall i :: i in pages ==> NonZero(pages[i]))
    && (forall a: nat :: a >= size ==> ByteAt(pages, a) == 0)
  }

  // ----- Canonical maps are unique -----

  lemma InPage(i: nat, o: nat)
    requires o < PAGE
    ensures (PAGE * i + o) / PAGE == i && (PAGE * i + o) % PAGE == o
  {
  }

  /** A page with a non-zero byte in one map is the same page in any canonical map of the same contents. */
  lemma SamePage(p: Pages, q: Pages, i: nat)
    requires i in p && NonZero(p[i]) && forall a: nat :: ByteAt(p, a) == ByteAt(q, a)
    ensures i in q && q[i] == p[i]
  {
    var z :| 0 <= z < |p[i]| && p[i][z] != 0;
    InPage(i, z);
    assert ByteAt(p, PAGE * i + z) == ByteAt(q, PAGE * i + z);
    forall o | 0 <= o < PAGE ensures q[i][o] == p[i][o] {
      InPage(i, o);
      assert ByteAt(p, PAGE * i + o) == ByteAt(q, PAGE * i + o);
    }
  }

  /** Equal contents mean equal page maps, whatever the history. */
  lemma CanonicalUnique(p: Pages, q: Pages, size: nat)
    requires Canonical(p, size) && Canonical(q, size) && forall a: nat :: a < size ==> ByteAt(p, a) == ByteAt(q, a)
    ensures p == q
  {
    assert forall a: nat :: ByteAt(p, a) == ByteAt(q, a);
    forall i | i in p ensures i in q && q[i] == p[i] {
      SamePage(p, q, i);
    }
    forall i | i in q ensures i in p && p[i] == q[i] {
      SamePage(q, p, i);
    }
  }

  // ----- One page's part of a store -----

  /** `page` with `chunk` at `start`. */
  function Spliced(page: Page, start: nat, chunk: seq<Byte>): (r: Page)
    requires start + |chunk| <= PAGE
    ensures forall o :: 0 <= o < PAGE ==> r[o] == if start <= o < start + |chunk| then chunk[o - start] else page[o]
  {
    page[..start] + chunk + page[start + |chunk|..]
  }

  function ZeroPage(): (p: Page)
    ensures forall o :: 0 <= o < PAGE ==> p[o] == 0
  {
    seq<Byte>(PAGE, _ => 0)
  }

  /** The map after `chunk` is written at `start` of page `i`: the page dropped when it is all zero. */
  function Put(pages: Pages, i: nat, start: nat, chunk: seq<Byte>): Pages
    requires start + |chunk| <= PAGE
  {
    var page := Spliced(if i in pages then pages[i] else ZeroPage(), start, chunk);
    if NonZero(page) then pages[i := page] else pages - {i}
  }

  lemma PutByte(pages: Pages, i: nat, start: nat, chunk: seq<Byte>, a: nat)
    requires start + |chunk| <= PAGE
    ensures ByteAt(Put(pages, i, start, chunk), a)
         == if PAGE * i + start <= a < PAGE * i + start + |chunk| then chunk[a - (PAGE * i + start)] else ByteAt(pages, a)
  {
    var o := a % PAGE;
    assert a == PAGE * (a / PAGE) + o;
    if a / PAGE == i {
      var page := Spliced(if i in pages then pages[i] else ZeroPage(), start, chunk);
      assert ByteAt(Put(pages, i, start, chunk), a) == page[o];
    }
  }

  lemma PutNonZero(pages: Pages, i: nat, start: nat, chunk: seq<Byte>)
    requires start + |chunk| <= PAGE && forall k :: k in pages ==> NonZero(pages[k])
    ensures var n := Put(pages, i, start, chunk); forall k :: k in n ==> NonZero(n[k])
  {
  }

  /** A page with no entry is written only when the chunk has a non-zero byte. */
  lemma FreshPage(start: nat, chunk: seq<Byte>)
    requires start + |chunk| <= PAGE
    ensures NonZero(Spliced(ZeroPage(), start, chunk)) <==> NonZero(chunk)
  {
    var page := Spliced(ZeroPage(), start, chunk);
    if NonZero(chunk) {
      var i :| 0 <= i < |chunk| && chunk[i] != 0;
      assert page[start + i] != 0;
    }
  }

  // ----- Flat contents -----

  function Flat(pages: Pages, size: nat): (s: seq<Byte>)
    ensures |s| == size && forall a :: 0 <= a < size ==> s[a] == ByteAt(pages, a)
  {
    seq<Byte>(size, a requires 0 <= a < size => ByteAt(pages, a))
  }

  /** `flat` with `data` at `offset`. */
  function Written(flat: seq<Byte>, offset: nat, data: seq<Byte>): (r: seq<Byte>)
    requires offset + |data| <= |flat|
    ensures |r| == |flat|
  {
    flat[..offset] + data + flat[offset + |data|..]
  }

  class SparseRam {
    const size: nat
    var pages: Pages

    /** The memory as a flat array. */
    ghost function Contents(): (s: seq<Byte>)
      reads this
      ensures |s| == size
    {
      Flat(pages, size)
    }

    ghost predicate Valid()
      reads this
    {
      Canonical(pages, size)
    }

    /** An empty RAM: all zero, no page. */
    constructor (size: nat)
      ensures Valid() && this.size == size && pages == map[] && forall i :: 0 <= i < size ==> Contents()[i] == 0
    {
      this.size := size;
      pages := map[];
    }

    /** The bytes `offset..offset + len`: those of the flat array. */
    method Load(offset: nat, len: nat) returns (data: seq<Byte>)
      requires Valid() && offset + len <= size
      ensures data == Contents()[offset..offset + len]
    {
      data := [];
      while |data| < len
        invariant |data| <= len && forall k :: 0 <= k < |data| ==> data[k] == ByteAt(pages, offset + k)
        decreases len - |data|
      {
        var at := offset + |data|;
        var start := at % PAGE;
        var n := if PAGE - start < len - |data| then PAGE - start else len - |data|;
        var part := if at / PAGE in pages then pages[at / PAGE][start..start + n] else seq<Byte>(n, i => 0);
        PartIs(pages, at, n, part);
        data := data + part;
      }
      assert data == Contents()[offset..offset + len];
    }

    /** Writes `data` at `offset`: the flat array is written there and nowhere else, and no all-zero page is kept. */
    method Store(offset: nat, data: seq<Byte>)
      requires Valid() && offset + |data| <= size
      modifies this`pages
      ensures Valid() && Contents() == Written(old(Contents()), offset, data)
    {
      hide Put, ByteAt;
      var done := 0;
      while done < |data|
        invariant 0 <= done <= |data| && forall i :: i in pages ==> NonZero(pages[i])
        invariant forall a: nat :: ByteAt(pages, a) == if offset <= a < offset + done then data[a - offset] else ByteAt(old(pages), a)
      {
        var at := offset + done;
        var start := at % PAGE;
        var n := if PAGE - start < |data| - done then PAGE - start else |data| - done;
        var chunk := data[done..done + n];
        var i := at / PAGE;
        PutNonZero(pages, i, start, chunk);
        forall a: nat ensures ByteAt(Put(pages, i, start, chunk), a)
            == if at <= a < at + n then data[a - offset] else ByteAt(pages, a) {
          PutByte(pages, i, start, chunk, a);
        }
        PutPage(i, start, chunk);
        done := done + n;
      }
      assert Contents() == Written(old(Contents()), offset, data);
    }

    /** One page's part of a store. */
    method PutPage(i: nat, start: nat, chunk: seq<Byte>)
      requires start + |chunk| <= PAGE && forall k :: k in pages ==> NonZero(pages[k])
      modifies this`pages
      ensures pages == Put(old(pages), i, start, chunk)
    {
      if i in pages {
        var page := Spliced(pages[i], start, chunk);
        if NonZero(page) {
          pages := pages[i := page];
        } else {
          pages := pages - {i};
        }
      } else {
        FreshPage(start, chunk);
        if NonZero(chunk) {
          pages := pages[i := Spliced(ZeroPage(), start, chunk)];
        } else {
          assert pages - {i} == pages;
        }
      }
    }

    /** The pages by ascending index, as a snapshot lists them. */
    method Snapshot() returns (list: seq<(nat, Page)>)
      requires Valid()
      ensures Lists(list, pages, size)
    {
      list := [];
      var i := 0;
      while PAGE * i < size
        invariant 0 <= i && forall k :: 0 <= k < |list| ==> list[k].0 < i && list[k].0 in pages && pages[list[k].0] == list[k].1
        invariant forall j, k :: 0 <= j < k < |list| ==> list[j].0 < list[k].0
        invariant forall p :: p in pages && p < i ==> exists k :: 0 <= k < |list| && list[k].0 == p
        invariant forall k :: 0 <= k < |list| ==> PAGE * list[k].0 < size
        decreases size - PAGE * i
      {
        if i in pages {
          ghost var was := list;
          list := list + [(i, pages[i])];
          assert list[|was|].0 == i;
          assert forall k :: 0 <= k < |was| ==> list[k] == was[k];
        }
        i := i + 1;
      }
      forall p | p in pages ensures p < i {
        PageBelow(pages, size, p);
      }
    }

    /** `restore`: the pages of a canonical list become the whole memory; any other list is refused. */
    method Restore(list: seq<(nat, seq<Byte>)>) returns (ok: bool)
      modifies this`pages
      ensures ok <==> Restorable(list, size)
      ensures if ok then Canonical(pages, size) && FromList(list, |list|, pages) else pages == old(pages)
    {
      hide PageOk, NonZero, Restorable, Canonical;
      var restored: Pages := map[];
      var k := 0;
      NoneYet(list, size);
      while k < |list|
        invariant 0 <= k <= |list| && Restorable(list[..k], size) && FromList(list, k, restored) && pages == old(pages)
      {
        var (index, bytes) := list[k];
        RestorablePrefix(list, k, size);
        var good := CheckPage(index, bytes, size);
        if (k > 0 && index <= list[k - 1].0) || !good {
          NotRestorable(list, k + 1, size);
          return false;
        }
        PageLength(index, bytes, size);
        AddPage(list, k, restored, size);
        var page: Page := bytes;
        restored := restored[index := page];
        k := k + 1;
      }
      assert list[..k] == list;
      CanonicalList(list, restored, size);
      pages := restored;
      return true;
    }
  }

  /** The checks on one page. */
  method CheckPage(index: nat, bytes: seq<Byte>, size: nat) returns (ok: bool)
    ensures ok <==> PageOk(index, bytes, size)
  {
    hide NonZero;
    if PAGE * index >= size || |bytes| != PAGE || !NonZero(bytes) {
      return false;
    }
    var valid := if size - PAGE * index < PAGE then size - PAGE * index else PAGE;
    if NonZero(bytes[valid..]) {
      BadTail(bytes, valid);
      return false;
    }
    GoodTail(bytes, valid);
    return true;
  }

  /** The map holds the first `k` listed pages and no other. */
  ghost predicate FromList(list: seq<(nat, seq<Byte>)>, k: nat, pages: Pages)
    requires k <= |list|
  {
    && (forall j :: 0 <= j < k ==> list[j].0 in pages && pages[list[j].0] == list[j].1)
    && (forall i :: i in pages ==> exists j :: 0 <= j < k && list[j].0 == i)
  }

  lemma NoneYet(list: seq<(nat, seq<Byte>)>, size: nat)
    ensures Restorable(list[..0], size)
  {
  }

  lemma PageLength(index: nat, bytes: seq<Byte>, size: nat)
    requires PageOk(index, bytes, size)
    ensures |bytes| == PAGE
  {
  }

  lemma NotRestorable(list: seq<(nat, seq<Byte>)>, k: nat, size: nat)
    requires k <= |list| && !Restorable(list[..k], size)
    ensures !Restorable(list, size)
  {
    hide PageOk;
  }

  lemma AddPage(list: seq<(nat, seq<Byte>)>, k: nat, pages: Pages, size: nat)
    requires k < |list| && FromList(list, k, pages) && Restorable(list[..k + 1], size) && |list[k].1| == PAGE
    ensures var page: Page := list[k].1; FromList(list, k + 1, pages[list[k].0 := page])
  {
    hide PageOk;
    forall j | 0 <= j < k ensures list[j].0 < list[k].0 {
      assert list[..k + 1][j].0 < list[..k + 1][k].0;
    }
  }

  lemma PartIs(pages: Pages, at: nat, n: nat, part: seq<Byte>)
    requires at % PAGE + n <= PAGE && |part| == n
    requires forall k :: 0 <= k < n ==> part[k] == if at / PAGE in pages then pages[at / PAGE][at % PAGE + k] else 0
    ensures forall k :: 0 <= k < n ==> part[k] == ByteAt(pages, at + k)
  {
    forall k | 0 <= k < n ensures part[k] == ByteAt(pages, at + k) {
      PageSplit(at + k, at / PAGE, at % PAGE + k);
    }
  }

  /** A stored page starts below the end. */
  lemma PageBelow(pages: Pages, size: nat, p: nat)
    requires Canonical(pages, size) && p in pages
    ensures PAGE * p < size
  {
    var z :| 0 <= z < |pages[p]| && pages[p][z] != 0;
    InPage(p, z);
    assert ByteAt(pages, PAGE * p + z) != 0;
  }

  /** `list` is the pages of the map by ascending index, each below the end. */
  ghost predicate Lists(list: seq<(nat, Page)>, pages: Pages, size: nat) {
    && (forall j, k :: 0 <= j < k < |list| ==> list[j].0 < list[k].0)
    && (forall k :: 0 <= k < |list| ==> list[k].0 in pages && pages[list[k].0] == list[k].1 && PAGE * list[k].0 < size)
    && (forall p :: p in pages ==> exists k :: 0 <= k < |list| && list[k].0 == p)
  }

  /** One page `restore` accepts: in range, 4096 bytes, not all zero, and zero past the end. */
  predicate PageOk(index: nat, bytes: seq<Byte>, size: nat) {
    && PAGE * index < size && |bytes| == PAGE && NonZero(bytes)
    && forall o :: 0 <= o < PAGE && PAGE * index + o >= size ==> bytes[o] == 0
  }

  predicate Restorable(list: seq<(nat, seq<Byte>)>, size: nat) {
    && (forall j, k :: 0 <= j < k < |list| ==> list[j].0 < list[k].0)
    && (forall k :: 0 <= k < |list| ==> PageOk(list[k].0, list[k].1, size))
  }

  lemma RestorablePrefix(list: seq<(nat, seq<Byte>)>, k: nat, size: nat)
    requires k < |list| && Restorable(list[..k], size)
    ensures Restorable(list, size) ==> Restorable(list[..k + 1], size)
    ensures Restorable(list[..k + 1], size) <==> (k > 0 ==> list[k - 1].0 < list[k].0) && PageOk(list[k].0, list[k].1, size)
  {
    hide PageOk;
    var p := list[..k + 1];
    assert forall j :: 0 <= j < k ==> p[j] == list[..k][j] == list[j];
    if (k > 0 ==> list[k - 1].0 < list[k].0) && PageOk(list[k].0, list[k].1, size) {
      forall j | 0 <= j < k ensures p[j].0 < p[k].0 {
        assert list[..k][j].0 <= list[..k][k - 1].0;
      }
    }
  }

  lemma BadTail(bytes: seq<Byte>, valid: nat)
    requires |bytes| == PAGE && valid <= PAGE && NonZero(bytes[valid..])
    ensures exists o :: valid <= o < PAGE && bytes[o] != 0
  {
    var i :| 0 <= i < |bytes[valid..]| && bytes[valid..][i] != 0;
    assert bytes[valid + i] != 0;
  }

  lemma GoodTail(bytes: seq<Byte>, valid: nat)
    requires |bytes| == PAGE && valid <= PAGE && !NonZero(bytes[valid..])
    ensures forall o :: valid <= o < PAGE ==> bytes[o] == 0
  {
    forall o | valid <= o < PAGE ensures bytes[o] == 0 {
      assert bytes[valid..][o - valid] == bytes[o];
    }
  }

  /** The map of a canonical list is canonical. */
  lemma CanonicalList(list: seq<(nat, seq<Byte>)>, pages: Pages, size: nat)
    requires Restorable(list, size) && FromList(list, |list|, pages)
    ensures Canonical(pages, size)
  {
    forall a: nat | a >= size ensures ByteAt(pages, a) == 0 {
      if a / PAGE in pages {
        var j :| 0 <= j < |list| && list[j].0 == a / PAGE;
        assert PageOk(list[j].0, list[j].1, size);
        assert PAGE * (a / PAGE) + a % PAGE == a;
      }
    }
  }

  /** A snapshot restores to the same map: its list is one `restore` accepts, and the map `restore` makes of it is the
      original. */
  lemma SnapshotRestores(list: seq<(nat, Page)>, pages: Pages, restored: Pages, size: nat)
    requires Canonical(pages, size) && Lists(list, pages, size)
    ensures Restorable(list, size)
    ensures FromList(list, |list|, restored) ==> restored == pages
  {
    hide NonZero;
    forall k | 0 <= k < |list| ensures PageOk(list[k].0, list[k].1, size) {
      TailZero(pages, size, list[k].0);
    }
  }

  /** A memory restored from another's snapshot is that memory. */
  method Reload(from: SparseRam, into: SparseRam) returns (ok: bool)
    requires from.Valid() && into.size == from.size && into != from
    modifies into`pages
    ensures ok && into.pages == from.pages && into.Valid()
  {
    hide Canonical, Lists, Restorable, FromList;
    var list := from.Snapshot();
    ok := into.Restore(list);
    SnapshotRestores(list, from.pages, into.pages, from.size);
  }

  lemma TailZero(pages: Pages, size: nat, i: nat)
    requires Canonical(pages, size) && i in pages
    ensures forall o :: 0 <= o < PAGE && PAGE * i + o >= size ==> pages[i][o] == 0
  {
    forall o | 0 <= o < PAGE && PAGE * i + o >= size ensures pages[i][o] == 0 {
      InPage(i, o);
      assert ByteAt(pages, PAGE * i + o) == 0;
    }
  }
}
