/** Concrete consequences of the note store's rules: the shallow cascade,
    the fallback after deleting the current page, positions that are never
    renumbered, and a full reorder of a three-block page. */
module NotesScenarios {
  import opened Seqs
  import opened Types
  import opened Queries
  import opened Storage
  import opened Notes

  /** A root page `a` and its child `b`: the root query lists only `a`, the
      query under `a` only `b`. */
  lemma RootAndChildQueries(a: Page, b: Page)
    requires a.parentId == None && b.parentId == Some(a.id)
    ensures ChildPages([a, b], None) == [a]
    ensures ChildPages([a, b], Some(a.id)) == [b]
  {
    FilterPair(a, b, ChildOf(None));
    FilterPair(a, b, ChildOf(Some(a.id)));
    assert SortBy([a], PagePosition) == InsertBy(a, SortBy([], PagePosition), PagePosition);
    assert SortBy([b], PagePosition) == InsertBy(b, SortBy([], PagePosition), PagePosition);
  }

  /** Deleting `a` from the chain a <- b <- c (c a child of b, b a child of
      a) removes a and b but keeps c, whose parent id now names no page;
      the blocks of b stay, only those of a go. */
  lemma DeletePageIsOneLevel(a: Page, b: Page, c: Page, onA: Block, onB: Block)
    requires b.parentId == Some(a.id) && c.parentId == Some(b.id)
    requires a.id != b.id && b.id != c.id && a.id != c.id
    requires a.parentId != Some(a.id) && c.parentId != Some(a.id)
    requires onA.pageId == a.id && onB.pageId == b.id
    ensures Filter([a, b, c], KeptAfterPageDelete(a.id)) == [c]
    ensures c.parentId.value !in Keys(Filter([a, b, c], KeptAfterPageDelete(a.id)), PageKey)
    ensures Filter([onA, onB], NotOnPage(a.id)) == [onB]
  {
    FilterTriple(a, b, c, KeptAfterPageDelete(a.id));
    FilterPair(onA, onB, NotOnPage(a.id));
  }

  /** When the deleted current page is listed first and its child second,
      the child becomes current although the same call removed it. */
  lemma FallbackCanBeRemovedChild(ps: seq<Page>, pageId: string)
    requires |ps| >= 2 && ps[0].id == pageId
    requires ps[1].id != pageId && ps[1].parentId == Some(pageId)
    requires Unique(Keys(ps, PageKey))
    ensures Fallback(ps, pageId) == Some(ps[1].id)
    ensures ps[1].id !in Keys(Filter(ps, KeptAfterPageDelete(pageId)), PageKey)
  {
    FallbackIsFirstOther(ps, pageId);
    assert ps[1..][0] == ps[1];
    var kept := Filter(ps, KeptAfterPageDelete(pageId));
    forall i | 0 <= i < |kept| ensures kept[i].id != ps[1].id {
      assert kept[i] in ps;
      var k :| 0 <= k < |ps| && ps[k] == kept[i];
      if k != 1 {
        assert Keys(ps, PageKey)[k] != Keys(ps, PageKey)[1];
      }
    }
  }

  /** Positions are not renumbered: after the middle block of a page with
      positions 0, 1, 2 is deleted, a block appended without a position
      gets 2, the position the last block already has. */
  lemma AppendAfterDeleteCollides(b0: Block, b1: Block, b2: Block)
    requires b0.pageId == b1.pageId == b2.pageId
    requires b0.id != b1.id && b2.id != b1.id
    requires b0.position == 0 && b1.position == 1 && b2.position == 2
    ensures Filter([b0, b1, b2], NotBlock(b1.id)) == [b0, b2]
    ensures |PageBlocks(Filter([b0, b1, b2], NotBlock(b1.id)), b0.pageId)| == b2.position
  {
    FilterTriple(b0, b1, b2, NotBlock(b1.id));
    var left := [b0, b2];
    FilterKeepsAll(left, OnPage(b0.pageId));
    PageBlockCount(left, b0.pageId);
  }

  /** The page query returns as many blocks as the page has. */
  lemma PageBlockCount(bs: seq<Block>, pageId: string)
    ensures |PageBlocks(bs, pageId)| == |Filter(bs, OnPage(pageId))|
  {
    assert |multiset(PageBlocks(bs, pageId))| == |multiset(Filter(bs, OnPage(pageId)))|;
  }

  /** Reordering blocks x, y, z as [z, x, y] gives z position 0, x
      position 1 and y position 2, whatever positions they had. */
  lemma ReorderThreePositions(x: Block, y: Block, z: Block)
    requires x.id != y.id && y.id != z.id && x.id != z.id
    ensures Reposition([x, y, z], [z.id, x.id, y.id], None)
         == [x.(position := 1), y.(position := 2), z.(position := 0)]
  {
    var bs := [x, y, z];
    var ids := [z.id, x.id, y.id];
    var keys := Keys(bs, BlockKey);
    assert keys == [x.id, y.id, z.id];
    assert IndexOf(keys, x.id) == 0;
    assert IndexOf(keys, y.id) == 1;
    assert IndexOf(keys, z.id) == 2;
    assert LastIndexOf(ids, x.id) == 1;
    assert LastIndexOf(ids, y.id) == 2;
    assert LastIndexOf(ids, z.id) == 0;
    RepositionAt(bs, ids, None, 0);
    RepositionAt(bs, ids, None, 1);
    RepositionAt(bs, ids, None, 2);
  }
}
