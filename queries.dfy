/** The two read queries of the note store (`getPageBlocks`,
    `getChildPages`); the first is also what the storage's `getBlocks`
    returns for a page id. Both keep the matching records and sort them
    by ascending position, stably. */
module Queries {
  import opened Seqs
  import opened Types

  /** `b => b.pageId === pageId` */
  function OnPage(pageId: string): Block -> bool
  {
    (b: Block) => b.pageId == pageId
  }

  /** `p => p.parentId === parentId`; `None` matches the root pages. */
  function ChildOf(parentId: Option<string>): Page -> bool
  {
    (p: Page) => p.parentId == parentId
  }

  /** The blocks of one page, by ascending position. */
  function PageBlocks(bs: seq<Block>, pageId: string): (r: seq<Block>)
    ensures forall b :: b in r <==> b in bs && b.pageId == pageId
    ensures multiset(r) == multiset(Filter(bs, OnPage(pageId)))
    ensures SortedBy(r, BlockPosition)
  {
    var kept := Filter(bs, OnPage(pageId));
    var r := SortBy(kept, BlockPosition);
    assert forall b :: b in r <==> b in multiset(r);
    assert forall b :: b in kept <==> b in multiset(kept);
    r
  }

  /** Among the blocks of the page that share one position, the query keeps
      the order they have in `bs`. */
  lemma PageBlocksStable(bs: seq<Block>, pageId: string, position: int)
    ensures Filter(PageBlocks(bs, pageId), HasKey(BlockPosition, position))
         == Filter(Filter(bs, OnPage(pageId)), HasKey(BlockPosition, position))
  {
    SortByStable(Filter(bs, OnPage(pageId)), BlockPosition, position);
  }

  /** The children of `parentId` (the root pages for `None`), by ascending
      position. */
  function ChildPages(ps: seq<Page>, parentId: Option<string>): (r: seq<Page>)
    ensures forall p :: p in r <==> p in ps && p.parentId == parentId
    ensures multiset(r) == multiset(Filter(ps, ChildOf(parentId)))
    ensures SortedBy(r, PagePosition)
  {
    var kept := Filter(ps, ChildOf(parentId));
    var r := SortBy(kept, PagePosition);
    assert forall p :: p in r <==> p in multiset(r);
    assert forall p :: p in kept <==> p in multiset(kept);
    r
  }

  /** Among the children that share one position, the query keeps the order
      they have in `ps`. */
  lemma ChildPagesStable(ps: seq<Page>, parentId: Option<string>, position: int)
    ensures Filter(ChildPages(ps, parentId), HasKey(PagePosition, position))
         == Filter(Filter(ps, ChildOf(parentId)), HasKey(PagePosition, position))
  {
    SortByStable(Filter(ps, ChildOf(parentId)), PagePosition, position);
  }
}
