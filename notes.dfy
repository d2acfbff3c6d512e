/** The note store: the in-memory pages and blocks of the session, the
    current page and the selected block. Every mutation updates memory and
    writes the changed data through to the storage. */
module Notes {
  import opened Seqs
  import opened Types
  import opened Queries
  import opened Storage

  /** `xs.map(x => x.id === id ? g(x) : x)` */
  function UpdateWhere<T>(xs: seq<T>, key: T -> string, id: string, g: T -> T): (r: seq<T>)
    ensures |r| == |xs|
    ensures forall i :: 0 <= i < |xs| && key(xs[i]) != id ==> r[i] == xs[i]
    ensures forall i :: 0 <= i < |xs| && key(xs[i]) == id ==> r[i] == g(xs[i])
    ensures id !in Keys(xs, key) ==> r == xs
    ensures (forall i :: 0 <= i < |xs| ==> key(g(xs[i])) == key(xs[i])) ==> Keys(r, key) == Keys(xs, key)
  {
    seq(|xs|, i requires 0 <= i < |xs| => if key(xs[i]) == id then g(xs[i]) else xs[i])
  }

  /** `p => ({ ...p, ...updates, updatedAt: now })` */
  function PageMerger(updates: PagePatch, now: string): Page -> Page
  {
    (p: Page) => MergePage(p, updates, now)
  }

  /** `b => ({ ...b, ...updates, updatedAt: now })` */
  function BlockMerger(updates: BlockPatch, now: string): Block -> Block
  {
    (b: Block) => MergeBlock(b, updates, now)
  }

  /** The blocks kept by the store's `deleteBlock(blockId)`. */
  function NotBlock(blockId: string): Block -> bool
  {
    (b: Block) => b.id != blockId
  }

  /** `p => p.id !== pageId` */
  function OtherThan(pageId: string): Page -> bool
  {
    (p: Page) => p.id != pageId
  }

  /** The page that becomes current when the current page is deleted:
      the first entry of the pre-deletion list whose id differs, or none. */
  function Fallback(ps: seq<Page>, pageId: string): (r: Option<string>)
    ensures r.Some? ==> r.value != pageId && r.value in Keys(ps, PageKey)
    ensures r.None? <==> forall i :: 0 <= i < |ps| ==> ps[i].id == pageId
  {
    var remaining := Filter(ps, OtherThan(pageId));
    if |remaining| > 0 then
      var p := remaining[0];
      assert p in ps;
      Some(p.id)
    else
      assert forall i :: 0 <= i < |ps| ==> ps[i] !in remaining;
      None
  }

  /** The first page, scanning from the front, whose id is not `pageId`:
      an independent definition of the fallback. */
  function FirstOther(ps: seq<Page>, pageId: string): Option<string>
  {
    if ps == [] then None
    else if ps[0].id != pageId then Some(ps[0].id)
    else FirstOther(ps[1..], pageId)
  }

  lemma {:induction false} FallbackIsFirstOther(ps: seq<Page>, pageId: string)
    ensures Fallback(ps, pageId) == FirstOther(ps, pageId)
  {
    if ps != [] {
      FallbackIsFirstOther(ps[1..], pageId);
      assert ps == [ps[0]] + ps[1..];
      FilterConcat([ps[0]], ps[1..], OtherThan(pageId));
      FilterSingleton(ps[0], OtherThan(pageId));
    }
  }

  /** The siblings under `parentId`, in list order, hold the positions
      0, 1, 2, ... */
  ghost predicate DenseSiblings(ps: seq<Page>, parentId: Option<string>)
  {
    var siblings := Filter(ps, ChildOf(parentId));
    forall i :: 0 <= i < |siblings| ==> siblings[i].position == i
  }

  /** A page created the way `createPage` creates it extends its sibling
      group's positions by one and leaves every other group as it was; so
      a run of `createPage` calls under one parent numbers the new pages
      0..n-1 in call order. */
  lemma {:induction false} CreatePageKeepsDense(ps: seq<Page>, p: Page, parentId: Option<string>)
    requires p.position == |Filter(ps, ChildOf(p.parentId))|
    requires DenseSiblings(ps, parentId)
    ensures DenseSiblings(ps + [p], parentId)
    ensures parentId != p.parentId ==> Filter(ps + [p], ChildOf(parentId)) == Filter(ps, ChildOf(parentId))
  {
    FilterConcat(ps, [p], ChildOf(parentId));
    FilterSingleton(p, ChildOf(parentId));
  }

  /** The number of siblings counted by `createPage` is the length of
      `getChildPages` for that parent. */
  lemma SiblingCount(ps: seq<Page>, parentId: Option<string>)
    ensures |Filter(ps, ChildOf(parentId))| == |ChildPages(ps, parentId)|
  {
    assert |multiset(ChildPages(ps, parentId))| == |multiset(Filter(ps, ChildOf(parentId)))|;
  }

  /** The store's and the storage's `deleteBlock` agree exactly when no
      block names the deleted one as its parent block. */
  lemma {:induction false} DeleteBlockAgreement(bs: seq<Block>, blockId: string)
    ensures (forall i :: 0 <= i < |bs| ==> bs[i].parentBlockId != Some(blockId))
        ==> Filter(bs, KeptAfterBlockDelete(blockId)) == Filter(bs, NotBlock(blockId))
    ensures (exists i :: 0 <= i < |bs| && bs[i].id != blockId && bs[i].parentBlockId == Some(blockId))
        ==> Filter(bs, KeptAfterBlockDelete(blockId)) != Filter(bs, NotBlock(blockId))
  {
    if forall i :: 0 <= i < |bs| ==> bs[i].parentBlockId != Some(blockId) {
      FilterAgree(bs, KeptAfterBlockDelete(blockId), NotBlock(blockId));
    }
    if i :| 0 <= i < |bs| && bs[i].id != blockId && bs[i].parentBlockId == Some(blockId) {
      assert bs[i] in Filter(bs, NotBlock(blockId));
      assert bs[i] !in Filter(bs, KeptAfterBlockDelete(blockId));
    }
  }

  /** The in-memory session state of the editor. */
  class NoteStore {
    var pages: seq<Page>
    var blocks: seq<Block>
    var currentPageId: Option<string>
    var selectedBlockId: Option<string>
    /** The write-through target of every mutation. */
    const storage: StorageService

    /** Ids are distinct: every page and block gets a fresh id. */
    ghost predicate Valid()
      reads this
    {
      Unique(Keys(pages, PageKey)) && Unique(Keys(blocks, BlockKey))
    }

    constructor (storage: StorageService)
      ensures Valid() && this.storage == storage
      ensures pages == [] && blocks == [] && currentPageId == None && selectedBlockId == None
    {
      this.storage := storage;
      pages, blocks := [], [];
      currentPageId, selectedBlockId := None, None;
    }

    /** Appends a page whose position is the number of pages already under
        the same parent, and saves it. */
    method CreatePage(title: string, parentId: Option<string>, id: string, now: string) returns (page: Page)
      requires Valid()
      requires id !in Keys(pages, PageKey)
      modifies this, storage
      ensures Valid()
      ensures page == Page(id, title, None, None, parentId, |ChildPages(old(pages), parentId)|, now, now)
      ensures pages == old(pages) + [page]
      ensures blocks == old(blocks)
      ensures currentPageId == old(currentPageId) && selectedBlockId == old(selectedBlockId)
      ensures storage.pages == Upsert(old(storage.pages), PageKey, page, page.(updatedAt := now))
      ensures storage.blocks == old(storage.blocks) && storage.currentPageId == old(storage.currentPageId)
      ensures storage.geminiApiKey == old(storage.geminiApiKey)
    {
      SiblingCount(pages, parentId);
      page := Page(id, title, None, None, parentId, |Filter(pages, ChildOf(parentId))|, now, now);
      storage.SavePage(page, now);
      KeysAppend(pages, page, PageKey);
      UniqueAppend(Keys(pages, PageKey), id);
      pages := pages + [page];
    }

    /** Merges `updates` into every page with id `pageId`, stamps it with
        `now` and saves the first such page; does nothing for a missing id. */
    method UpdatePage(pageId: string, updates: PagePatch, now: string)
      requires Valid()
      modifies this, storage
      ensures Valid()
      ensures pages == UpdateWhere(old(pages), PageKey, pageId, PageMerger(updates, now))
      ensures pageId !in Keys(old(pages), PageKey) ==> pages == old(pages) && storage.pages == old(storage.pages)
      ensures pageId in Keys(old(pages), PageKey) ==>
        var merged := MergePage(old(pages)[IndexOf(Keys(old(pages), PageKey), pageId)], updates, now);
        storage.pages == Upsert(old(storage.pages), PageKey, merged, merged)
      ensures blocks == old(blocks)
      ensures currentPageId == old(currentPageId) && selectedBlockId == old(selectedBlockId)
      ensures storage.blocks == old(storage.blocks) && storage.currentPageId == old(storage.currentPageId)
      ensures storage.geminiApiKey == old(storage.geminiApiKey)
    {
      var updated := UpdateWhere(pages, PageKey, pageId, PageMerger(updates, now));
      assert Keys(updated, PageKey) == Keys(pages, PageKey);
      var index := FindIndex(Keys(updated, PageKey), pageId);
      if index >= 0 {
        storage.SavePage(updated[index], now);
      }
      pages := updated;
    }

    /** Removes the page and its direct children and the page's own blocks,
        in memory and in storage. When the page was current, the first
        other page of the list before the deletion becomes current. */
    method DeletePage(pageId: string)
      requires Valid()
      modifies this, storage
      ensures Valid()
      ensures pages == Filter(old(pages), KeptAfterPageDelete(pageId))
      ensures blocks == Filter(old(blocks), NotOnPage(pageId))
      ensures currentPageId == if old(currentPageId) == Some(pageId) then Fallback(old(pages), pageId)
                               else old(currentPageId)
      ensures selectedBlockId == old(selectedBlockId)
      ensures storage.pages == Filter(old(storage.pages), KeptAfterPageDelete(pageId))
      ensures storage.blocks == Filter(old(storage.blocks), NotOnPage(pageId))
      ensures storage.currentPageId == old(storage.currentPageId)
      ensures storage.geminiApiKey == old(storage.geminiApiKey)
    {
      storage.DeletePage(pageId);
      var before := pages;
      FilterKeepsKeysUnique(pages, KeptAfterPageDelete(pageId), PageKey);
      FilterKeepsKeysUnique(blocks, NotOnPage(pageId), BlockKey);
      pages := Filter(pages, KeptAfterPageDelete(pageId));
      blocks := Filter(blocks, NotOnPage(pageId));
      if currentPageId == Some(pageId) {
        var remaining := Filter(before, OtherThan(pageId));
        currentPageId := if |remaining| > 0 then Some(remaining[0].id) else None;
      }
    }

    /** Makes `pageId` current, persists it, and clears the block selection. */
    method SetCurrentPage(pageId: string)
      requires Valid()
      modifies this, storage
      ensures Valid()
      ensures currentPageId == Some(pageId) && selectedBlockId == None
      ensures pages == old(pages) && blocks == old(blocks)
      ensures storage.currentPageId == Some(pageId)
      ensures storage.pages == old(storage.pages) && storage.blocks == old(storage.blocks)
      ensures storage.geminiApiKey == old(storage.geminiApiKey)
    {
      currentPageId := Some(pageId);
      storage.SetCurrentPageId(pageId);
      selectedBlockId := None;
    }

    method SetSelectedBlock(blockId: Option<string>)
      requires Valid()
      modifies this
      ensures Valid()
      ensures selectedBlockId == blockId
      ensures pages == old(pages) && blocks == old(blocks) && currentPageId == old(currentPageId)
    {
      selectedBlockId := blockId;
    }

    /** Appends an empty block; without an explicit position it goes after
        the blocks the page already has (their count), with one the
        position is taken as given and no other block moves. */
    method CreateBlock(pageId: string, blockType: BlockType, position: Option<int>, id: string, now: string)
      returns (block: Block)
      requires Valid()
      requires id !in Keys(blocks, BlockKey)
      modifies this, storage
      ensures Valid()
      ensures block == Block(id, pageId, blockType, BlockContent("", None, None),
                             position.GetOr(|PageBlocks(old(blocks), pageId)|), None, now, now)
      ensures blocks == old(blocks) + [block]
      ensures pages == old(pages)
      ensures currentPageId == old(currentPageId) && selectedBlockId == old(selectedBlockId)
      ensures storage.blocks == Upsert(old(storage.blocks), BlockKey, block, block.(updatedAt := now))
      ensures storage.pages == old(storage.pages) && storage.currentPageId == old(storage.currentPageId)
      ensures storage.geminiApiKey == old(storage.geminiApiKey)
    {
      var pageBlocks := Filter(blocks, OnPage(pageId));
      assert |multiset(PageBlocks(blocks, pageId))| == |multiset(pageBlocks)|;
      block := Block(id, pageId, blockType, BlockContent("", None, None),
                     position.GetOr(|pageBlocks|), None, now, now);
      storage.SaveBlock(block, now);
      KeysAppend(blocks, block, BlockKey);
      UniqueAppend(Keys(blocks, BlockKey), id);
      blocks := blocks + [block];
    }

    /** Merges `updates` into every block with id `blockId`, stamps it with
        `now` and saves the first such block; does nothing for a missing id. */
    method UpdateBlock(blockId: string, updates: BlockPatch, now: string)
      requires Valid()
      modifies this, storage
      ensures Valid()
      ensures blocks == UpdateWhere(old(blocks), BlockKey, blockId, BlockMerger(updates, now))
      ensures blockId !in Keys(old(blocks), BlockKey) ==> blocks == old(blocks) && storage.blocks == old(storage.blocks)
      ensures blockId in Keys(old(blocks), BlockKey) ==>
        var merged := MergeBlock(old(blocks)[IndexOf(Keys(old(blocks), BlockKey), blockId)], updates, now);
        storage.blocks == Upsert(old(storage.blocks), BlockKey, merged, merged)
      ensures pages == old(pages)
      ensures currentPageId == old(currentPageId) && selectedBlockId == old(selectedBlockId)
      ensures storage.pages == old(storage.pages) && storage.currentPageId == old(storage.currentPageId)
      ensures storage.geminiApiKey == old(storage.geminiApiKey)
    {
      var updated := UpdateWhere(blocks, BlockKey, blockId, BlockMerger(updates, now));
      assert Keys(updated, BlockKey) == Keys(blocks, BlockKey);
      var index := FindIndex(Keys(updated, BlockKey), blockId);
      if index >= 0 {
        storage.SaveBlock(updated[index], now);
      }
      blocks := updated;
    }

    /** Removes exactly the blocks with id `blockId` from memory; the
        storage also drops the blocks whose parent block it is. */
    method DeleteBlock(blockId: string)
      requires Valid()
      modifies this, storage
      ensures Valid()
      ensures blocks == Filter(old(blocks), NotBlock(blockId))
      ensures pages == old(pages)
      ensures currentPageId == old(currentPageId) && selectedBlockId == old(selectedBlockId)
      ensures storage.blocks == Filter(old(storage.blocks), KeptAfterBlockDelete(blockId))
      ensures storage.pages == old(storage.pages) && storage.currentPageId == old(storage.currentPageId)
      ensures storage.geminiApiKey == old(storage.geminiApiKey)
    {
      storage.DeleteBlock(blockId);
      FilterKeepsKeysUnique(blocks, NotBlock(blockId), BlockKey);
      blocks := Filter(blocks, NotBlock(blockId));
    }

    /** Gives each listed block its index in `blockIds` as position, in
        storage (with `updatedAt := now`) and in memory (without). The list
        is not checked against the page's blocks. */
    method ReorderBlocks(pageId: string, blockIds: seq<string>, now: string)
      requires Valid()
      modifies this, storage
      ensures Valid()
      ensures blocks == Reposition(old(blocks), blockIds, None)
      ensures pages == old(pages)
      ensures currentPageId == old(currentPageId) && selectedBlockId == old(selectedBlockId)
      ensures storage.blocks == Reposition(old(storage.blocks), blockIds, Some(now))
      ensures storage.pages == old(storage.pages) && storage.currentPageId == old(storage.currentPageId)
      ensures storage.geminiApiKey == old(storage.geminiApiKey)
    {
      storage.UpdateBlockPositions(pageId, blockIds, now);
      var updated := ApplyPositions(blocks, blockIds, None);
      blocks := updated;
    }
  }
}
