/** The persistence adapter: four slots of the browser's local storage,
    each holding one whole value, read and rewritten by every call. */
module Storage {
  import opened Seqs
  import opened Types
  import opened Queries

  /** The list an upsert writes back: the first record with `x`'s id is
      replaced by `stamped` (the record with its timestamp refreshed);
      without such a record `x` is appended as given. */
  function Upsert<T(!new)>(xs: seq<T>, key: T -> string, x: T, stamped: T): (r: seq<T>)
    requires key(stamped) == key(x)
    ensures key(x) in Keys(xs, key) ==> |r| == |xs| && Keys(r, key) == Keys(xs, key)
    ensures key(x) in Keys(xs, key) ==>
      var k := IndexOf(Keys(xs, key), key(x));
      r[k] == stamped && forall i :: 0 <= i < |xs| && i != k ==> r[i] == xs[i]
    ensures key(x) !in Keys(xs, key) ==> r == xs + [x]
    ensures key(x) in Keys(r, key)
  {
    var k := IndexOf(Keys(xs, key), key(x));
    if k >= 0 then
      assert Keys(xs[k := stamped], key) == Keys(xs, key);
      xs[k := stamped]
    else
      KeysAppend(xs, x, key);
      xs + [x]
  }

  /** `xs.find(r => r.id === id)` */
  function Find<T>(xs: seq<T>, key: T -> string, id: string): (r: Option<T>)
    ensures r.None? <==> id !in Keys(xs, key)
    ensures r.Some? ==> r.value in xs && key(r.value) == id
    ensures r.Some? ==> r.value == xs[IndexOf(Keys(xs, key), id)]
  {
    var k := IndexOf(Keys(xs, key), id);
    if k < 0 then None else Some(xs[k])
  }

  /** Read-back after an upsert: when ids were distinct before, they still
      are, the saved id occurs exactly once, and looking it up yields the
      saved record (with the refreshed timestamp if it replaced one). */
  lemma {:induction false} UpsertRoundTrip<T(!new)>(xs: seq<T>, key: T -> string, x: T, stamped: T)
    requires key(stamped) == key(x)
    requires Unique(Keys(xs, key))
    ensures Unique(Keys(Upsert(xs, key, x, stamped), key))
    ensures Count(Keys(Upsert(xs, key, x, stamped), key), key(x)) == 1
    ensures Find(Upsert(xs, key, x, stamped), key, key(x))
         == Some(if key(x) in Keys(xs, key) then stamped else x)
  {
    var r := Upsert(xs, key, x, stamped);
    var ids := Keys(xs, key);
    if key(x) in ids {
      var k := IndexOf(ids, key(x));
      assert r == xs[k := stamped];
      assert IndexOf(Keys(r, key), key(x)) == k;
    } else {
      KeysAppend(xs, x, key);
      var rids := Keys(r, key);
      assert rids == ids + [key(x)];
      UniqueAppend(ids, key(x));
      assert IndexOf(rids, key(x)) == |ids|;
    }
    UniqueCount(Keys(r, key), key(x));
  }

  /** What `block.position = index` does to one block; the storage also
      sets `updatedAt` (`stamp`), the store does not (`None`). */
  function Repositioned(b: Block, position: int, stamp: Option<string>): (r: Block)
    ensures r == b.(position := position, updatedAt := r.updatedAt)
    ensures stamp.Some? ==> r.updatedAt == stamp.value
    ensures stamp.None? ==> r.updatedAt == b.updatedAt
  {
    b.(position := position, updatedAt := stamp.GetOr(b.updatedAt))
  }

  /** One step of the reorder loop: the first block with id `id`, if any,
      gets `position`. */
  function SetPosition(bs: seq<Block>, id: string, position: int, stamp: Option<string>): (r: seq<Block>)
    ensures |r| == |bs| && Keys(r, BlockKey) == Keys(bs, BlockKey)
    ensures id !in Keys(bs, BlockKey) ==> r == bs
    ensures id in Keys(bs, BlockKey) ==>
      var k := IndexOf(Keys(bs, BlockKey), id);
      r[k] == Repositioned(bs[k], position, stamp) && forall i :: 0 <= i < |bs| && i != k ==> r[i] == bs[i]
  {
    var k := IndexOf(Keys(bs, BlockKey), id);
    if k < 0 then bs
    else
      assert Keys(bs[k := Repositioned(bs[k], position, stamp)], BlockKey) == Keys(bs, BlockKey);
      bs[k := Repositioned(bs[k], position, stamp)]
  }

  /** `ids.forEach((id, index) => { find id; set its position to index })`:
      the loop folded over the listed ids, first to last. */
  function Reposition(bs: seq<Block>, ids: seq<string>, stamp: Option<string>): (r: seq<Block>)
    ensures |r| == |bs| && Keys(r, BlockKey) == Keys(bs, BlockKey)
    ensures ids == [] ==> r == bs
    decreases |ids|
  {
    if ids == [] then bs
    else SetPosition(Reposition(bs, ids[..|ids| - 1], stamp), ids[|ids| - 1], |ids| - 1, stamp)
  }

  /** Extending the list of ids by one runs one more step of the loop. */
  lemma RepositionStep(bs: seq<Block>, ids: seq<string>, i: int, stamp: Option<string>)
    requires 0 <= i < |ids|
    ensures Reposition(bs, ids[..i + 1], stamp) == SetPosition(Reposition(bs, ids[..i], stamp), ids[i], i, stamp)
  {
    assert ids[..i + 1][..i] == ids[..i];
  }

  /** The effect of the reorder loop on each block: the first block holding
      a listed id gets the LAST index of that id in the list (later
      iterations overwrite earlier ones); every other block, including
      blocks of other pages that are not listed, is left as it was. The
      page id plays no part. */
  lemma {:induction false} RepositionAt(bs: seq<Block>, ids: seq<string>, stamp: Option<string>, j: int)
    requires 0 <= j < |bs|
    ensures |Reposition(bs, ids, stamp)| == |bs|
    ensures Reposition(bs, ids, stamp)[j]
         == if IndexOf(Keys(bs, BlockKey), bs[j].id) == j && bs[j].id in ids
            then Repositioned(bs[j], LastIndexOf(ids, bs[j].id), stamp)
            else bs[j]
  {
    if ids != [] {
      var n := |ids| - 1;
      var front := ids[..n];
      var prev := Reposition(bs, front, stamp);
      RepositionAt(bs, front, stamp, j);
      var keys := Keys(bs, BlockKey);
      assert Keys(prev, BlockKey) == keys;
      var k := IndexOf(keys, ids[n]);
      assert ids == front + [ids[n]];
      assert Reposition(bs, ids, stamp) == SetPosition(prev, ids[n], n, stamp);
      if bs[j].id == ids[n] {
        assert LastIndexOf(ids, bs[j].id) == n;
      } else {
        assert LastIndexOf(ids, bs[j].id) == LastIndexOf(front, bs[j].id);
        assert bs[j].id in ids <==> bs[j].id in front;
        assert prev[j].id == bs[j].id;
      }
    }
  }

  /** Reordering twice with the same list is the same as reordering once. */
  lemma RepositionIdempotent(bs: seq<Block>, ids: seq<string>, stamp: Option<string>)
    ensures Reposition(Reposition(bs, ids, stamp), ids, stamp) == Reposition(bs, ids, stamp)
  {
    var once := Reposition(bs, ids, stamp);
    var twice := Reposition(once, ids, stamp);
    forall j | 0 <= j < |bs| ensures twice[j] == once[j] {
      RepositionAt(bs, ids, stamp, j);
      RepositionAt(once, ids, stamp, j);
      assert once[j].id == bs[j].id;
    }
  }

  /** The `blockIds.forEach((id, index) => …)` loop of both reorders over a
      copy of the block list: each listed id that `find` locates gets its
      index as position (and the stamp as `updatedAt`, if any). */
  method ApplyPositions(bs: seq<Block>, blockIds: seq<string>, stamp: Option<string>) returns (r: seq<Block>)
    ensures r == Reposition(bs, blockIds, stamp)
  {
    r := bs;
    var i := 0;
    while i < |blockIds|
      invariant 0 <= i <= |blockIds|
      invariant r == Reposition(bs, blockIds[..i], stamp)
    {
      var index := FindIndex(Keys(r, BlockKey), blockIds[i]);
      RepositionStep(bs, blockIds, i, stamp);
      if index >= 0 {
        r := r[index := Repositioned(r[index], i, stamp)];
      }
      i := i + 1;
    }
    assert blockIds[..i] == blockIds;
  }

  /** The pages kept by `deletePage(pageId)`: neither the page itself nor
      its direct children. */
  function KeptAfterPageDelete(pageId: string): Page -> bool
  {
    (p: Page) => p.id != pageId && p.parentId != Some(pageId)
  }

  /** The blocks kept by `deletePage(pageId)`: those not on that page. */
  function NotOnPage(pageId: string): Block -> bool
  {
    (b: Block) => b.pageId != pageId
  }

  /** The blocks kept by the storage's `deleteBlock(blockId)`: neither the
      block nor a block whose `parentBlockId` names it. */
  function KeptAfterBlockDelete(blockId: string): Block -> bool
  {
    (b: Block) => b.id != blockId && b.parentBlockId != Some(blockId)
  }

  /** The storage slots as in-memory values. An empty slot reads as the
      empty list or `None`, as `getPages`, `getBlocks`, `getCurrentPageId`
      and `getGeminiApiKey` read a missing key. */
  class StorageService {
    /** slot "notion_pages" */
    var pages: seq<Page>
    /** slot "notion_blocks" */
    var blocks: seq<Block>
    /** slot "notion_current_page" */
    var currentPageId: Option<string>
    /** slot "notion_gemini_api_key" */
    var geminiApiKey: Option<string>

    constructor ()
      ensures pages == [] && blocks == [] && currentPageId == None && geminiApiKey == None
    {
      pages, blocks := [], [];
      currentPageId, geminiApiKey := None, None;
    }

    method GetPages() returns (ps: seq<Page>)
      ensures ps == pages
    {
      ps := pages;
    }

    /** Upsert by id; a replaced page gets `updatedAt := now`, an appended
        one is stored as given. */
    method SavePage(page: Page, now: string)
      modifies this
      ensures pages == Upsert(old(pages), PageKey, page, page.(updatedAt := now))
      ensures |pages| == if page.id in Keys(old(pages), PageKey) then |old(pages)| else |old(pages)| + 1
      ensures blocks == old(blocks) && currentPageId == old(currentPageId)
      ensures geminiApiKey == old(geminiApiKey)
    {
      var ps := GetPages();
      var index := FindIndex(Keys(ps, PageKey), page.id);
      if index >= 0 {
        ps := ps[index := page.(updatedAt := now)];
      } else {
        ps := ps + [page];
      }
      pages := ps;
    }

    /** Removes the page and its direct children, and the page's own
        blocks; grandchildren and the blocks of removed children stay. */
    method DeletePage(pageId: string)
      modifies this
      ensures pages == Filter(old(pages), KeptAfterPageDelete(pageId))
      ensures forall p :: p in pages <==> p in old(pages) && p.id != pageId && p.parentId != Some(pageId)
      ensures blocks == Filter(old(blocks), NotOnPage(pageId))
      ensures forall b :: b in blocks <==> b in old(blocks) && b.pageId != pageId
      ensures currentPageId == old(currentPageId) && geminiApiKey == old(geminiApiKey)
    {
      var ps := GetPages();
      pages := Filter(ps, KeptAfterPageDelete(pageId));
      var bs := GetBlocks(None);
      blocks := Filter(bs, NotOnPage(pageId));
    }

    /** With a non-empty page id: that page's blocks by position; with none
        (or the empty string, which is falsy): every block as stored. */
    method GetBlocks(pageId: Option<string>) returns (bs: seq<Block>)
      ensures pageId.Some? && pageId.value != "" ==> bs == PageBlocks(blocks, pageId.value)
      ensures pageId.None? || pageId.value == "" ==> bs == blocks
    {
      bs := blocks;
      if pageId.Some? && pageId.value != "" {
        bs := PageBlocks(bs, pageId.value);
      }
    }

    method SaveBlock(block: Block, now: string)
      modifies this
      ensures blocks == Upsert(old(blocks), BlockKey, block, block.(updatedAt := now))
      ensures |blocks| == if block.id in Keys(old(blocks), BlockKey) then |old(blocks)| else |old(blocks)| + 1
      ensures pages == old(pages) && currentPageId == old(currentPageId)
      ensures geminiApiKey == old(geminiApiKey)
    {
      var bs := GetBlocks(None);
      var index := FindIndex(Keys(bs, BlockKey), block.id);
      if index >= 0 {
        bs := bs[index := block.(updatedAt := now)];
      } else {
        bs := bs + [block];
      }
      blocks := bs;
    }

    /** Removes the block and every block whose `parentBlockId` names it. */
    method DeleteBlock(blockId: string)
      modifies this
      ensures blocks == Filter(old(blocks), KeptAfterBlockDelete(blockId))
      ensures forall b :: b in blocks <==>
                b in old(blocks) && b.id != blockId && b.parentBlockId != Some(blockId)
      ensures pages == old(pages) && currentPageId == old(currentPageId)
      ensures geminiApiKey == old(geminiApiKey)
    {
      var bs := GetBlocks(None);
      blocks := Filter(bs, KeptAfterBlockDelete(blockId));
    }

    /** Each listed id that is found gets its index as position and `now`
        as `updatedAt`; `_pageId` is ignored. */
    method UpdateBlockPositions(pageId: string, blockIds: seq<string>, now: string)
      modifies this
      ensures blocks == Reposition(old(blocks), blockIds, Some(now))
      ensures pages == old(pages) && currentPageId == old(currentPageId)
      ensures geminiApiKey == old(geminiApiKey)
    {
      var bs := GetBlocks(None);
      bs := ApplyPositions(bs, blockIds, Some(now));
      blocks := bs;
    }

    method GetCurrentPageId() returns (id: Option<string>)
      ensures id == currentPageId
    {
      id := currentPageId;
    }

    method SetCurrentPageId(pageId: string)
      modifies this
      ensures currentPageId == Some(pageId)
      ensures pages == old(pages) && blocks == old(blocks) && geminiApiKey == old(geminiApiKey)
    {
      currentPageId := Some(pageId);
    }

    method GetGeminiApiKey() returns (key: Option<string>)
      ensures key == geminiApiKey
    {
      key := geminiApiKey;
    }

    method SetGeminiApiKey(apiKey: string)
      modifies this
      ensures geminiApiKey == Some(apiKey)
      ensures pages == old(pages) && blocks == old(blocks) && currentPageId == old(currentPageId)
    {
      geminiApiKey := Some(apiKey);
    }
  }
}
