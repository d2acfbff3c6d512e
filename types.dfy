/** The records of the note store: pages, blocks and their content, and
    the partial updates that `updatePage` and `updateBlock` merge into them. */
module Types {

  /** An optional field or an absent value (`undefined` / `null`). */
  datatype Option<T> = None | Some(value: T)
  {
    /** `x ?? default` */
    function GetOr(default: T): T
    {
      match this
      case Some(v) => v
      case None => default
    }
  }

  /** The eight kinds of block. */
  datatype BlockType =
    | Paragraph
    | Heading1
    | Heading2
    | Heading3
    | Bullet
    | Numbered
    | Checkbox
    | Code

  /** What a block holds: its text, the tick of a checkbox block and the
      language of a code block. */
  datatype BlockContent = BlockContent(text: string, checked: Option<bool>, language: Option<string>)

  /** A content unit of a page. Timestamps are ISO-8601 strings, ids are
      opaque strings. */
  datatype Block = Block(
    id: string,
    pageId: string,
    blockType: BlockType,
    content: BlockContent,
    position: int,
    parentBlockId: Option<string>,
    createdAt: string,
    updatedAt: string)

  /** A node of the page tree; `parentId == None` marks a root page. */
  datatype Page = Page(
    id: string,
    title: string,
    icon: Option<string>,
    cover: Option<string>,
    parentId: Option<string>,
    position: int,
    createdAt: string,
    updatedAt: string)

  function PageKey(p: Page): string { p.id }
  function BlockKey(b: Block): string { b.id }
  function PagePosition(p: Page): int { p.position }
  function BlockPosition(b: Block): int { b.position }

  /** A `Partial<Page>` update object. A field is `None` when the object
      does not mention it; an optional field mentioned with the value
      `undefined` is `Some(None)`, which clears it. The id is not
      updatable, and `updatedAt` is always overwritten by the merge. */
  datatype PagePatch = PagePatch(
    title: Option<string>,
    icon: Option<Option<string>>,
    cover: Option<Option<string>>,
    parentId: Option<Option<string>>,
    position: Option<int>,
    createdAt: Option<string>)

  /** A `Partial<Block>` update object, read as `PagePatch` is. `content`
      is replaced as a whole: the spread is shallow. */
  datatype BlockPatch = BlockPatch(
    pageId: Option<string>,
    blockType: Option<BlockType>,
    content: Option<BlockContent>,
    position: Option<int>,
    parentBlockId: Option<Option<string>>,
    createdAt: Option<string>)

  const NoPageChanges := PagePatch(None, None, None, None, None, None)
  const NoBlockChanges := BlockPatch(None, None, None, None, None, None)

  /** `{ ...p, ...u, updatedAt: now }` */
  function MergePage(p: Page, u: PagePatch, now: string): (r: Page)
    ensures r.id == p.id && r.updatedAt == now
    ensures r.title == if u.title.Some? then u.title.value else p.title
    ensures r.icon == if u.icon.Some? then u.icon.value else p.icon
    ensures r.cover == if u.cover.Some? then u.cover.value else p.cover
    ensures r.parentId == if u.parentId.Some? then u.parentId.value else p.parentId
    ensures r.position == if u.position.Some? then u.position.value else p.position
    ensures r.createdAt == if u.createdAt.Some? then u.createdAt.value else p.createdAt
    ensures u == NoPageChanges ==> r == p.(updatedAt := now)
  {
    Page(
      p.id,
      u.title.GetOr(p.title),
      u.icon.GetOr(p.icon),
      u.cover.GetOr(p.cover),
      u.parentId.GetOr(p.parentId),
      u.position.GetOr(p.position),
      u.createdAt.GetOr(p.createdAt),
      now)
  }

  /** `{ ...b, ...u, updatedAt: now }` */
  function MergeBlock(b: Block, u: BlockPatch, now: string): (r: Block)
    ensures r.id == b.id && r.updatedAt == now
    ensures r.pageId == if u.pageId.Some? then u.pageId.value else b.pageId
    ensures r.blockType == if u.blockType.Some? then u.blockType.value else b.blockType
    ensures r.content == if u.content.Some? then u.content.value else b.content
    ensures r.position == if u.position.Some? then u.position.value else b.position
    ensures r.parentBlockId == if u.parentBlockId.Some? then u.parentBlockId.value else b.parentBlockId
    ensures r.createdAt == if u.createdAt.Some? then u.createdAt.value else b.createdAt
    ensures u == NoBlockChanges ==> r == b.(updatedAt := now)
  {
    Block(
      b.id,
      u.pageId.GetOr(b.pageId),
      u.blockType.GetOr(b.blockType),
      u.content.GetOr(b.content),
      u.position.GetOr(b.position),
      u.parentBlockId.GetOr(b.parentBlockId),
      u.createdAt.GetOr(b.createdAt),
      now)
  }

  /** Applying the same update twice is the same as applying it once. */
  lemma MergePageIdempotent(p: Page, u: PagePatch, now: string)
    ensures MergePage(MergePage(p, u, now), u, now) == MergePage(p, u, now)
  {
  }

  lemma MergeBlockIdempotent(b: Block, u: BlockPatch, now: string)
    ensures MergeBlock(MergeBlock(b, u, now), u, now) == MergeBlock(b, u, now)
  {
  }

  /** Clearing the cover, as "Remove cover" does with `{ cover: undefined }`,
      leaves the page without a cover and with every other field kept. */
  lemma ClearCover(p: Page, now: string)
    ensures var r := MergePage(p, NoPageChanges.(cover := Some(None)), now);
      r.cover == None && r == p.(cover := None, updatedAt := now)
  {
  }
}
