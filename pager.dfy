/**
 * `resolve`, `next` and the state they share (`list`, `offset`, the card grid
 * and the "Load more" wrapper). `resolve` turns the configured pages into work
 * items; `next` dispatches the next batch of up to `SIZE` items, appending one
 * placeholder per item; each placeholder later settles into a card or is
 * removed, when its fetch completes (`Complete`).
 */
module Pager {
  import opened Wrappers
  import opened JsValues
  import opened Urls
  import opened Cache
  import opened Fetch
  import opened Cards

  /** How many cards one "Load more" click adds. */
  const SIZE: nat := 9

  /** A work item: an organisation page (kept as its URL) or a repository endpoint. */
  datatype WorkItem = OrgItem(url: string) | RepoItem(key: string)

  /** What `resolve` maps one configured page to. */
  function Classify(url: string): WorkItem {
    if Orgp(url) then OrgItem(url) else RepoItem(Api(url))
  }

  /** `resolve()`: one work item per configured page, in the same order. */
  function Resolve(urls: seq<string>): (items: seq<WorkItem>)
    ensures |items| == |urls|
    ensures forall i :: 0 <= i < |urls| ==> items[i] == Classify(urls[i])
  {
    if urls == [] then [] else [Classify(urls[0])] + Resolve(urls[1..])
  }

  /** The URL `next` hands to `cached` for an item. */
  function Endpoint(item: WorkItem): string {
    match item
    case OrgItem(url) => Ourl(url)
    case RepoItem(key) => key
  }

  /** An organisation page becomes an organisation item fetched from `/orgs/<name>`. */
  lemma ClassifyOrgPage(name: string, slash: bool)
    requires |name| > 0 && NoSlash(name)
    ensures Classify(OrgPage(name, slash)) == OrgItem(OrgPage(name, slash))
    ensures Endpoint(Classify(OrgPage(name, slash))) == OrgApiBase + name
  {
    SlugOfOrgPage(name, slash);
  }

  /** A repository page (owner other than `orgs`) becomes a repository item for `/repos/<owner>/<name>`. */
  lemma ClassifyRepoPage(owner: string, name: string, slash: bool)
    requires |name| > 0 && NoSlash(owner) && NoSlash(name) && owner != "orgs"
    ensures Classify(RepoPage(owner, name, slash)) == RepoItem(RepoApiBase + owner + "/" + name)
  {
    RepoPageIsNotOrg(owner, name, slash);
    ApiOfRepoPage(owner, name, slash);
  }

  /** A card slot in the grid: loading, showing a card, or removed after a failure. */
  datatype Slot = Loading | Rendered(view: View, color: string) | Removed

  /** One node of the grid and the item it was created for. */
  datatype Node = Node(item: WorkItem, slot: Slot)

  /** The placeholders `next` appends for a batch. */
  function Placeholders(batch: seq<WorkItem>): (nodes: seq<Node>)
    ensures |nodes| == |batch|
    ensures forall k :: 0 <= k < |batch| ==> nodes[k] == Node(batch[k], Loading)
  {
    if batch == [] then [] else [Node(batch[0], Loading)] + Placeholders(batch[1..])
  }

  /** The offset after one `next`: `list.slice(offset, offset + SIZE)` has this many items fewer to go. */
  function Advance(len: nat, offset: nat): nat {
    if len <= offset then offset
    else if offset + SIZE <= len then offset + SIZE
    else len
  }

  /** The card builder for an item's kind. */
  function Render(item: WorkItem, payload: Json): Result<View, RenderError> {
    match item
    case OrgItem(_) => OrgCard(payload)
    case RepoItem(_) => RepoCard(payload)
  }

  /**
   * What a placeholder becomes once its fetch settles: removed when the fetch
   * rejects or the builder throws (both reach the `.catch`), otherwise the card.
   */
  function Settle(item: WorkItem, fetched: Result<Json, FetchError>, color: string): (s: Slot)
    ensures s != Loading
    ensures s.Removed? <==> fetched.Failure? || Render(item, fetched.value).Failure?
    ensures s.Rendered? ==> s.view == Render(item, fetched.value).value && s.color == color
  {
    match fetched
    case Failure(_) => Removed
    case Success(payload) =>
      match Render(item, payload)
      case Failure(_) => Removed
      case Success(view) => Rendered(view, color)
  }

  /** The page's pagination state. */
  class Pager {
    var list: seq<WorkItem>
    var offset: nat
    var grid: seq<Node>
    var hidden: bool

    /**
     * The grid holds one node per dispatched item, in list order, and the
     * "Load more" wrapper is hidden only when every item has been dispatched.
     * This much also holds between `list = resolved` and the first `next()`.
     */
    ghost predicate Tracked()
      reads this
    {
      && offset <= |list|
      && |grid| == offset
      && (forall k :: 0 <= k < |grid| ==> grid[k].item == list[k])
      && (hidden ==> offset == |list|)
    }

    /** Tracked, and the wrapper is hidden exactly when every item has been dispatched. */
    ghost predicate Valid()
      reads this
    {
      Tracked() && (offset == |list| ==> hidden)
    }

    /**
     * Start-up: `list = resolved; next(); if (list.length <= SIZE) hide`.
     * The first batch is dispatched, and the wrapper is hidden exactly when
     * that batch was the whole list.
     */
    constructor Boot(urls: seq<string>)
      ensures Valid()
      ensures list == Resolve(urls)
      ensures offset == Advance(|list|, 0)
      ensures grid == Placeholders(list[..offset])
      ensures hidden <==> |list| <= SIZE
    {
      list := Resolve(urls);
      offset := 0;
      grid := [];
      hidden := false;
      new;
      Next();
      if |list| <= SIZE {
        hidden := true;
      }
    }

    /**
     * `next()`: takes the next batch, advances `offset` by its length, appends
     * one placeholder per item in list order, and hides the wrapper once
     * `offset >= list.length`. On an exhausted list nothing changes.
     */
    method Next()
      requires Tracked()
      modifies this
      ensures Valid()
      ensures list == old(list)
      ensures offset == Advance(|list|, old(offset))
      ensures grid == old(grid) + Placeholders(list[old(offset)..offset])
      ensures hidden == (old(hidden) || offset >= |list|)
    {
      var end := if offset + SIZE <= |list| then offset + SIZE else |list|;
      var slice := list[offset..end];
      offset := offset + |slice|;
      var j := 0;
      while j < |slice|
        invariant 0 <= j <= |slice|
        invariant list == old(list) && hidden == old(hidden) && offset == old(offset) + |slice|
        invariant grid == old(grid) + Placeholders(slice[..j])
      {
        assert slice[..j + 1] == slice[..j] + [slice[j]];
        PlaceholdersAppend(slice[..j], slice[j]);
        grid := grid + [Node(slice[j], Loading)];
        j := j + 1;
      }
      assert slice[..j] == slice;
      PlaceholdersExtend(list, old(grid), old(offset), offset);
      if offset >= |list| {
        hidden := true;
      }
    }

    /**
     * The fetch for grid node `k` settles: the item's endpoint goes through
     * `cached`, then the placeholder becomes the card, or is removed when the
     * fetch rejects or the builder throws. No other node, and no pager field
     * but the grid, changes.
     */
    method Complete(k: nat, store: Store, now: int, reply: Reply, later: int, accepted: bool, color: string)
      requires Valid() && k < |grid| && grid[k].slot == Loading
      modifies this, store
      ensures Valid()
      ensures list == old(list) && offset == old(offset) && hidden == old(hidden)
      ensures var item := old(grid[k].item);
        grid == old(grid)[k := Node(item, Settle(item, CachedResult(old(store.items), Endpoint(item), now, reply), color))]
      ensures store.items == StoreAfter(old(store.items), Endpoint(old(grid[k].item)), now, reply, later, accepted)
    {
      var item := grid[k].item;
      var fetched, _ := Cached(store, Endpoint(item), now, reply, later, accepted);
      grid := grid[k := Node(item, Settle(item, fetched, color))];
    }
  }

  lemma PlaceholdersAppend(batch: seq<WorkItem>, item: WorkItem)
    ensures Placeholders(batch + [item]) == Placeholders(batch) + [Node(item, Loading)]
  {
  }

  /** Appending the placeholders of the next items keeps the grid in step with the list. */
  lemma PlaceholdersExtend(list: seq<WorkItem>, grid: seq<Node>, from: nat, to: nat)
    requires from <= to <= |list| && |grid| == from
    requires forall k :: 0 <= k < from ==> grid[k].item == list[k]
    ensures |grid + Placeholders(list[from..to])| == to
    ensures forall k :: 0 <= k < to ==> (grid + Placeholders(list[from..to]))[k].item == list[k]
  {
    var extended := grid + Placeholders(list[from..to]);
    forall k | from <= k < to
      ensures extended[k].item == list[k]
    {
      assert extended[k] == Placeholders(list[from..to])[k - from];
    }
  }

  /** The offset after `calls` calls of `next` from the start. */
  function OffsetAfter(len: nat, calls: nat): nat {
    if calls == 0 then 0 else Advance(len, OffsetAfter(len, calls - 1))
  }

  /** How many calls of `next` the list needs: the ceiling of `len / SIZE`. */
  function Batches(len: nat): nat {
    (len + SIZE - 1) / SIZE
  }

  /** Each call dispatches a full batch until fewer than `SIZE` items remain. */
  lemma {:induction false} OffsetAfterCalls(len: nat, calls: nat)
    ensures OffsetAfter(len, calls) == if calls * SIZE <= len then calls * SIZE else len
  {
    if calls > 0 {
      OffsetAfterCalls(len, calls - 1);
    }
  }

  /** `Batches(len)` batches of `SIZE` hold `len` items, and one batch fewer does not. */
  lemma BatchesBounds(len: nat)
    ensures len <= Batches(len) * SIZE
    ensures len > 0 ==> Batches(len) > 0 && (Batches(len) - 1) * SIZE < len
    ensures len % SIZE == 0 ==> Batches(len) == len / SIZE
    ensures len % SIZE != 0 ==> Batches(len) == len / SIZE + 1
  {
    var q, m := len / SIZE, len % SIZE;
    assert len == q * SIZE + m;
    if m == 0 {
      assert len + SIZE - 1 == q * SIZE + (SIZE - 1);
    } else {
      assert len + SIZE - 1 == (q + 1) * SIZE + (m - 1);
    }
  }

  /**
   * `Batches(len)` calls dispatch the whole list and fewer do not, so the
   * wrapper becomes hidden exactly at that call; later calls change nothing.
   */
  lemma ExhaustedAfterBatches(len: nat)
    ensures OffsetAfter(len, Batches(len)) == len
    ensures forall calls: nat :: calls < Batches(len) ==> OffsetAfter(len, calls) < len
    ensures forall calls: nat :: calls >= Batches(len) ==> OffsetAfter(len, calls) == len
  {
    BatchesBounds(len);
    forall calls: nat
      ensures OffsetAfter(len, calls) == if calls * SIZE <= len then calls * SIZE else len
    {
      OffsetAfterCalls(len, calls);
    }
  }

  /** The last batch has `len % SIZE` items, or `SIZE` when `SIZE` divides `len`. */
  lemma LastBatchSize(len: nat)
    requires len > 0
    ensures Batches(len) > 0
    ensures len - OffsetAfter(len, Batches(len) - 1) == if len % SIZE == 0 then SIZE else len % SIZE
  {
    BatchesBounds(len);
    OffsetAfterCalls(len, Batches(len) - 1);
  }
}
