/**
 * The list handler `s3_get_thumbnails_urls`: scan the metadata table page by
 * page, following each page's continuation key, and return every item.
 */
module ScanHandler {
  import opened Wrappers
  import opened Invocations

  /** One page of a scan: its items and, when more follow, the key to continue after. */
  datatype Page = Page(items: seq<Item>, lastEvaluatedKey: Option<string>)

  /**
   * The table's paging guarantee: the pages it serves, in order, include one
   * that carries no continuation key.
   */
  predicate Terminates(pages: seq<Page>) {
    exists i :: 0 <= i < |pages| && pages[i].lastEvaluatedKey.None?
  }

  /** Index of the first page without a continuation key: where scanning stops. */
  function LastPage(pages: seq<Page>): (n: nat)
    requires Terminates(pages)
    ensures n < |pages| && pages[n].lastEvaluatedKey.None?
    ensures forall j :: 0 <= j < n ==> pages[j].lastEvaluatedKey.Some?
  {
    if pages[0].lastEvaluatedKey.None? then 0
    else
      var i :| 0 <= i < |pages| && pages[i].lastEvaluatedKey.None?;
      assert pages[1..][i - 1] == pages[i];
      1 + LastPage(pages[1..])
  }

  /** The items of `pages`, page after page. */
  function Flatten(pages: seq<Page>): seq<Item> {
    if |pages| == 0 then [] else pages[0].items + Flatten(pages[1..])
  }

  /** Total number of items the pages hold. */
  function ItemCount(pages: seq<Page>): nat {
    if |pages| == 0 then 0 else |pages[0].items| + ItemCount(pages[1..])
  }

  /** Appending a page appends its items. */
  lemma {:induction false} FlattenSnoc(pages: seq<Page>, p: Page)
    ensures Flatten(pages + [p]) == Flatten(pages) + p.items
  {
    if |pages| == 0 {
      assert [p][1..] == [];
    } else {
      assert (pages + [p])[1..] == pages[1..] + [p];
      FlattenSnoc(pages[1..], p);
    }
  }

  /** The flattened items are as many as the pages hold. */
  lemma {:induction false} FlattenLength(pages: seq<Page>)
    ensures |Flatten(pages)| == ItemCount(pages)
  {
    if |pages| > 0 {
      FlattenLength(pages[1..]);
    }
  }

  /** Item `k` of page `i` sits in the flattened list after every item of the pages before it. */
  lemma {:induction false} FlattenPosition(pages: seq<Page>, i: nat, k: nat)
    requires i < |pages| && k < |pages[i].items|
    ensures ItemCount(pages[..i]) + k < |Flatten(pages)|
    ensures Flatten(pages)[ItemCount(pages[..i]) + k] == pages[i].items[k]
  {
    FlattenLength(pages);
    if i == 0 {
      assert pages[..0] == [];
    } else {
      assert pages[1..][..i - 1] == pages[..i][1..];
      FlattenPosition(pages[1..], i - 1, k);
    }
  }

  /**
   * `s3_get_thumbnails_urls` against a table that serves `pages` in order:
   * one scan without a start key, then one scan per continuation key.
   */
  method ListThumbnails(pages: seq<Page>) returns (inv: Invocation)
    requires Terminates(pages)
    ensures inv.reply == Respond(200, Many(Flatten(pages[..LastPage(pages) + 1])))
    ensures |inv.calls| == LastPage(pages) + 1
    ensures inv.calls[0] == Scan(None)
    ensures forall j :: 0 < j < |inv.calls| ==> inv.calls[j] == Scan(pages[j - 1].lastEvaluatedKey)
  {
    var response := pages[0];
    var data := response.items;
    var calls := [Scan(None)];
    var i := 1;
    assert pages[..1] == [] + [pages[0]];
    FlattenSnoc([], pages[0]);
    while response.lastEvaluatedKey.Some?
      invariant 1 <= i <= LastPage(pages) + 1
      invariant response == pages[i - 1]
      invariant data == Flatten(pages[..i])
      invariant |calls| == i && calls[0] == Scan(None)
      invariant forall j :: 0 < j < i ==> calls[j] == Scan(pages[j - 1].lastEvaluatedKey)
      decreases LastPage(pages) + 1 - i
    {
      calls := calls + [Scan(response.lastEvaluatedKey)];
      response := pages[i];
      assert pages[..i + 1] == pages[..i] + [response];
      FlattenSnoc(pages[..i], response);
      data := data + response.items;
      i := i + 1;
    }
    inv := Invocation(Respond(200, Many(data)), calls);
  }

  /**
   * The listed items are those of every scanned page, in page order: the list
   * is as long as the scanned pages hold, and item `k` of scanned page `i`
   * appears after all items of the pages before it.
   */
  lemma ListedItemsInPageOrder(pages: seq<Page>, i: nat, k: nat)
    requires Terminates(pages)
    requires i <= LastPage(pages) && k < |pages[i].items|
    ensures var scanned := pages[..LastPage(pages) + 1];
      && |Flatten(scanned)| == ItemCount(scanned)
      && ItemCount(pages[..i]) + k < |Flatten(scanned)|
      && Flatten(scanned)[ItemCount(pages[..i]) + k] == pages[i].items[k]
  {
    var scanned := pages[..LastPage(pages) + 1];
    FlattenLength(scanned);
    assert scanned[..i] == pages[..i];
    FlattenPosition(scanned, i, k);
  }
}
