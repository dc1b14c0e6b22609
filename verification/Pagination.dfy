/** GraphQLClient.fetchPaginatedResults: ask for one page after the last id seen, until a page is short. */
module Pagination {

  /** Ids are compared as strings, character by character. */
  predicate Less(a: string, b: string) {
    b != [] && (a == [] || a[0] < b[0] || (a[0] == b[0] && Less(a[1..], b[1..])))
  }

  datatype Item<T> = Item(id: string, data: T)

  ghost predicate AllBeyond<T>(id: string, items: seq<Item<T>>) {
    forall i :: 0 <= i < |items| ==> Less(id, items[i].id)
  }

  /** The server's collection: in id order, without repetitions. */
  ghost predicate Sorted<T>(items: seq<Item<T>>) {
    items == [] || (AllBeyond(items[0].id, items[1..]) && Sorted(items[1..]))
  }

  /** All items with an id beyond `lastId`, in order. */
  function Beyond<T>(items: seq<Item<T>>, lastId: string): seq<Item<T>> {
    if items == [] then []
    else (if Less(lastId, items[0].id) then [items[0]] else []) + Beyond(items[1..], lastId)
  }

  /** The server's answer: the first `pageSize` of them. */
  function Page<T>(items: seq<Item<T>>, lastId: string, pageSize: nat): seq<Item<T>> {
    var found := Beyond(items, lastId);
    if |found| <= pageSize then found else found[..pageSize]
  }

  lemma {:induction false} LessAsymmetric(a: string, b: string)
    ensures Less(a, b) ==> !Less(b, a) && a != b
  {
    if a != [] && b != [] && a[0] == b[0] {
      LessAsymmetric(a[1..], b[1..]);
    }
  }

  /** Asking beyond the id of an item returns what follows the item. */
  lemma {:induction false} BeyondItem<T>(items: seq<Item<T>>, k: nat)
    requires Sorted(items) && k < |items|
    ensures Beyond(items, items[k].id) == items[k + 1..]
  {
    LessAsymmetric(items[0].id, items[k].id);
    if k > 0 {
      assert items[k] == items[1..][k - 1];
      BeyondItem(items[1..], k - 1);
    } else {
      BeyondAll(items[1..], items[0].id);
    }
  }

  lemma {:induction false} BeyondAll<T>(items: seq<Item<T>>, id: string)
    requires AllBeyond(id, items)
    ensures Beyond(items, id) == items
  {
    if items != [] {
      BeyondAll(items[1..], id);
    }
  }

  lemma BeyondStart<T>(items: seq<Item<T>>)
    requires Sorted(items)
    ensures Beyond(items, "") == if items != [] && items[0].id == "" then items[1..] else items
  {
    if items != [] {
      forall i | 0 <= i < |items[1..]| ensures Less("", items[1..][i].id) {
        assert Less(items[0].id, items[1..][i].id);
      }
      BeyondAll(items[1..], "");
    }
  }

  /** The collection arrives complete exactly if no item has the empty id, from which the first page starts. */
  lemma WholeCollection<T>(items: seq<Item<T>>)
    requires Sorted(items)
    ensures Beyond(items, "") == items <==> forall i :: 0 <= i < |items| ==> items[i].id != ""
  {
    BeyondStart(items);
    if items != [] && items[0].id != "" {
      forall i | 0 <= i < |items| ensures items[i].id != "" {
        if i > 0 {
          assert items[i] == items[1..][i - 1];
          assert Less(items[0].id, items[1..][i - 1].id);
        }
      }
    }
  }

  /** Where the page that follows the first `n` of `total` items ends. */
  function PageEnd(n: nat, total: nat, pageSize: nat): nat {
    if n + pageSize >= total then total else n + pageSize
  }

  /** After the first `n` items, all the others are beyond the last id seen. */
  lemma RestBeyond<T>(items: seq<Item<T>>, all: seq<Item<T>>, n: nat)
    requires Sorted(items) && all == Beyond(items, "") && 0 < n <= |all|
    ensures Beyond(items, all[n - 1].id) == all[n..]
  {
    BeyondStart(items);
    var k := n - 1 + if all == items then 0 else 1;
    assert items[k] == all[n - 1] && items[k + 1..] == all[n..];
    BeyondItem(items, k);
  }

  /** The next page starts with item number `n`. */
  lemma NextPage<T>(items: seq<Item<T>>, all: seq<Item<T>>, n: nat, lastId: string, pageSize: nat)
    requires Sorted(items) && all == Beyond(items, "") && n <= |all|
    requires lastId == if n == 0 then "" else all[n - 1].id
    ensures Page(items, lastId, pageSize) == all[n..PageEnd(n, |all|, pageSize)]
  {
    if n > 0 {
      RestBeyond(items, all, n);
    }
  }

  /** `lastId` is where the query for item number `n` and its successors has to start. */
  predicate Cursor<T>(all: seq<Item<T>>, n: nat, lastId: string) {
    n <= |all| && lastId == if n == 0 then "" else all[n - 1].id
  }

  /** One query, `n` items into the collection: the server's page and what it amounts to. */
  method SendQuery<T>(collection: seq<Item<T>>, lastId: string, pageSize: nat, ghost all: seq<Item<T>>, ghost n: nat)
    returns (items: seq<Item<T>>)
    requires Sorted(collection) && all == Beyond(collection, "")
    requires Cursor(all, n, lastId)
    ensures all[..n] + items == all[..PageEnd(n, |all|, pageSize)]
    ensures |items| == PageEnd(n, |all|, pageSize) - n
    ensures items != [] ==> Cursor(all, PageEnd(n, |all|, pageSize), items[|items| - 1].id)
  {
    NextPage(collection, all, n, lastId, pageSize);
    items := Page(collection, lastId, pageSize);
  }

  datatype Fetched<T> = Fetched(items: seq<Item<T>>) | TypeError

  /** The loop ends and yields everything beyond the empty id exactly once, in order, whatever the page
      size; an exact divisor of the total costs one more, empty, page. With pages of size zero it fails
      when it looks for the last item of an empty page. */
  method FetchPaginatedResults<T>(collection: seq<Item<T>>, pageSize: nat) returns (result: Fetched<T>)
    requires Sorted(collection)
    ensures result == if pageSize == 0 then TypeError else Fetched(Beyond(collection, ""))
  {
    ghost var all := Beyond(collection, "");
    var yielded: seq<Item<T>> := [];
    var last: seq<Item<T>> := [];
    var first := true;
    ghost var n := 0;
    while true
      invariant n <= |all| && yielded == all[..n]
      invariant if first then n == 0 else |last| == pageSize && (last != [] ==> Cursor(all, n, last[|last| - 1].id))
      decreases |all| - n, first
    {
      if !first && |last| == 0 {
        return TypeError;
      }
      var lastId := if first then "" else last[|last| - 1].id;
      var items := SendQuery(collection, lastId, pageSize, all, n);
      n := PageEnd(n, |all|, pageSize);
      yielded := yielded + items;
      last := items;
      first := false;
      if |last| != pageSize {
        assert yielded == all;
        return Fetched(yielded);
      }
    }
  }

  /** An item with the empty id is lost on the way, whatever the page size. */
  lemma EmptyIdLost<T>(data: T)
    ensures var collection := [Item("", data)];
            Sorted(collection) && Beyond(collection, "") == []
  {
    assert Sorted([Item("", data)][1..]);
  }
}
