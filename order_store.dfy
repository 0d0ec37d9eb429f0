// What the client relies on from the backing store's `music_orders` table:
// the listing `select('*').eq('user_id', uid).order('created_at',
// { ascending: false })`, `delete().eq('id', id)` and
// `update(payload).eq('id', id)`. The store itself is remote; this module
// states the contract of those three calls over the table's rows, and gives
// one listing that meets the contract.
module OrderStore {
  import opened Orders

  /** The rows of `music_orders`, in no particular order. */
  type Store = seq<OrderRow>

  /** The rows whose `user_id` is `uid`, in table order. */
  function OwnedBy(store: Store, uid: UserId): (r: seq<OrderRow>)
    ensures forall o :: o in r <==> o in store && o.userId == uid
    ensures |r| <= |store|
  {
    if store == [] then []
    else if store[0].userId == uid then [store[0]] + OwnedBy(store[1..], uid)
    else OwnedBy(store[1..], uid)
  }

  /** Newest first: `created_at` never increases along the sequence. */
  predicate NewestFirst(rows: seq<OrderRow>) {
    forall i, j :: 0 <= i < j < |rows| ==> rows[i].createdAt >= rows[j].createdAt
  }

  /** `rows` is a correct answer to the listing for `uid`: exactly the rows
      the user owns, each as often as the table holds it, newest first. */
  predicate IsListing(store: Store, uid: UserId, rows: seq<OrderRow>) {
    multiset(rows) == multiset(OwnedBy(store, uid)) && NewestFirst(rows)
  }

  /** Places `o` in front of the first row that is not newer than it. */
  function InsertNewest(o: OrderRow, rows: seq<OrderRow>): (r: seq<OrderRow>)
    ensures multiset(r) == multiset(rows) + multiset{o}
    ensures forall x :: x in r <==> x == o || x in rows
  {
    if rows == [] || o.createdAt >= rows[0].createdAt then [o] + rows
    else
      assert rows == [rows[0]] + rows[1..];
      [rows[0]] + InsertNewest(o, rows[1..])
  }

  lemma {:induction false} InsertNewestSorted(o: OrderRow, rows: seq<OrderRow>)
    requires NewestFirst(rows)
    ensures NewestFirst(InsertNewest(o, rows))
  {
    if rows != [] && o.createdAt < rows[0].createdAt {
      var tail := InsertNewest(o, rows[1..]);
      InsertNewestSorted(o, rows[1..]);
      forall k | 0 <= k < |tail| ensures rows[0].createdAt >= tail[k].createdAt {
        assert tail[k] in tail;
        if tail[k] != o {
          var m :| 0 <= m < |rows[1..]| && rows[1..][m] == tail[k];
          assert rows[m + 1] == tail[k];
        }
      }
      var r := [rows[0]] + tail;
      forall i, j | 0 <= i < j < |r| ensures r[i].createdAt >= r[j].createdAt {
        if i == 0 {
          assert r[j] == tail[j - 1];
        } else {
          assert r[i] == tail[i - 1] && r[j] == tail[j - 1];
        }
      }
    }
  }

  /** Insertion sort, newest first. */
  function SortNewest(rows: seq<OrderRow>): (r: seq<OrderRow>)
    ensures multiset(r) == multiset(rows)
    ensures NewestFirst(r)
  {
    if rows == [] then []
    else
      assert rows == [rows[0]] + rows[1..];
      InsertNewestSorted(rows[0], SortNewest(rows[1..]));
      InsertNewest(rows[0], SortNewest(rows[1..]))
  }

  /** One answer the store may give to the listing for `uid`. */
  function Listing(store: Store, uid: UserId): (r: seq<OrderRow>)
    ensures IsListing(store, uid, r)
  {
    SortNewest(OwnedBy(store, uid))
  }

  /** `delete().eq('id', id)`: every row with that id is gone, nothing else. */
  function DeleteRow(store: Store, id: OrderId): (r: Store)
    ensures forall o :: o in r <==> o in store && o.id != id
  {
    if store == [] then []
    else if store[0].id == id then DeleteRow(store[1..], id)
    else [store[0]] + DeleteRow(store[1..], id)
  }

  /** `update(p).eq('id', id)`: every row with that id takes the payload's
      columns, every other row stays as it is. */
  function UpdateRow(store: Store, id: OrderId, p: UpdatePayload): (r: Store)
    ensures |r| == |store|
    ensures forall o :: o in r <==>
      (o in store && o.id != id) ||
      (exists q :: q in store && q.id == id && o == ApplyUpdate(q, p))
  {
    if store == [] then []
    else
      var rest := UpdateRow(store[1..], id, p);
      var row := if store[0].id == id then ApplyUpdate(store[0], p) else store[0];
      assert store == [store[0]] + store[1..];
      [row] + rest
  }

  /** Every listed row belongs to the user and is in the table. */
  lemma ListingOwned(store: Store, uid: UserId, rows: seq<OrderRow>, o: OrderRow)
    requires IsListing(store, uid, rows)
    requires o in rows
    ensures o.userId == uid && o in store
  {
    assert o in multiset(rows);
  }

  /** Every row the user owns is listed. */
  lemma ListingComplete(store: Store, uid: UserId, rows: seq<OrderRow>, o: OrderRow)
    requires IsListing(store, uid, rows)
    requires o in store && o.userId == uid
    ensures o in rows
  {
    assert o in multiset(OwnedBy(store, uid));
  }

  /** After a delete of `id`, no listing shows a row with that id. */
  lemma DeletedNotListed(store: Store, id: OrderId, uid: UserId, rows: seq<OrderRow>)
    requires IsListing(DeleteRow(store, id), uid, rows)
    ensures forall o :: o in rows ==> o.id != id
  {
    forall o | o in rows ensures o.id != id {
      ListingOwned(DeleteRow(store, id), uid, rows, o);
    }
  }

  /** After a delete of `id`, every other row of the user is still listed. */
  lemma OthersStillListed(store: Store, id: OrderId, uid: UserId, rows: seq<OrderRow>, o: OrderRow)
    requires IsListing(DeleteRow(store, id), uid, rows)
    requires o in store && o.userId == uid && o.id != id
    ensures o in rows
  {
    ListingComplete(DeleteRow(store, id), uid, rows, o);
  }

  /** After an update of the user's row `o`, the listing shows the row with
      the payload's columns. */
  lemma UpdatedListed(store: Store, o: OrderRow, p: UpdatePayload, rows: seq<OrderRow>)
    requires o in store
    requires IsListing(UpdateRow(store, o.id, p), o.userId, rows)
    ensures ApplyUpdate(o, p) in rows
  {
    ListingComplete(UpdateRow(store, o.id, p), o.userId, rows, ApplyUpdate(o, p));
  }
}
