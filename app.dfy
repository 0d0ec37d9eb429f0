// How the pieces keep the order list consistent after a write: a row's
// delete or edit reports the write to the page, the page's counter goes up,
// and the list refetches because the counter it receives is positive.
module App {
  import opened Wrappers
  import opened Orders
  import opened OrderStore
  import opened EditOrderModal
  import opened OrderHistory
  import opened HomePage

  /** The table after a delete call with answer `deleteError`. */
  function AfterDelete(store: Store, id: OrderId, deleteError: Option<string>): Store {
    if deleteError.None? then DeleteRow(store, id) else store
  }

  /** A confirmed delete in a row, followed by the page's refetch trigger:
      after a successful delete the list no longer shows the order; after a
      failed one nothing is reported and the list is left as it was. */
  method DeleteFromList(page: Home, list: OrderList, item: OrderItem, ghost store: Store,
                        deleteError: Option<string>, response: SelectResponse)
    returns (ghost newStore: Store)
    requires list.Valid() && item.order.userId == list.user
    requires Answers(AfterDelete(store, item.order.id, deleteError), list.user, response)
    modifies page`refreshCounter, list`orders, list`loading, list`error, item`isDeleting
    ensures newStore == AfterDelete(store, item.order.id, deleteError)
    ensures list.Valid() && !item.isDeleting
    ensures deleteError.None? ==> page.refreshCounter == old(page.refreshCounter) + 1
    ensures deleteError.None? ==> !list.loading
    ensures deleteError.None? && response.Selected? ==>
      list.orders == response.data.GetOr([]) && list.error == None
    ensures deleteError.None? && response.Selected? ==>
      forall o :: o in list.orders ==> o.id != item.order.id
    ensures deleteError.None? && response.SelectFailed? ==>
      list.orders == old(list.orders) && list.error == Some(response.message)
    ensures deleteError.Some? ==>
      page.refreshCounter == old(page.refreshCounter) && list.orders == old(list.orders) &&
      list.loading == old(list.loading) && list.error == old(list.error)
  {
    var request, alert, mutations := item.HandleDelete(true, deleteError);
    newStore := AfterDelete(store, item.order.id, deleteError);
    if mutations == 1 {
      page.HandleOrderMutation();
      var fetched := list.OnRefreshCounter(page.refreshCounter, newStore, response);
      if response.Selected? && response.data.Some? {
        DeletedNotListed(store, item.order.id, list.user, response.data.value);
      }
    }
  }

  /** A submit in a row's edit dialog, followed by the page's refetch
      trigger: after a successful update the list shows the row with the
      submitted columns and the dialog is closed. */
  method EditFromList(page: Home, list: OrderList, item: OrderItem, form: EditForm,
                      ghost store: Store, now: string, updateError: Option<string>,
                      response: SelectResponse)
    returns (request: Option<UpdateRequest>)
    requires list.Valid() && item.order.userId == list.user && item.order in store
    requires form.orderId == item.order.id
    requires SubmitPayload(form.Fields(), now).Some? && updateError.None? ==>
      Answers(UpdateRow(store, item.order.id, SubmitPayload(form.Fields(), now).value),
              list.user, response)
    modifies page`refreshCounter, list`orders, list`loading, list`error
    modifies item`isEditing, form`loading, form`message
    ensures list.Valid()
    ensures request.Some? && updateError.None? ==>
      page.refreshCounter == old(page.refreshCounter) + 1 && !item.isEditing
    ensures request.Some? && updateError.None? && response.Selected? && response.data.Some? ==>
      ApplyUpdate(item.order, request.value.payload) in list.orders
    ensures request.None? || updateError.Some? ==>
      page.refreshCounter == old(page.refreshCounter) && list.orders == old(list.orders)
    ensures request.None? || updateError.Some? ==>
      item.isEditing == old(item.isEditing) && list.loading == old(list.loading) && list.error == old(list.error)
    ensures request.None? ==> form.message == NoGenreMessage && form.loading == old(form.loading)
    ensures request.Some? ==>
      !form.loading && form.message == (if updateError.Some? then ErrorPrefix + updateError.value else UpdatedMessage)
    ensures request.Some? && updateError.None? ==> !list.loading
    ensures request.Some? && updateError.None? && response.Selected? ==>
      list.orders == response.data.GetOr([]) && list.error == None
    ensures request.Some? && updateError.None? && response.SelectFailed? ==>
      list.orders == old(list.orders) && list.error == Some(response.message)
  {
    ghost var payload := SubmitPayload(form.Fields(), now);
    var mutations;
    request, mutations := item.SubmitEdit(form, now, updateError);
    if mutations == 1 {
      RefetchAfterUpdate(page, list, store, item.order, request.value.payload, response);
    }
  }

  /** The page's part after a successful update of the user's row `o` with
      `p`: the counter goes up and the refetched list shows the new row. */
  method RefetchAfterUpdate(page: Home, list: OrderList, ghost store: Store, o: OrderRow,
                            p: UpdatePayload, response: SelectResponse)
    requires list.Valid() && o.userId == list.user && o in store
    requires Answers(UpdateRow(store, o.id, p), list.user, response)
    modifies page`refreshCounter, list`orders, list`loading, list`error
    ensures list.Valid()
    ensures page.refreshCounter == old(page.refreshCounter) + 1
    ensures response.Selected? ==> list.orders == response.data.GetOr([]) && list.error == None
    ensures response.Selected? && response.data.Some? ==> ApplyUpdate(o, p) in list.orders
    ensures response.SelectFailed? ==> list.orders == old(list.orders) && list.error == Some(response.message)
    ensures !list.loading
  {
    page.HandleOrderMutation();
    var fetched := list.OnRefreshCounter(page.refreshCounter, UpdateRow(store, o.id, p), response);
    if response.Selected? && response.data.Some? {
      UpdatedListed(store, o, p, response.data.value);
    }
  }
}
