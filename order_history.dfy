// The order-history list: the component that fetches the signed-in user's
// orders, refetches them when the page is told of a write or becomes visible
// again, and chooses what to show; and one row of that list, with its delete
// button and its edit dialog.
module OrderHistory {
  import opened Wrappers
  import opened Orders
  import opened OrderStore
  import opened EditOrderModal

  const DeleteErrorPrefix: string := "削除中にエラーが発生しました: "
  const DeletedAlert: string := "オーダーを削除しました。"

  /** The answer of the listing call: rows (possibly `null`) or an error. */
  datatype SelectResponse = Selected(data: Option<seq<OrderRow>>) | SelectFailed(message: string)

  /** The listing call's contract: rows it returns are a correct listing of
      the user's orders in the table, newest first. */
  predicate Answers(store: Store, uid: UserId, response: SelectResponse) {
    response.Selected? && response.data.Some? ==> IsListing(store, uid, response.data.value)
  }

  /** `document.visibilityState` after a `visibilitychange` event. */
  datatype Visibility = Visible | Hidden

  /** What the list component renders. */
  datatype HistoryView = LoadingNotice | ErrorNotice(message: string) | NoOrders | Items(orders: seq<OrderRow>)

  class OrderList {
    const user: UserId
    var orders: seq<OrderRow>
    var loading: bool
    var error: Option<string>

    /** The list holds only the user's orders, newest first. */
    predicate Valid()
      reads this
    {
      (forall o :: o in orders ==> o.userId == user) && NewestFirst(orders)
    }

    /** The component's state when it mounts, before its first fetch. */
    constructor (user: UserId)
      ensures this.user == user && Valid()
      ensures orders == [] && loading && error == None
    {
      this.user := user;
      orders := [];
      loading := true;
      error := None;
    }

    /** The render choice: loading first, then a non-empty error text, then
        the empty notice, then the rows. */
    function View(): (v: HistoryView)
      reads this
      ensures v == LoadingNotice <==> loading
      ensures v.ErrorNotice? <==> !loading && error.Some? && error.value != ""
      ensures v == NoOrders <==> !loading && (error.None? || error.value == "") && orders == []
      ensures v.Items? ==> v.orders == orders && orders != []
    {
      if loading then LoadingNotice
      else if error.Some? && error.value != "" then ErrorNotice(error.value)
      else if orders == [] then NoOrders
      else Items(orders)
    }

    /** `fetchOrders` up to the listing call. */
    method BeginFetch()
      modifies this`loading, this`error
      ensures loading && error == None
    {
      loading := true;
      error := None;
    }

    /** `fetchOrders` after the listing call answered: rows replace the list
        (`null` rows give an empty list), an error keeps the list and records
        the message, and loading ends. */
    method CompleteFetch(ghost store: Store, response: SelectResponse)
      requires Valid() && Answers(store, user, response)
      modifies this`orders, this`loading, this`error
      ensures Valid() && !loading
      ensures response.Selected? ==>
        orders == response.data.GetOr([]) && error == old(error)
      ensures response.SelectFailed? ==>
        orders == old(orders) && error == Some(response.message)
    {
      if response.SelectFailed? {
        error := Some(response.message);
      } else {
        orders := response.data.GetOr([]);
        forall o | o in orders ensures o.userId == user {
          ListingOwned(store, user, orders, o);
        }
      }
      loading := false;
    }

    /** The whole `fetchOrders`; `response` is the listing call's answer. */
    method FetchOrders(ghost store: Store, response: SelectResponse)
      requires Valid() && Answers(store, user, response)
      modifies this`orders, this`loading, this`error
      ensures Valid() && !loading && View() != LoadingNotice
      ensures response.Selected? ==> orders == response.data.GetOr([]) && error == None
      ensures response.SelectFailed? ==> orders == old(orders) && error == Some(response.message)
    {
      BeginFetch();
      CompleteFetch(store, response);
    }

    /** The effect on `refreshCounter`: it refetches only for a positive
        counter. */
    method OnRefreshCounter(counter: int, ghost store: Store, response: SelectResponse)
      returns (fetched: bool)
      requires Valid() && Answers(store, user, response)
      modifies this`orders, this`loading, this`error
      ensures Valid()
      ensures fetched <==> counter > 0
      ensures !fetched ==>
        orders == old(orders) && loading == old(loading) && error == old(error)
      ensures fetched ==> !loading
      ensures fetched && response.Selected? ==>
        orders == response.data.GetOr([]) && error == None
      ensures fetched && response.SelectFailed? ==>
        orders == old(orders) && error == Some(response.message)
    {
      fetched := counter > 0;
      if fetched {
        FetchOrders(store, response);
      }
    }

    /** The `visibilitychange` handler: it refetches only when the page has
        become visible. */
    method OnVisibilityChange(state: Visibility, ghost store: Store, response: SelectResponse)
      returns (fetched: bool)
      requires Valid() && Answers(store, user, response)
      modifies this`orders, this`loading, this`error
      ensures Valid()
      ensures fetched <==> state == Visible
      ensures !fetched ==>
        orders == old(orders) && loading == old(loading) && error == old(error)
      ensures fetched ==> !loading
      ensures fetched && response.Selected? ==>
        orders == response.data.GetOr([]) && error == None
      ensures fetched && response.SelectFailed? ==>
        orders == old(orders) && error == Some(response.message)
    {
      fetched := state == Visible;
      if fetched {
        FetchOrders(store, response);
      }
    }
  }

  /** One row of the list (`AccordionItem`). */
  class OrderItem {
    const order: OrderRow
    var isOpen: bool
    var isDeleting: bool
    var isEditing: bool

    constructor (order: OrderRow)
      ensures this.order == order && !isOpen && !isDeleting && !isEditing
    {
      this.order := order;
      isOpen := false;
      isDeleting := false;
      isEditing := false;
    }

    /** A click on the row's header. */
    method ToggleOpen()
      modifies this`isOpen
      ensures isOpen == !old(isOpen)
    {
      isOpen := !isOpen;
    }

    /** The edit button opens the edit dialog. */
    method OpenEditor()
      modifies this`isEditing
      ensures isEditing
    {
      isEditing := true;
    }

    /** The dialog's `onClose`. */
    method CloseEditor()
      modifies this`isEditing
      ensures !isEditing
    {
      isEditing := false;
    }

    /** The dialog's `onOrderUpdated`: the parent is told of the write once
        and the dialog closes. */
    method EditorUpdated() returns (mutations: nat)
      modifies this`isEditing
      ensures mutations == 1 && !isEditing
    {
      mutations := 1;
      isEditing := false;
    }

    /** A submit in this row's edit dialog, `form`, with the update call's
        answer `updateError`: on success the parent is told once and the
        dialog closes; otherwise nothing is reported and it stays open. */
    method SubmitEdit(form: EditForm, now: string, updateError: Option<string>)
      returns (request: Option<UpdateRequest>, mutations: nat)
      requires form.orderId == order.id
      modifies this`isEditing, form`loading, form`message
      ensures form.Fields() == old(form.Fields())
      ensures request.None? <==> SubmitPayload(form.Fields(), now).None?
      ensures request.Some? ==> request.value == UpdateRequest(order.id, SubmitPayload(form.Fields(), now).value)
      ensures mutations == (if request.Some? && updateError.None? then 1 else 0)
      ensures isEditing == (old(isEditing) && mutations == 0)
      ensures request.None? ==> form.message == NoGenreMessage && form.loading == old(form.loading)
      ensures request.Some? ==>
        !form.loading && form.message == (if updateError.Some? then ErrorPrefix + updateError.value else UpdatedMessage)
    {
      var notified;
      request, notified := form.Submit(now, updateError);
      mutations := 0;
      if notified == 1 {
        mutations := EditorUpdated();
      }
    }

    /** The delete button up to the delete call: without confirmation
        nothing happens; with it the row enters the deleting state and the
        delete of this order is issued. */
    method BeginDelete(confirmed: bool) returns (request: Option<OrderId>)
      modifies this`isDeleting
      ensures request == (if confirmed then Some(order.id) else None)
      ensures isDeleting == (confirmed || old(isDeleting))
    {
      request := None;
      if confirmed {
        isDeleting := true;
        request := Some(order.id);
      }
    }

    /** After the delete call answered: the alert reports the error or the
        success, the parent is told once on success and never on failure,
        and the deleting state ends. */
    method FinishDelete(deleteError: Option<string>) returns (alert: string, mutations: nat)
      modifies this`isDeleting
      ensures !isDeleting
      ensures deleteError.Some? ==> alert == DeleteErrorPrefix + deleteError.value && mutations == 0
      ensures deleteError.None? ==> alert == DeletedAlert && mutations == 1
    {
      mutations := 0;
      if deleteError.Some? {
        alert := DeleteErrorPrefix + deleteError.value;
      } else {
        alert := DeletedAlert;
        mutations := mutations + 1;
      }
      isDeleting := false;
    }

    /** The whole `handleDelete`; `confirmed` is the confirmation dialog's
        answer and `deleteError` the delete call's. */
    method HandleDelete(confirmed: bool, deleteError: Option<string>)
      returns (request: Option<OrderId>, alert: Option<string>, mutations: nat)
      modifies this`isDeleting
      ensures request == (if confirmed then Some(order.id) else None)
      ensures !confirmed ==> alert == None && mutations == 0 && isDeleting == old(isDeleting)
      ensures confirmed ==> !isDeleting
      ensures confirmed ==>
        alert == Some(if deleteError.Some? then DeleteErrorPrefix + deleteError.value else DeletedAlert)
      ensures mutations == (if confirmed && deleteError.None? then 1 else 0)
    {
      request := BeginDelete(confirmed);
      alert := None;
      mutations := 0;
      if request.Some? {
        var text;
        text, mutations := FinishDelete(deleteError);
        alert := Some(text);
      }
    }
  }
}
