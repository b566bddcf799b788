/**
 * The "Your Orders" page: which actions each order offers, the newest-first
 * order list, the cancellation dialog with its reason, the self-dismissing
 * confirmation and the invoice download.
 */
module Orders {
  import opened Common
  import opened Text
  import opened Records
  import opened Sequences
  import Invoice

  // ---------------------------------------------------------------------------
  // Action policy
  // ---------------------------------------------------------------------------

  /** What an order row lets the user do. */
  datatype Action = Cancel | RateAndReview | DownloadInvoice

  /** The action slot in the middle of an order's action bar: Cancel, Rate and Review, or nothing. */
  function PrimaryAction(status: string): (r: Option<Action>)
    ensures r == Some(Cancel) <==> status == "delivering"
    ensures r == Some(RateAndReview) <==> status == "delivered"
    ensures r.None? <==> status != "delivering" && status != "delivered"
    ensures r != Some(DownloadInvoice)
  {
    if status == "delivering" then Some(Cancel)
    else if status == "delivered" then Some(RateAndReview)
    else None
  }

  /** Whether the download icon is shown at the right of the action bar. */
  predicate OffersDownload(status: string)
    ensures OffersDownload(status) <==> PrimaryAction(status) == Some(RateAndReview)
  {
    status == "delivered"
  }

  /** Every action an order with this status offers. */
  function ActionsFor(status: string): (r: set<Action>)
    ensures Cancel in r <==> status == "delivering"
    ensures RateAndReview in r <==> status == "delivered"
    ensures DownloadInvoice in r <==> status == "delivered"
  {
    (if PrimaryAction(status).Some? then {PrimaryAction(status).value} else {})
    + (if OffersDownload(status) then {DownloadInvoice} else {})
  }

  /**
   * A delivering order can only be cancelled, a delivered one only rated and
   * its invoice downloaded, and any other status offers nothing.
   */
  lemma ActionPolicy(status: string)
    ensures status == "delivering" ==> ActionsFor(status) == {Cancel}
    ensures status == "delivered" ==> ActionsFor(status) == {RateAndReview, DownloadInvoice}
    ensures status != "delivering" && status != "delivered" ==> ActionsFor(status) == {}
  {
    var r := ActionsFor(status);
    if status == "delivering" {
      assert forall a :: a in r <==> a == Cancel;
    } else if status == "delivered" {
      assert forall a :: a in r <==> a == RateAndReview || a == DownloadInvoice;
    } else {
      assert forall a :: a !in r;
    }
  }

  // ---------------------------------------------------------------------------
  // Newest-first ordering
  // ---------------------------------------------------------------------------

  /** Orders run from the most recently created to the oldest. */
  predicate NewestFirst(s: seq<Order>)
  {
    forall i, j :: 0 <= i < j < |s| ==> s[i].createdAt >= s[j].createdAt
  }

  /** Accepts the orders created at time t. */
  function CreatedAt(t: int): Order -> bool
  {
    (o: Order) => o.createdAt == t
  }

  /** The orders created at time t, in the order s lists them. */
  function WithDate(s: seq<Order>, t: int): seq<Order>
  {
    Filter(s, CreatedAt(t))
  }

  /** Every creation time has the same orders, in the same order, in a and in b. */
  ghost predicate SameDateGroups(a: seq<Order>, b: seq<Order>)
  {
    forall t :: WithDate(a, t) == WithDate(b, t)
  }

  /** r lists s newest first, and orders created at the same time keep their relative order. */
  ghost predicate StablySortedFrom(r: seq<Order>, s: seq<Order>)
  {
    NewestFirst(r) && multiset(r) == multiset(s) && SameDateGroups(r, s)
  }

  /** The group of time t of a non-empty list: its first order if that was created at t, then the rest's. */
  lemma WithDateCons(s: seq<Order>, t: int)
    requires s != []
    ensures WithDate(s, t) == (if s[0].createdAt == t then [s[0]] else []) + WithDate(s[1..], t)
  {
  }

  /** Exchanging two neighbours created at different times keeps every same-time group in order. */
  lemma SwapKeepsDateGroups(s: seq<Order>, j: int)
    requires 0 < j < |s| && s[j - 1].createdAt != s[j].createdAt
    ensures SameDateGroups(s[j - 1 := s[j]][j := s[j - 1]], s)
  {
    var s' := s[j - 1 := s[j]][j := s[j - 1]];
    var pre, post := s[..j - 1], s[j + 1..];
    assert s == pre + [s[j - 1], s[j]] + post;
    assert s' == pre + [s[j], s[j - 1]] + post;
    forall t
      ensures WithDate(s', t) == WithDate(s, t)
    {
      var keep := CreatedAt(t);
      FilterConcat(pre + [s[j - 1], s[j]], post, keep);
      FilterConcat(pre, [s[j - 1], s[j]], keep);
      FilterConcat(pre + [s[j], s[j - 1]], post, keep);
      FilterConcat(pre, [s[j], s[j - 1]], keep);
      assert Filter([s[j - 1], s[j]], keep) == Filter([s[j], s[j - 1]], keep) by {
        assert [s[j - 1], s[j]][1..] == [s[j]];
        assert [s[j], s[j - 1]][1..] == [s[j - 1]];
      }
    }
  }

  /** A list is empty exactly when no creation time has an order in it. */
  lemma NoGroupsMeansEmpty(s: seq<Order>)
    ensures s == [] <==> forall t :: WithDate(s, t) == []
  {
    if s != [] {
      assert s[0] in WithDate(s, s[0].createdAt);
    }
  }

  /** Two newest-first lists with the same same-time groups start with the same order. */
  lemma SameNewest(r1: seq<Order>, r2: seq<Order>)
    requires r1 != [] && r2 != [] && NewestFirst(r1) && NewestFirst(r2)
    requires SameDateGroups(r1, r2)
    ensures r1[0] == r2[0]
  {
    var t1, t2 := r1[0].createdAt, r2[0].createdAt;
    WithDateCons(r1, t1);
    WithDateCons(r2, t2);
    assert r1[0] in WithDate(r2, t1);
    assert r2[0] in WithDate(r1, t2);
    var k1 :| 0 <= k1 < |r2| && r2[k1] == r1[0];
    var k2 :| 0 <= k2 < |r1| && r1[k2] == r2[0];
    assert t1 == t2 by {
      assert k1 == 0 || r2[0].createdAt >= r2[k1].createdAt;
      assert k2 == 0 || r1[0].createdAt >= r1[k2].createdAt;
    }
    assert WithDate(r1, t1)[0] == r1[0];
    assert WithDate(r2, t1)[0] == r2[0];
  }

  /** Removing the same first order from two lists keeps their same-time groups equal. */
  lemma SameRest(r1: seq<Order>, r2: seq<Order>)
    requires r1 != [] && r2 != [] && r1[0] == r2[0]
    requires SameDateGroups(r1, r2)
    ensures SameDateGroups(r1[1..], r2[1..])
  {
    forall t
      ensures WithDate(r1[1..], t) == WithDate(r2[1..], t)
    {
      WithDateCons(r1, t);
      WithDateCons(r2, t);
      var h := if r1[0].createdAt == t then [r1[0]] else [];
      assert WithDate(r1[1..], t) == (h + WithDate(r1[1..], t))[|h|..];
      assert WithDate(r2[1..], t) == (h + WithDate(r2[1..], t))[|h|..];
    }
  }

  /**
   * A newest-first list is determined by its same-time groups: sorting
   * stably has exactly one possible outcome.
   */
  lemma {:induction false} StableSortIsUnique(r1: seq<Order>, r2: seq<Order>)
    requires NewestFirst(r1) && NewestFirst(r2)
    requires SameDateGroups(r1, r2)
    ensures r1 == r2
    decreases |r1|
  {
    NoGroupsMeansEmpty(r1);
    NoGroupsMeansEmpty(r2);
    if r1 != [] && r2 != [] {
      SameNewest(r1, r2);
      SameRest(r1, r2);
      StableSortIsUnique(r1[1..], r2[1..]);
      assert r1 == [r1[0]] + r1[1..] && r2 == [r2[0]] + r2[1..];
    }
  }

  /** Sorting the same response twice gives the same list; a list already newest first is left alone. */
  lemma SortIsIdempotent(r: seq<Order>, r': seq<Order>, s: seq<Order>)
    requires StablySortedFrom(r, s) && StablySortedFrom(r', s)
    ensures r == r'
    ensures NewestFirst(s) ==> r == s
  {
    StableSortIsUnique(r, r');
    if NewestFirst(s) {
      StableSortIsUnique(r, s);
    }
  }

  /**
   * Midway through inserting the order at position j: s[..i + 1] is newest
   * first apart from position j, and the order at j is newer than every one
   * after it up to i.
   */
  ghost predicate Inserting(s: seq<Order>, j: int, i: int)
  {
    && 0 <= j <= i < |s|
    && (forall k, l :: 0 <= k < l <= i && k != j && l != j ==> s[k].createdAt >= s[l].createdAt)
    && (forall l :: j < l <= i ==> s[j].createdAt > s[l].createdAt)
  }

  /** Inserting the order at i starts from a newest-first prefix s[..i]. */
  lemma InsertingStarts(s: seq<Order>, i: int)
    requires 0 <= i < |s| && NewestFirst(s[..i])
    ensures Inserting(s, i, i)
  {
    forall k, l | 0 <= k < l <= i && k != i && l != i
      ensures s[k].createdAt >= s[l].createdAt
    {
      assert s[k] == s[..i][k] && s[l] == s[..i][l];
    }
  }

  /** Exchanging the inserted order with an older predecessor moves it one place left. */
  lemma InsertingSwap(s: seq<Order>, j: int, i: int)
    requires Inserting(s, j, i) && 0 < j && s[j - 1].createdAt < s[j].createdAt
    ensures Inserting(s[j - 1 := s[j]][j := s[j - 1]], j - 1, i)
  {
  }

  /** Once the inserted order has no older predecessor, s[..i + 1] is newest first. */
  lemma InsertingEnds(s: seq<Order>, j: int, i: int)
    requires Inserting(s, j, i) && (j == 0 || s[j - 1].createdAt >= s[j].createdAt)
    ensures NewestFirst(s[..i + 1])
  {
    var p := s[..i + 1];
    forall k, l | 0 <= k < l < |p|
      ensures p[k].createdAt >= p[l].createdAt
    {
      if k != j && l == j {
        assert s[k].createdAt >= s[j - 1].createdAt;
      }
    }
  }

  /** Exchanges a[j - 1] and a[j]. */
  method SwapWithPrevious(a: array<Order>, j: int)
    requires 0 < j < a.Length
    modifies a
    ensures a[..] == old(a[..])[j - 1 := old(a[j])][j := old(a[j - 1])]
    ensures multiset(a[..]) == multiset(old(a[..]))
  {
    a[j - 1], a[j] := a[j], a[j - 1];
  }

  /**
   * One step of the sort: moves a[i] left past every strictly older order
   * before it, so that a[..i + 1] is newest first.
   */
  method InsertNewest(a: array<Order>, i: int)
    requires 0 <= i < a.Length && NewestFirst(a[..i])
    modifies a
    ensures NewestFirst(a[..i + 1])
    ensures multiset(a[..]) == multiset(old(a[..]))
    ensures SameDateGroups(a[..], old(a[..]))
  {
    InsertingStarts(a[..], i);
    var j := i;
    while 0 < j && a[j - 1].createdAt < a[j].createdAt
      invariant Inserting(a[..], j, i)
      invariant multiset(a[..]) == multiset(old(a[..]))
      invariant SameDateGroups(a[..], old(a[..]))
    {
      InsertingSwap(a[..], j, i);
      SwapKeepsDateGroups(a[..], j);
      SwapWithPrevious(a, j);
      j := j - 1;
    }
    InsertingEnds(a[..], j, i);
  }

  /**
   * `array.sort((a, b) => new Date(b.created_at) - new Date(a.created_at))`,
   * a stable in-place sort, newest first.
   */
  method SortNewestFirst(a: array<Order>)
    modifies a
    ensures StablySortedFrom(a[..], old(a[..]))
  {
    var i := 0;
    while i < a.Length
      invariant 0 <= i <= a.Length
      invariant NewestFirst(a[..i])
      invariant multiset(a[..]) == multiset(old(a[..]))
      invariant SameDateGroups(a[..], old(a[..]))
    {
      InsertNewest(a, i);
      i := i + 1;
    }
    assert a[..] == a[..a.Length];
  }

  // ---------------------------------------------------------------------------
  // Cancellation request
  // ---------------------------------------------------------------------------

  /** The status update sent to the order service: `PUT /cancel/<id>` with its body. */
  datatype CancelRequest = CancelRequest(path: string, status: string, cancellationReason: string)

  /** The request path; a missing target is interpolated as "null". */
  function CancelPath(target: Option<nat>): (p: string)
    ensures |p| > 8 && p[..8] == "/cancel/"
    ensures p[8..] == match target case None => "null" case Some(id) => NatToString(id)
  {
    "/cancel/" + (match target case None => "null" case Some(id) => NatToString(id))
  }

  /** The character after "/cancel/" is a digit exactly when there is a target. */
  lemma CancelPathMarksTarget(target: Option<nat>)
    ensures IsDigit(CancelPath(target)[8]) <==> target.Some?
  {
    var p := CancelPath(target);
    if target.Some? {
      NatToStringDigits(target.value);
      assert p[8] == NatToString(target.value)[0];
    } else {
      assert p[8] == 'n';
    }
  }

  /** Different targets are sent to different paths. */
  lemma CancelPathInjective(a: Option<nat>, b: Option<nat>)
    requires CancelPath(a) == CancelPath(b)
    ensures a == b
  {
    CancelPathMarksTarget(a);
    CancelPathMarksTarget(b);
    if a.Some? {
      var pa, pb := CancelPath(a), CancelPath(b);
      assert pa[8..] == NatToString(a.value);
      assert pb[8..] == NatToString(b.value);
      NatToStringInjective(a.value, b.value);
    }
  }

  /** JavaScript truthiness of an optional numeric id: present and not 0. */
  predicate Truthy(id: Option<nat>)
  {
    id.Some? && id.value != 0
  }

  // ---------------------------------------------------------------------------
  // The page's state
  // ---------------------------------------------------------------------------

  /** The state the orders page keeps between renders, and its event handlers. */
  class OrdersPage {
    var orders: seq<Order>
    var gstDetails: seq<GstRecord>
    var cancellationReason: string
    var selectedOrderId: Option<nat>
    var showConfirmationPopup: bool
    /** Dismissal timers started and not yet fired; none is ever cleared. */
    var pendingDismissals: nat

    /** The displayed list is always newest first. */
    ghost predicate Valid()
      reads this
    {
      NewestFirst(orders)
    }

    /** The first render: no orders, no GST records, no dialog, no confirmation. */
    constructor ()
      ensures Valid()
      ensures orders == [] && gstDetails == [] && cancellationReason == ""
      ensures selectedOrderId == None && !showConfirmationPopup && pendingDismissals == 0
    {
      orders := [];
      gstDetails := [];
      cancellationReason := "";
      selectedOrderId := None;
      showConfirmationPopup := false;
      pendingDismissals := 0;
    }

    /** The reason dialog is shown exactly when the selected id is truthy. */
    predicate DialogOpen()
      reads this
      ensures DialogOpen() <==> selectedOrderId.Some? && selectedOrderId.value != 0
    {
      Truthy(selectedOrderId)
    }

    /**
     * `fetchOrders`: with a signed-in user, a successful response replaces the
     * list by the response sorted newest first; no user or a failed request
     * leaves the list as it was.
     */
    method FetchOrders(userId: Option<nat>, response: Response<seq<Order>>)
      requires Valid()
      modifies this`orders
      ensures Valid()
      ensures if Truthy(userId) && response.Ok? then StablySortedFrom(orders, response.data)
              else orders == old(orders)
    {
      if Truthy(userId) {
        match response {
          case Ok(data) =>
            var a := new Order[|data|](i requires 0 <= i < |data| => data[i]);
            assert a[..] == data;
            SortNewestFirst(a);
            orders := a[..];
          case Failed =>
        }
      }
    }

    /** `fetchGstDetails`: a successful response replaces the GST records; a failure keeps them. */
    method FetchGstDetails(response: Response<seq<GstRecord>>)
      modifies this`gstDetails
      ensures gstDetails == if response.Ok? then response.data else old(gstDetails)
    {
      if response.Ok? {
        gstDetails := response.data;
      }
    }

    /** `handleCancelOrder(orderId)`: targets this order with an empty reason, replacing any earlier target. */
    method HandleCancelOrder(orderId: nat)
      modifies this`cancellationReason, this`selectedOrderId
      ensures selectedOrderId == Some(orderId) && cancellationReason == ""
      ensures orderId != 0 ==> DialogOpen()
    {
      cancellationReason := "";
      selectedOrderId := Some(orderId);
    }

    /** The text area's change handler: the reason is whatever was typed, verbatim. */
    method UpdateReason(text: string)
      modifies this`cancellationReason
      ensures cancellationReason == text
    {
      cancellationReason := text;
    }

    /** `handleCancelReason`: closes the dialog, forgetting target and reason; nothing is sent. */
    method HandleCancelReason()
      modifies this`cancellationReason, this`selectedOrderId
      ensures selectedOrderId == None && cancellationReason == ""
      ensures !DialogOpen()
    {
      cancellationReason := "";
      selectedOrderId := None;
    }

    /** `handleConfirmationPopupClose`: hides the confirmation. */
    method HandleConfirmationPopupClose()
      modifies this`showConfirmationPopup
      ensures !showConfirmationPopup
    {
      showConfirmationPopup := false;
    }

    /** `showConfirmationPopupWithTimeout`: shows the confirmation and starts one more dismissal timer. */
    method ShowConfirmationPopupWithTimeout()
      modifies this`showConfirmationPopup, this`pendingDismissals
      ensures showConfirmationPopup
      ensures pendingDismissals == old(pendingDismissals) + 1
    {
      showConfirmationPopup := true;
      pendingDismissals := pendingDismissals + 1;
    }

    /** One of the pending dismissal timers fires and closes the confirmation. */
    method DismissalTimerFires()
      requires pendingDismissals > 0
      modifies this`showConfirmationPopup, this`pendingDismissals
      ensures !showConfirmationPopup
      ensures pendingDismissals == old(pendingDismissals) - 1
    {
      pendingDismissals := pendingDismissals - 1;
      HandleConfirmationPopupClose();
    }

    /**
     * The start of `handleSubmitCancellation`: the request it sends for the
     * current target and reason. Nothing marks a submission as in flight, so
     * a second press sends the same request again.
     */
    method SubmitCancellation() returns (request: CancelRequest)
      ensures request.path == CancelPath(selectedOrderId)
      ensures request.status == "cancelled"
      ensures request.cancellationReason == cancellationReason
    {
      request := CancelRequest(CancelPath(selectedOrderId), "cancelled", cancellationReason);
    }

    /**
     * The rest of `handleSubmitCancellation`, once the service has answered.
     * On success: the order list is fetched again, target and reason are
     * cleared and the confirmation is shown. On failure: nothing changes.
     */
    method CompleteSubmission(outcome: Response<()>, userId: Option<nat>, refreshed: Response<seq<Order>>)
      requires Valid()
      modifies this
      ensures Valid() && gstDetails == old(gstDetails)
      ensures outcome.Failed? ==> unchanged(this)
      ensures outcome.Ok? ==>
                && selectedOrderId == None && cancellationReason == "" && !DialogOpen()
                && showConfirmationPopup && pendingDismissals == old(pendingDismissals) + 1
                && (if Truthy(userId) && refreshed.Ok? then StablySortedFrom(orders, refreshed.data)
                    else orders == old(orders))
    {
      if outcome.Ok? {
        FetchOrders(userId, refreshed);
        cancellationReason := "";
        selectedOrderId := None;
        ShowConfirmationPopupWithTimeout();
      }
    }

    /** `handleDownloadInvoice(order)`: the invoice built from the loaded GST records, if one matches. */
    method HandleDownloadInvoice(order: Order) returns (doc: Option<Invoice.Document>)
      ensures doc == Invoice.Generate(order, gstDetails)
      ensures doc.None? <==> forall i :: 0 <= i < |gstDetails| ==> gstDetails[i].id != order.productId
      ensures doc.Some? ==> doc.value.totalPrice == order.price
                            && doc.value.cgst + doc.value.sgst == Invoice.FindGst(gstDetails, order.productId).value.gstAmount
                            && doc.value.fileName == Invoice.FileName(order.orderId)
    {
      doc := Invoice.Generate(order, gstDetails);
    }
  }

  // ---------------------------------------------------------------------------
  // Scenarios
  // ---------------------------------------------------------------------------

  /** Starting a cancellation for O2 after O1 retargets the dialog: the request goes to O2, with O2's reason. */
  method RetargetBeforeSubmit(page: OrdersPage) returns (request: CancelRequest)
    modifies page
    ensures request == CancelRequest(CancelPath(Some(2)), "cancelled", "changed my mind")
    ensures page.orders == old(page.orders) && page.gstDetails == old(page.gstDetails)
    ensures page.showConfirmationPopup == old(page.showConfirmationPopup)
    ensures page.pendingDismissals == old(page.pendingDismissals)
    ensures page.selectedOrderId == Some(2) && page.DialogOpen()
  {
    page.HandleCancelOrder(1);
    page.UpdateReason("wrong size");
    page.HandleCancelOrder(2);
    page.UpdateReason("changed my mind");
    request := page.SubmitCancellation();
  }

  /**
   * Two successful submissions arm two timers; when the first fires the
   * confirmation disappears although the second, later one is still pending.
   */
  method OverlappingDismissals(page: OrdersPage, userId: Option<nat>, refreshed: Response<seq<Order>>)
    requires page.Valid()
    modifies page
    ensures !page.showConfirmationPopup && page.pendingDismissals == old(page.pendingDismissals) + 1
    ensures page.gstDetails == old(page.gstDetails)
    ensures page.selectedOrderId == None && page.cancellationReason == ""
    ensures if Truthy(userId) && refreshed.Ok? then StablySortedFrom(page.orders, refreshed.data)
            else page.orders == old(page.orders)
  {
    page.CompleteSubmission(Ok(()), userId, refreshed);
    page.CompleteSubmission(Ok(()), userId, refreshed);
    page.DismissalTimerFires();
  }
}
