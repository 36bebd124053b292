/** The payment/order lifecycle of the payment service: creating a payment
    for an order (amount check, one payment per order), confirming it, and
    overriding its status; plus the two listing operations.

    The stores the service talks to (users, orders, order totals, payments)
    are one value of type `Store`. The transitions are first given as pure
    functions on that value (`CreatePayment`, `Confirm`, `UpdateStatus`),
    whose properties are proved as lemmas; the class `PaymentService` then
    holds the stores as fields and its methods, written step by step as the
    service is, are proved to perform exactly those transitions. */
module Payments {
  import opened Wrappers
  import opened SeqOps

  /** The order statuses: the two this service writes, and `Created`, which
      stands for the status an order has before this service sees it (orders
      are created elsewhere). */
  datatype StatusOrder = Created | Processing | Paid

  /** The payment statuses this service reads or writes. */
  datatype StatusPayment = Processing | Confirmed

  /** An order row: its business reference number (`No_`) and its status. */
  datatype Order = Order(no: string, status: StatusOrder)

  /** A payment row. */
  datatype Payment = Payment(id: int, userId: int, orderId: int, totalPrice: real, status: StatusPayment)

  /** The transfer representation of a payment; the status travels as its name. */
  datatype PaymentDto = PaymentDto(id: int, userId: int, orderId: int, totalPrice: real, status: string)

  /** Why an operation was rejected. */
  datatype Error =
    | NullRequest
    | UserNotFound
    | OrderNotFound
    | OrderTotalNotFound
    | AmountMismatch
    | PaymentNotFound
    | UnknownStatusName

  /** Everything the service can see in its stores. `orderTotals` maps an
      order's reference number to the total of its lines; `payments` is the
      payment table in row order; `nextPaymentId` is the id the payment store
      gives the next row it inserts. */
  datatype Store = Store(
    users: set<int>,
    orders: map<int, Order>,
    orderTotals: map<string, real>,
    payments: seq<Payment>,
    nextPaymentId: int)

  /** The name of a payment status, as `ToString` spells it. */
  function StatusName(s: StatusPayment): string {
    match s
    case Processing => "Processing"
    case Confirmed => "Confirmed"
  }

  /** `Enum.Parse` of a payment status name: only an exact name is accepted. */
  function ParseStatus(name: string): (r: Option<StatusPayment>)
    ensures r.Some? ==> StatusName(r.value) == name
    ensures r.None? <==> forall s: StatusPayment :: StatusName(s) != name
  {
    if name == "Processing" then Some(StatusPayment.Processing)
    else if name == "Confirmed" then Some(StatusPayment.Confirmed)
    else None
  }

  /** The field-copying mapping from a payment row to its transfer form. */
  function ToDto(p: Payment): (d: PaymentDto)
    ensures ParseStatus(d.status) == Some(p.status)
    ensures d.id == p.id && d.userId == p.userId && d.orderId == p.orderId && d.totalPrice == p.totalPrice
  {
    PaymentDto(p.id, p.userId, p.orderId, p.totalPrice, StatusName(p.status))
  }

  /** The row the payment store finds for an id: the first one with that id. */
  function IndexOfId(ps: seq<Payment>, id: int): (r: Option<nat>)
    ensures r.Some? ==> r.value < |ps| && ps[r.value].id == id
    ensures r.Some? ==> forall j :: 0 <= j < r.value ==> ps[j].id != id
    ensures r.None? <==> forall j :: 0 <= j < |ps| ==> ps[j].id != id
  {
    FirstIndex(ps, (p: Payment) => p.id == id)
  }

  /** The row the payment store finds for an order id: the first one for that order. */
  function IndexOfOrder(ps: seq<Payment>, orderId: int): (r: Option<nat>)
    ensures r.Some? ==> r.value < |ps| && ps[r.value].orderId == orderId
    ensures r.Some? ==> forall j :: 0 <= j < r.value ==> ps[j].orderId != orderId
    ensures r.None? <==> forall j :: 0 <= j < |ps| ==> ps[j].orderId != orderId
  {
    FirstIndex(ps, (p: Payment) => p.orderId == orderId)
  }

  /** The payments of one user, in row order (the store's query by user). */
  function PaymentsOfUser(ps: seq<Payment>, userId: int): (r: seq<Payment>)
    ensures forall i :: 0 <= i < |r| ==> r[i] in ps && r[i].userId == userId
    ensures forall i :: 0 <= i < |ps| && ps[i].userId == userId ==> ps[i] in r
  {
    Filter(ps, (p: Payment) => p.userId == userId)
  }

  /** The rows that reference an order. */
  ghost function PaymentsOf(ps: seq<Payment>, orderId: int): set<nat> {
    set i | 0 <= i < |ps| && ps[i].orderId == orderId
  }

  /** The invariant of the stores that the lifecycle keeps: ids are below the
      next id and unique, at most one payment references an order, and every
      payment's order exists. */
  ghost predicate Consistent(s: Store) {
    && (forall i :: 0 <= i < |s.payments| ==> s.payments[i].id < s.nextPaymentId)
    && (forall i, j :: 0 <= i < j < |s.payments| ==> s.payments[i].id != s.payments[j].id)
    && (forall i, j :: 0 <= i < j < |s.payments| ==> s.payments[i].orderId != s.payments[j].orderId)
    && (forall i :: 0 <= i < |s.payments| ==> s.payments[i].orderId in s.orders)
  }

  /** The amount of every payment equals the line total of its order. */
  ghost predicate AmountsMatch(s: Store) {
    forall i :: 0 <= i < |s.payments| ==>
      var o := s.payments[i].orderId;
      o in s.orders && s.orders[o].no in s.orderTotals
      && s.payments[i].totalPrice == s.orderTotals[s.orders[o].no]
  }

  /** The claimed amount of a request equals the total of its order's lines;
      false when the order or its total cannot be resolved. */
  ghost predicate AmountAgrees(s: Store, d: PaymentDto) {
    d.orderId in s.orders && s.orders[d.orderId].no in s.orderTotals
    && d.totalPrice == s.orderTotals[s.orders[d.orderId].no]
  }

  /** CreateAsync: validate the request and its amount, return the payment
      that already exists for the order, or insert a new payment in
      Processing and move the order to Processing. */
  function CreatePayment(s: Store, dto: Option<PaymentDto>): (r: (Store, Result<PaymentDto, Error>))
    ensures r.1.Err? ==> r.0 == s
    ensures r.1.Ok? ==> dto.Some? && AmountAgrees(s, dto.value)
    ensures r.1.Ok? ==> r.1.value.orderId == dto.value.orderId
  {
    if dto.None? then (s, Err(NullRequest))
    else
      var d := dto.value;
      if d.userId !in s.users then (s, Err(UserNotFound))
      else if d.orderId !in s.orders then (s, Err(OrderNotFound))
      else
        var order := s.orders[d.orderId];
        if order.no !in s.orderTotals then (s, Err(OrderTotalNotFound))
        else if d.totalPrice != s.orderTotals[order.no] then (s, Err(AmountMismatch))
        else match IndexOfOrder(s.payments, d.orderId)
          case Some(i) => (s, Ok(ToDto(s.payments[i])))
          case None =>
            var p := Payment(s.nextPaymentId, d.userId, d.orderId, d.totalPrice, StatusPayment.Processing);
            (s.(payments := s.payments + [p],
                nextPaymentId := s.nextPaymentId + 1,
                orders := s.orders[d.orderId := order.(status := StatusOrder.Processing)]),
             Ok(ToDto(p)))
  }

  /** ConfirmAsync: move the payment's order to Paid and the payment to Confirmed. */
  function Confirm(s: Store, paymentId: int): (r: (Store, Result<PaymentDto, Error>))
    ensures r.1.Err? ==> r.0 == s
    ensures r.1.Err? <==> IndexOfId(s.payments, paymentId).None? || s.payments[IndexOfId(s.payments, paymentId).value].orderId !in s.orders
    ensures r.0.users == s.users && r.0.orderTotals == s.orderTotals && r.0.nextPaymentId == s.nextPaymentId
  {
    match IndexOfId(s.payments, paymentId)
    case None => (s, Err(PaymentNotFound))
    case Some(i) =>
      var p := s.payments[i];
      if p.orderId !in s.orders then (s, Err(OrderNotFound))
      else
        var order := s.orders[p.orderId].(status := StatusOrder.Paid);
        var updated := p.(status := StatusPayment.Confirmed);
        (s.(orders := s.orders[p.orderId := order], payments := s.payments[i := updated]),
         Ok(ToDto(updated)))
  }

  /** UpdateStatusAsync: set a payment's status from a status name. */
  function UpdateStatus(s: Store, dto: PaymentDto): (r: (Store, Result<PaymentDto, Error>))
    ensures r.0.orders == s.orders
    ensures r.1.Err? ==> r.0 == s
    ensures IndexOfId(s.payments, dto.id).None? ==> r.1 == Err(PaymentNotFound)
    ensures IndexOfId(s.payments, dto.id).Some? && ParseStatus(dto.status).None? ==> r.1 == Err(UnknownStatusName)
  {
    match IndexOfId(s.payments, dto.id)
    case None => (s, Err(PaymentNotFound))
    case Some(i) =>
      match ParseStatus(dto.status)
      case None => (s, Err(UnknownStatusName))
      case Some(status) =>
        var updated := s.payments[i].(status := status);
        (s.(payments := s.payments[i := updated]), Ok(ToDto(updated)))
  }

  // ---------------------------------------------------------------------------
  // Properties of CreatePayment

  /** A request whose amount differs from the order's line total is rejected
      and changes nothing, whether or not the order already has a payment. */
  lemma CreateRejectsWrongAmount(s: Store, d: PaymentDto)
    requires d.userId in s.users && d.orderId in s.orders && s.orders[d.orderId].no in s.orderTotals
    requires d.totalPrice != s.orderTotals[s.orders[d.orderId].no]
    ensures CreatePayment(s, Some(d)) == (s, Err(AmountMismatch))
  {
  }

  /** When the order already has a payment, the request returns that payment
      and changes nothing. */
  lemma CreateReturnsExisting(s: Store, d: PaymentDto, i: nat)
    requires Consistent(s)
    requires d.userId in s.users && AmountAgrees(s, d)
    requires i < |s.payments| && s.payments[i].orderId == d.orderId
    ensures CreatePayment(s, Some(d)) == (s, Ok(ToDto(s.payments[i])))
  {
  }

  /** On an order without a payment, a valid request inserts one payment in
      Processing with the claimed amount, moves the order to Processing, and
      afterwards exactly that payment references the order. The answer is the
      new row's transfer form, and users and order totals are untouched. */
  lemma {:induction false} CreateFresh(s: Store, d: PaymentDto)
    requires d.userId in s.users && AmountAgrees(s, d)
    requires forall j :: 0 <= j < |s.payments| ==> s.payments[j].orderId != d.orderId
    ensures var (s', r) := CreatePayment(s, Some(d));
      && r.Ok? && r.value.status == "Processing" && r.value.totalPrice == d.totalPrice
      && |s'.payments| == |s.payments| + 1 && s'.payments[..|s.payments|] == s.payments
      && s'.payments[|s.payments|] == Payment(s.nextPaymentId, d.userId, d.orderId, d.totalPrice, StatusPayment.Processing)
      && r == Ok(ToDto(s'.payments[|s.payments|]))
      && s'.users == s.users && s'.orderTotals == s.orderTotals
      && s'.orders == s.orders[d.orderId := s.orders[d.orderId].(status := StatusOrder.Processing)]
      && PaymentsOf(s'.payments, d.orderId) == {|s.payments|}
  {
    var (s', r) := CreatePayment(s, Some(d));
    var n := |s.payments|;
    assert forall i :: 0 <= i < n ==> s'.payments[i] == s.payments[i];
    assert n in PaymentsOf(s'.payments, d.orderId);
  }

  /** A successful request repeated on the resulting stores returns the same
      payment and changes nothing: creation is idempotent. */
  lemma {:induction false} CreateIdempotent(s: Store, dto: Option<PaymentDto>)
    requires CreatePayment(s, dto).1.Ok?
    ensures var (s', r) := CreatePayment(s, dto); CreatePayment(s', dto) == (s', r)
  {
    var d := dto.value;
    var (s', r) := CreatePayment(s, dto);
    if IndexOfOrder(s.payments, d.orderId).None? {
      var n := |s.payments|;
      assert s'.payments[n].orderId == d.orderId;
      forall j | 0 <= j < n ensures s'.payments[j].orderId != d.orderId {
        assert s'.payments[j] == s.payments[j];
      }
      assert IndexOfOrder(s'.payments, d.orderId) == Some(n);
    }
  }

  /** Creation keeps the stores consistent. */
  lemma {:induction false} CreatePreservesConsistent(s: Store, dto: Option<PaymentDto>)
    requires Consistent(s)
    ensures Consistent(CreatePayment(s, dto).0)
  {
    var (s', r) := CreatePayment(s, dto);
    if r.Ok? && IndexOfOrder(s.payments, dto.value.orderId).None? {
      var n := |s.payments|;
      forall i | 0 <= i < |s'.payments| ensures s'.payments[i].orderId in s'.orders {
        if i < n { assert s'.payments[i] == s.payments[i]; }
      }
    }
  }

  /** No operation ever stores a payment whose amount disagrees with its
      order's line total: creation keeps AmountsMatch. */
  lemma {:induction false} CreatePreservesAmounts(s: Store, dto: Option<PaymentDto>)
    requires Consistent(s) && AmountsMatch(s)
    ensures AmountsMatch(CreatePayment(s, dto).0)
  {
    var (s', r) := CreatePayment(s, dto);
    if r.Ok? && IndexOfOrder(s.payments, dto.value.orderId).None? {
      var n := |s.payments|;
      forall i | 0 <= i < |s'.payments|
        ensures var o := s'.payments[i].orderId;
          o in s'.orders && s'.orders[o].no in s'.orderTotals
          && s'.payments[i].totalPrice == s'.orderTotals[s'.orders[o].no]
      {
        if i < n { assert s'.payments[i] == s.payments[i]; }
      }
    }
  }

  // ---------------------------------------------------------------------------
  // Properties of Confirm and UpdateStatus

  /** Confirming a known payment leaves its order Paid and the payment
      Confirmed with amount, user and order unchanged; no other payment and
      no other order changes. */
  lemma ConfirmEffect(s: Store, i: nat)
    requires Consistent(s) && i < |s.payments|
    ensures var (s', r) := Confirm(s, s.payments[i].id);
      var p := s.payments[i];
      && r == Ok(ToDto(p.(status := StatusPayment.Confirmed)))
      && |s'.payments| == |s.payments|
      && s'.payments[i] == Payment(p.id, p.userId, p.orderId, p.totalPrice, StatusPayment.Confirmed)
      && (forall j :: 0 <= j < |s.payments| && j != i ==> s'.payments[j] == s.payments[j])
      && s'.orders.Keys == s.orders.Keys
      && s'.orders[p.orderId] == s.orders[p.orderId].(status := StatusOrder.Paid)
      && (forall o :: o in s.orders && o != p.orderId ==> s'.orders[o] == s.orders[o])
  {
    assert IndexOfId(s.payments, s.payments[i].id) == Some(i);
  }

  /** Confirm is terminal: confirming the same payment again gives the same
      result and changes nothing more. */
  lemma {:induction false} ConfirmTwice(s: Store, paymentId: int)
    requires Confirm(s, paymentId).1.Ok?
    ensures var (s', r) := Confirm(s, paymentId); Confirm(s', paymentId) == (s', r)
  {
    var (s', r) := Confirm(s, paymentId);
    var i := IndexOfId(s.payments, paymentId).value;
    forall j | 0 <= j < i ensures s'.payments[j].id != paymentId {
      assert s'.payments[j] == s.payments[j];
    }
    assert s'.payments[i].id == paymentId;
    assert IndexOfId(s'.payments, paymentId) == Some(i);
    var o := s.payments[i].orderId;
    assert s'.orders[o := s'.orders[o].(status := StatusOrder.Paid)] == s'.orders;
    assert s'.payments[i := s'.payments[i].(status := StatusPayment.Confirmed)] == s'.payments;
  }

  /** Confirmation keeps the stores consistent and every amount. */
  lemma {:induction false} ConfirmPreserves(s: Store, paymentId: int)
    requires Consistent(s)
    ensures Consistent(Confirm(s, paymentId).0)
    ensures AmountsMatch(s) ==> AmountsMatch(Confirm(s, paymentId).0)
  {
    var (s', r) := Confirm(s, paymentId);
    if r.Ok? {
      var i := IndexOfId(s.payments, paymentId).value;
      forall j | 0 <= j < |s'.payments|
        ensures s'.payments[j].id == s.payments[j].id && s'.payments[j].orderId == s.payments[j].orderId
        ensures s'.payments[j].totalPrice == s.payments[j].totalPrice
      {
      }
      forall o | o in s.orders ensures o in s'.orders && s'.orders[o].no == s.orders[o].no {
      }
    }
  }

  /** A successful status override sets exactly that payment's status. */
  lemma UpdateStatusEffect(s: Store, i: nat, dto: PaymentDto, status: StatusPayment)
    requires Consistent(s) && i < |s.payments| && dto.id == s.payments[i].id && ParseStatus(dto.status) == Some(status)
    ensures var (s', r) := UpdateStatus(s, dto);
      && r == Ok(ToDto(s.payments[i].(status := status)))
      && s'.payments == s.payments[i := s.payments[i].(status := status)]
      && s'.orders == s.orders && s'.users == s.users && s'.orderTotals == s.orderTotals
  {
    assert IndexOfId(s.payments, s.payments[i].id) == Some(i);
  }

  /** Overriding a status keeps the stores consistent and every amount. */
  lemma {:induction false} UpdateStatusPreserves(s: Store, dto: PaymentDto)
    requires Consistent(s)
    ensures Consistent(UpdateStatus(s, dto).0)
    ensures AmountsMatch(s) ==> AmountsMatch(UpdateStatus(s, dto).0)
  {
    var (s', r) := UpdateStatus(s, dto);
    if r.Ok? {
      forall j | 0 <= j < |s'.payments|
        ensures s'.payments[j].id == s.payments[j].id && s'.payments[j].orderId == s.payments[j].orderId
        ensures s'.payments[j].totalPrice == s.payments[j].totalPrice
      {
      }
    }
  }

  /** The whole lifecycle of a new order: creating its payment and then
      confirming the returned payment leaves the order Paid and the payment
      Confirmed, with the order's line total as its amount. */
  lemma {:induction false} CreateThenConfirm(s: Store, d: PaymentDto)
    requires Consistent(s)
    requires d.userId in s.users && AmountAgrees(s, d)
    requires forall j :: 0 <= j < |s.payments| ==> s.payments[j].orderId != d.orderId
    ensures var (s1, r1) := CreatePayment(s, Some(d));
      var (s2, r2) := Confirm(s1, r1.value.id);
      && r2.Ok? && r2.value.status == "Confirmed" && r2.value.id == r1.value.id
      && r2.value.totalPrice == s.orderTotals[s.orders[d.orderId].no]
      && s2.orders[d.orderId].status == StatusOrder.Paid
      && s2.payments[|s.payments|].status == StatusPayment.Confirmed
  {
    CreateFresh(s, d);
    var (s1, r1) := CreatePayment(s, Some(d));
    var n := |s.payments|;
    forall j | 0 <= j < n ensures s1.payments[j].id != s.nextPaymentId {
      assert s1.payments[j] == s.payments[j];
    }
    assert IndexOfId(s1.payments, r1.value.id) == Some(n);
  }

  // ---------------------------------------------------------------------------
  // The service over its stores

  class PaymentService {
    var users: set<int>
    var orders: map<int, Order>
    var orderTotals: map<string, real>
    var payments: seq<Payment>
    var nextPaymentId: int

    /** The stores as one value. */
    function Model(): Store
      reads this
    {
      Store(users, orders, orderTotals, payments, nextPaymentId)
    }

    ghost predicate Valid()
      reads this
    {
      Consistent(Model())
    }

    /** The service over stores in the given state. */
    constructor (s: Store)
      requires Consistent(s)
      ensures Valid() && Model() == s
    {
      users, orders, orderTotals := s.users, s.orders, s.orderTotals;
      payments, nextPaymentId := s.payments, s.nextPaymentId;
    }

    method CreateAsync(dto: Option<PaymentDto>) returns (r: Result<PaymentDto, Error>)
      requires Valid()
      modifies this
      ensures Valid()
      ensures (Model(), r) == CreatePayment(old(Model()), dto)
    {
      CreatePreservesConsistent(Model(), dto);
      if dto.None? {
        return Err(NullRequest);
      }
      var d := dto.value;
      if d.userId !in users {
        return Err(UserNotFound);
      }
      if d.orderId !in orders {
        return Err(OrderNotFound);
      }
      var order := orders[d.orderId];
      if order.no !in orderTotals {
        return Err(OrderTotalNotFound);
      }
      if d.totalPrice != orderTotals[order.no] {
        return Err(AmountMismatch);
      }
      var existing := IndexOfOrder(payments, d.orderId);
      if existing.Some? {
        return Ok(ToDto(payments[existing.value]));
      }
      var payment := Payment(nextPaymentId, d.userId, d.orderId, d.totalPrice, StatusPayment.Processing);
      payments := payments + [payment];
      nextPaymentId := nextPaymentId + 1;
      order := order.(status := StatusOrder.Processing);
      orders := orders[d.orderId := order];
      r := Ok(ToDto(payment));
    }

    /** Every stored payment in transfer form, in row order. */
    method FindAll() returns (dtos: seq<PaymentDto>)
      ensures |dtos| == |payments|
      ensures forall i :: 0 <= i < |payments| ==> dtos[i] == ToDto(payments[i])
    {
      dtos := [];
      for i := 0 to |payments|
        invariant |dtos| == i
        invariant forall k :: 0 <= k < i ==> dtos[k] == ToDto(payments[k])
      {
        dtos := dtos + [ToDto(payments[i])];
      }
    }

    /** Every payment of one user in transfer form, in row order. */
    method FindByUser(userId: int) returns (dtos: seq<PaymentDto>)
      ensures |dtos| == |PaymentsOfUser(payments, userId)|
      ensures forall i :: 0 <= i < |dtos| ==> dtos[i] == ToDto(PaymentsOfUser(payments, userId)[i])
      ensures forall i :: 0 <= i < |dtos| ==> dtos[i].userId == userId
      ensures forall i :: 0 <= i < |payments| && payments[i].userId == userId ==> ToDto(payments[i]) in dtos
    {
      var ps := PaymentsOfUser(payments, userId);
      dtos := [];
      for i := 0 to |ps|
        invariant |dtos| == i
        invariant forall k :: 0 <= k < i ==> dtos[k] == ToDto(ps[k])
      {
        dtos := dtos + [ToDto(ps[i])];
      }
      forall i | 0 <= i < |payments| && payments[i].userId == userId
        ensures ToDto(payments[i]) in dtos
      {
        var k :| 0 <= k < |ps| && ps[k] == payments[i];
        assert dtos[k] == ToDto(payments[i]);
      }
    }

    method ConfirmAsync(paymentId: int) returns (r: Result<PaymentDto, Error>)
      requires Valid()
      modifies this
      ensures Valid()
      ensures (Model(), r) == Confirm(old(Model()), paymentId)
    {
      ConfirmPreserves(Model(), paymentId);
      var found := IndexOfId(payments, paymentId);
      if found.None? {
        return Err(PaymentNotFound);
      }
      var i := found.value;
      var payment := payments[i];
      if payment.orderId !in orders {
        return Err(OrderNotFound);
      }
      var order := orders[payment.orderId];
      order := order.(status := StatusOrder.Paid);
      orders := orders[payment.orderId := order];
      payment := payment.(status := StatusPayment.Confirmed);
      payments := payments[i := payment];
      r := Ok(ToDto(payment));
    }

    method UpdateStatusAsync(dto: PaymentDto) returns (r: Result<PaymentDto, Error>)
      requires Valid()
      modifies this
      ensures Valid()
      ensures (Model(), r) == UpdateStatus(old(Model()), dto)
    {
      UpdateStatusPreserves(Model(), dto);
      var found := IndexOfId(payments, dto.id);
      if found.None? {
        return Err(PaymentNotFound);
      }
      var i := found.value;
      var status := ParseStatus(dto.status);
      if status.None? {
        return Err(UnknownStatusName);
      }
      var payment := payments[i].(status := status.value);
      payments := payments[i := payment];
      r := Ok(ToDto(payment));
    }
  }
}
