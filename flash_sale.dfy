/**
 The flash-sale state machine: one sale record holding a time window, the
 stock left and the set of users who bought one unit. The record is created
 (and recreated once its window has passed), read through a status
 projection, and changed only by a purchase attempt that checks the window,
 then the buyer's earlier purchase, then the stock, and on success takes one
 unit and records the buyer.

 The first half states the service's behaviour as functions over the
 `SaleData` value, with lemmas about single steps and about whole sequences
 of purchase attempts; the second half is the service object itself, whose
 methods are proved against those functions.
 */
module FlashSale {
  import opened Models

  const NOT_ACTIVE_MSG := "The sale is not active."
  const DUPLICATE_MSG := "You have already purchased this item."
  const SOLD_OUT_MSG := "Sorry, the item is sold out."
  const SUCCESS_MSG := "Congratulations! You got one!"

  const PRODUCT_ID := "prod_123"
  const PRODUCT_NAME := "Smart Watch New in 2025"
  const PRODUCT_DESCRIPTION := "Experience the future with the 2025 edition Smart Watch. Featuring a brand new design, enhanced battery life, and futuristic AI capabilities."
  const PRODUCT_IMAGE_URL := "https://images.unsplash.com/photo-1546868871-7041f2a55e12?ixlib=rb-4.0.3&ixid=M3wxMjA3fDB8MHxwaG90by1wYWdlfHx8fGVufDB8fHx8fA%3D%3D&auto=format&fit=crop&w=1528&q=80"

  /** The sale record: window bounds (milliseconds), stock left, buyers so far. */
  datatype SaleData = SaleData(start: int, end: int, stock: int, purchases: set<string>)

  /** A purchase attempt's result together with the record it leaves behind. */
  datatype Step = Step(result: PurchaseResult, next: SaleData)

  /** The figures reported by the statistics query. */
  datatype SaleStats = SaleStats(totalPurchases: int, remainingStock: int, uniqueUsers: int)

  /** One purchase request: who asks, and when. */
  datatype Request = Request(userId: string, now: int)

  /** The results of a sequence of purchase requests, in order, and the final record. */
  datatype Trace = Trace(results: seq<PurchaseResult>, final: SaleData)

  /** Both window bounds are inclusive. */
  predicate InWindow(d: SaleData, now: int)
  {
    d.start <= now <= d.end
  }

  /**
   The record's invariant for a sale of `totalStock` units: stock left plus
   buyers is the total, and the stock is never negative unless nobody has
   bought (which is the only state reachable when the configured total is
   itself negative).
   */
  predicate Consistent(totalStock: int, d: SaleData)
  {
    d.stock + |d.purchases| == totalStock && (0 <= d.stock || d.purchases == {})
  }

  function Min(a: int, b: int): int
  {
    if a <= b then a else b
  }

  /** The product with the configured stock. */
  function SmartWatch(totalStock: int): (p: Product)
    ensures p.totalStock == totalStock && p.id == PRODUCT_ID
  {
    Product(PRODUCT_ID, PRODUCT_NAME, PRODUCT_DESCRIPTION, PRODUCT_IMAGE_URL, totalStock)
  }

  /**
   A fresh sale created at `now`: it opens after the pre-sale wait, lasts the
   sale duration, holds the full stock and has no buyers.
   */
  function InitialSale(totalStock: int, preSaleWaitMs: int, saleDurationMs: int, now: int): (d: SaleData)
    ensures Consistent(totalStock, d) && d.purchases == {} && d.stock == totalStock
    ensures d.start - now == preSaleWaitMs && d.end - d.start == saleDurationMs
  {
    var startTime := now + preSaleWaitMs;
    SaleData(startTime, startTime + saleDurationMs, totalStock, {})
  }

  /** Whether the requester (if one is named) is among the buyers. */
  predicate IsBuyer(d: SaleData, userId: Option<string>)
  {
    userId.Some? && userId.value in d.purchases
  }

  /**
   The status shown to `userId` at `now`. The checks run in a fixed order:
   before the window, after the window, out of stock (where a buyer is told
   of their success), otherwise open. The five outcomes partition the inputs.
   */
  function Status(d: SaleData, now: int, userId: Option<string>): (s: SaleStatus)
    ensures s == Upcoming <==> now < d.start
    ensures s == Ended <==> d.start <= now && d.end < now
    ensures s == Active <==> InWindow(d, now) && 0 < d.stock
    ensures s == SoldOut <==> InWindow(d, now) && d.stock <= 0 && !IsBuyer(d, userId)
    ensures s == PurchaseSuccess <==> InWindow(d, now) && d.stock <= 0 && IsBuyer(d, userId)
  {
    if now < d.start then Upcoming
    else if now > d.end then Ended
    else if d.stock <= 0 then
      (if IsBuyer(d, userId) then PurchaseSuccess else SoldOut)
    else Active
  }

  /**
   One purchase attempt by `userId` at `now`. It succeeds exactly when the
   window is open, the user has not bought yet and stock is left; a success
   takes exactly one unit and records exactly this user, and a refusal
   changes nothing. The window is never changed.
   */
  function Purchase(d: SaleData, userId: string, now: int): (s: Step)
    ensures s.result.success <==> InWindow(d, now) && userId !in d.purchases && 0 < d.stock
    ensures s.result.success ==> s.next == d.(stock := d.stock - 1, purchases := d.purchases + {userId})
    ensures s.result.success ==> |s.next.purchases| == |d.purchases| + 1
    ensures !s.result.success ==> s.next == d
    ensures s.result.userHasPurchased <==> InWindow(d, now) && userId in d.purchases
  {
    if now < d.start || now > d.end then
      Step(PurchaseResult(false, NOT_ACTIVE_MSG, false), d)
    else if userId in d.purchases then
      Step(PurchaseResult(false, DUPLICATE_MSG, true), d)
    else if d.stock <= 0 then
      Step(PurchaseResult(false, SOLD_OUT_MSG, false), d)
    else
      Step(PurchaseResult(true, SUCCESS_MSG, false), d.(stock := d.stock - 1, purchases := d.purchases + {userId}))
  }

  /** Outside the window the attempt is refused as not active and nothing changes. */
  lemma NotActiveOutsideWindow(d: SaleData, userId: string, now: int)
    requires !InWindow(d, now)
    ensures Purchase(d, userId, now) == Step(PurchaseResult(false, NOT_ACTIVE_MSG, false), d)
  {
  }

  /**
   Inside the window a returning buyer is always refused as a duplicate,
   whatever the stock, and nothing changes.
   */
  lemma DuplicateWinsOverSoldOut(d: SaleData, userId: string, now: int)
    requires InWindow(d, now) && userId in d.purchases
    ensures Purchase(d, userId, now) == Step(PurchaseResult(false, DUPLICATE_MSG, true), d)
  {
  }

  /** Inside the window a new buyer with no stock left is refused as sold out. */
  lemma SoldOutForNewBuyer(d: SaleData, userId: string, now: int)
    requires InWindow(d, now) && userId !in d.purchases && d.stock <= 0
    ensures Purchase(d, userId, now) == Step(PurchaseResult(false, SOLD_OUT_MSG, false), d)
  {
  }

  /** A success carries the congratulation message and no duplicate flag. */
  lemma AcceptedMessage(d: SaleData, userId: string, now: int)
    requires Purchase(d, userId, now).result.success
    ensures Purchase(d, userId, now).result == PurchaseResult(true, SUCCESS_MSG, false)
  {
  }

  /** A purchase attempt keeps the record's invariant. */
  lemma PurchasePreservesConsistency(totalStock: int, d: SaleData, userId: string, now: int)
    requires Consistent(totalStock, d)
    ensures Consistent(totalStock, Purchase(d, userId, now).next)
  {
  }

  /**
   The status a user is shown predicts what their purchase attempt at the same
   moment does: outside the window it is refused as not active, a buyer shown
   PurchaseSuccess is refused as a duplicate, a user shown SoldOut is refused
   as sold out, and a user shown Active succeeds exactly when they have not
   bought yet.
   */
  lemma StatusPredictsPurchase(d: SaleData, userId: string, now: int)
    ensures var st := Status(d, now, Some(userId));
      var r := Purchase(d, userId, now).result;
      && (st == Upcoming || st == Ended ==> r == PurchaseResult(false, NOT_ACTIVE_MSG, false))
      && (st == PurchaseSuccess ==> r == PurchaseResult(false, DUPLICATE_MSG, true))
      && (st == SoldOut ==> r == PurchaseResult(false, SOLD_OUT_MSG, false))
      && (st == Active ==> (r.success <==> userId !in d.purchases))
  {
  }

  /**
   A fresh sale created at `createdAt`, seen at any `now` no later than that:
   with a positive pre-sale wait it is upcoming with the full stock, and when
   the wait plus the duration is not negative it is never reported as ended.
   */
  lemma FreshSaleStatus(totalStock: int, preSaleWaitMs: int, saleDurationMs: int,
                        createdAt: int, now: int, userId: Option<string>)
    requires now <= createdAt
    ensures var d := InitialSale(totalStock, preSaleWaitMs, saleDurationMs, createdAt);
      && (0 < preSaleWaitMs ==> Status(d, now, userId) == Upcoming && d.stock == totalStock)
      && (0 <= preSaleWaitMs + saleDurationMs ==> Status(d, now, userId) != Ended)
  {
  }

  // ---------------------------------------------------------------------
  // Sequences of purchase attempts against one sale record.
  // ---------------------------------------------------------------------

  /** Runs the requests one after the other, each against the record the previous one left. */
  function Run(d: SaleData, reqs: seq<Request>): (t: Trace)
    ensures |t.results| == |reqs|
    ensures t.final.start == d.start && t.final.end == d.end
    ensures d.purchases <= t.final.purchases
    decreases |reqs|
  {
    if reqs == [] then Trace([], d)
    else
      var s := Purchase(d, reqs[0].userId, reqs[0].now);
      var rest := Run(s.next, reqs[1..]);
      Trace([s.result] + rest.results, rest.final)
  }

  /** How many of the results are successes. */
  function Accepted(results: seq<PurchaseResult>): (n: nat)
    ensures n <= |results|
  {
    if results == [] then 0
    else (if results[0].success then 1 else 0) + Accepted(results[1..])
  }

  /** How many of the results are successes of requests made by `u`. */
  function AcceptedFor(reqs: seq<Request>, results: seq<PurchaseResult>, u: string): (n: nat)
    requires |reqs| == |results|
    ensures n <= |reqs|
  {
    if reqs == [] then 0
    else (if results[0].success && reqs[0].userId == u then 1 else 0) + AcceptedFor(reqs[1..], results[1..], u)
  }

  /**
   Over any sequence of attempts, every success takes exactly one unit and
   adds exactly one buyer: the stock falls, and the buyer count rises, by the
   number of successes.
   */
  lemma {:induction false} RunCountsAccepted(d: SaleData, reqs: seq<Request>)
    ensures var t := Run(d, reqs);
      && d.stock - t.final.stock == Accepted(t.results)
      && |t.final.purchases| == |d.purchases| + Accepted(t.results)
    decreases |reqs|
  {
    if reqs != [] {
      var s := Purchase(d, reqs[0].userId, reqs[0].now);
      var rest := Run(s.next, reqs[1..]);
      RunCountsAccepted(s.next, reqs[1..]);
      assert ([s.result] + rest.results)[1..] == rest.results;
    }
  }

  /** Conservation: every sequence of attempts keeps the record's invariant. */
  lemma {:induction false} RunPreservesConsistency(totalStock: int, d: SaleData, reqs: seq<Request>)
    requires Consistent(totalStock, d)
    ensures Consistent(totalStock, Run(d, reqs).final)
    decreases |reqs|
  {
    if reqs != [] {
      var s := Purchase(d, reqs[0].userId, reqs[0].now);
      PurchasePreservesConsistency(totalStock, d, reqs[0].userId, reqs[0].now);
      RunPreservesConsistency(totalStock, s.next, reqs[1..]);
    }
  }

  /**
   No double purchase: over any sequence of attempts a user succeeds at most
   once, and not at all if they had bought before it; afterwards they are a
   buyer exactly when they were one before or succeeded once.
   */
  lemma {:induction false} RunAcceptsEachUserAtMostOnce(d: SaleData, reqs: seq<Request>, u: string)
    ensures var t := Run(d, reqs);
      && (if u in d.purchases then 1 else 0) + AcceptedFor(reqs, t.results, u) <= 1
      && (u in t.final.purchases <==> u in d.purchases || AcceptedFor(reqs, t.results, u) == 1)
    decreases |reqs|
  {
    if reqs != [] {
      var s := Purchase(d, reqs[0].userId, reqs[0].now);
      var rest := Run(s.next, reqs[1..]);
      RunAcceptsEachUserAtMostOnce(s.next, reqs[1..], u);
      assert ([s.result] + rest.results)[1..] == rest.results;
    }
  }

  /**
   Exact exhaustion: when distinct new users all ask inside the window of a
   record with `n` units left, the first `n` of them succeed and every later
   one is refused as sold out (none as a duplicate); the stock ends at
   `n` minus the number of requests, or at zero if there were more requests.
   */
  lemma {:induction false} RunExhaustsStock(d: SaleData, reqs: seq<Request>)
    requires 0 <= d.stock
    requires forall i :: 0 <= i < |reqs| ==> InWindow(d, reqs[i].now) && reqs[i].userId !in d.purchases
    requires forall i, j :: 0 <= i < j < |reqs| ==> reqs[i].userId != reqs[j].userId
    ensures var t := Run(d, reqs);
      && (forall i :: 0 <= i < |reqs| ==>
            t.results[i] == if i < d.stock then PurchaseResult(true, SUCCESS_MSG, false)
                            else PurchaseResult(false, SOLD_OUT_MSG, false))
      && Accepted(t.results) == Min(d.stock, |reqs|)
      && t.final.stock == d.stock - Min(d.stock, |reqs|)
    decreases |reqs|
  {
    if reqs != [] {
      var s := Purchase(d, reqs[0].userId, reqs[0].now);
      var tail := reqs[1..];
      assert forall i :: 0 <= i < |tail| ==> tail[i] == reqs[i + 1];
      assert forall i :: 0 <= i < |tail| ==> InWindow(s.next, tail[i].now) && tail[i].userId !in s.next.purchases;
      RunExhaustsStock(s.next, tail);
      RunCountsAccepted(d, reqs);
    }
  }

  // ---------------------------------------------------------------------
  // The service object.
  // ---------------------------------------------------------------------

  /**
   The sale service. It owns at most one sale record; the product, the
   pre-sale wait and the sale duration are fixed when it is created. The
   current time is passed to each operation that reads the clock.
   */
  class FlashSaleService {
    const product: Product
    const preSaleWaitMs: int
    const saleDurationMs: int
    var saleData: Option<SaleData>

    /** The record, when present, keeps the conservation invariant. */
    ghost predicate Valid()
      reads this
    {
      saleData.Some? ==> Consistent(product.totalStock, saleData.value)
    }

    /** A fresh record for a sale (re)started at `now`. */
    function Fresh(now: int): SaleData
    {
      InitialSale(product.totalStock, preSaleWaitMs, saleDurationMs, now)
    }

    /** Creating the service starts the first sale at `now`. */
    constructor (totalStock: int, preSaleWaitMs: int, saleDurationMs: int, now: int)
      ensures product == SmartWatch(totalStock)
      ensures this.preSaleWaitMs == preSaleWaitMs && this.saleDurationMs == saleDurationMs
      ensures saleData == Some(InitialSale(totalStock, preSaleWaitMs, saleDurationMs, now))
      ensures Valid()
    {
      product := SmartWatch(totalStock);
      this.preSaleWaitMs := preSaleWaitMs;
      this.saleDurationMs := saleDurationMs;
      saleData := Some(InitialSale(totalStock, preSaleWaitMs, saleDurationMs, now));
    }

    /** Replaces whatever record there was with a fresh one started at `now`. */
    method InitializeSale(now: int)
      modifies this
      ensures saleData == Some(Fresh(now))
      ensures saleData.value.stock == product.totalStock && saleData.value.purchases == {}
      ensures Valid()
    {
      var startTime := now + preSaleWaitMs;
      saleData := Some(SaleData(startTime, startTime + saleDurationMs, product.totalStock, {}));
    }

    /**
     Reads the sale for `userId` (if one is given) at `now`. The record is
     recreated exactly when there is none or its window ended before `now`;
     otherwise it is left as it was. Recreation reads the clock a second
     time, which gives `initNow`; the status is still taken at `now`. The
     snapshot carries the status of the resulting record.
     */
    method GetCurrentSaleState(userId: Option<string>, now: int, initNow: int) returns (state: FlashSaleState)
      modifies this
      ensures old(saleData).None? || old(saleData).value.end < now ==> saleData == Some(Fresh(initNow))
      ensures old(saleData).Some? && now <= old(saleData).value.end ==> saleData == old(saleData)
      ensures saleData.Some?
      ensures state == FlashSaleState(product, saleData.value.stock, Status(saleData.value, now, userId),
                                      saleData.value.start, saleData.value.end)
      ensures old(Valid()) ==> Valid()
      ensures (old(saleData).None? || old(saleData).value.end < now) && 0 < preSaleWaitMs && now <= initNow
              ==> state.status == Upcoming && state.currentStock == product.totalStock
      ensures 0 <= preSaleWaitMs + saleDurationMs && now <= initNow ==> state.status != Ended
    {
      if saleData.None? || now > saleData.value.end {
        InitializeSale(initNow);
      }
      var d := saleData.value;
      var status;
      if now < d.start {
        status := Upcoming;
      } else if now > d.end {
        status := Ended;
      } else if d.stock <= 0 {
        status := SoldOut;
        if userId.Some? && userId.value in d.purchases {
          status := PurchaseSuccess;
        }
      } else {
        status := Active;
      }
      state := FlashSaleState(product, d.stock, status, d.start, d.end);
    }

    /**
     One purchase attempt by `userId` at `now` against the current record
     (which must exist: this operation does not recreate it). Result and new
     record are those of `Purchase`; the record's invariant is kept, and a
     success makes the user a buyer.
     */
    method AttemptPurchase(userId: string, now: int) returns (r: PurchaseResult)
      requires saleData.Some?
      modifies this
      ensures saleData.Some? && Step(r, saleData.value) == Purchase(old(saleData.value), userId, now)
      ensures old(Valid()) ==> Valid()
      ensures r.success ==> HasUserPurchased(userId) && GetStats().remainingStock == old(GetStats().remainingStock) - 1
    {
      var d := saleData.value;
      if now < d.start || now > d.end {
        return PurchaseResult(false, NOT_ACTIVE_MSG, false);
      }
      if userId in d.purchases {
        return PurchaseResult(false, DUPLICATE_MSG, true);
      }
      if d.stock <= 0 {
        return PurchaseResult(false, SOLD_OUT_MSG, false);
      }
      saleData := Some(d.(stock := d.stock - 1));
      saleData := Some(saleData.value.(purchases := saleData.value.purchases + {userId}));
      r := PurchaseResult(true, SUCCESS_MSG, false);
    }

    /** Whether `userId` has bought in the current sale; false when there is no record. */
    function HasUserPurchased(userId: string): (b: bool)
      reads this
      ensures saleData.None? ==> !b
      ensures saleData.Some? ==> (b <==> userId in saleData.value.purchases)
      ensures b ==> 0 < GetStats().uniqueUsers
    {
      if saleData.Some? then userId in saleData.value.purchases else false
    }

    /** Administrative reset: the same fresh record as `InitializeSale`, whatever came before. */
    method ResetSale(now: int)
      modifies this
      ensures saleData == Some(Fresh(now))
      ensures saleData.value.stock == product.totalStock && saleData.value.purchases == {}
      ensures Valid()
    {
      InitializeSale(now);
    }

    /**
     Purchase statistics: with no record, no purchases and the full stock;
     otherwise one purchase per buyer and the stock left. Under the invariant
     purchases plus stock left is the product's total.
     */
    function GetStats(): (s: SaleStats)
      reads this
      ensures saleData.None? ==> s == SaleStats(0, product.totalStock, 0)
      ensures saleData.Some? ==> s.totalPurchases == s.uniqueUsers == |saleData.value.purchases|
                                 && s.remainingStock == saleData.value.stock
      ensures Valid() ==> s.totalPurchases + s.remainingStock == product.totalStock
    {
      if saleData.None? then SaleStats(0, product.totalStock, 0)
      else
        var n := |saleData.value.purchases|;
        SaleStats(n, saleData.value.stock, n)
    }

    /**
     The buyers of the current sale as a list: exactly the users for whom
     `HasUserPurchased` holds, each once; empty when there is no record.
     */
    method ListAllPurchases() returns (list: seq<string>)
      ensures forall u :: u in list <==> HasUserPurchased(u)
      ensures forall i, j :: 0 <= i < j < |list| ==> list[i] != list[j]
      ensures |list| == GetStats().totalPurchases
    {
      list := [];
      if saleData.None? {
        return;
      }
      var all := saleData.value.purchases;
      var rest := all;
      while rest != {}
        invariant rest <= all
        invariant forall u :: u in list <==> u in all && u !in rest
        invariant forall i, j :: 0 <= i < j < |list| ==> list[i] != list[j]
        invariant |list| + |rest| == |all|
        decreases rest
      {
        var u :| u in rest;
        list := list + [u];
        rest := rest - {u};
      }
    }
  }
}
