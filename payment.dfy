/** The body `payForPnrs` sends to create a payment for a list of basket trips. */
module Payment {
  import opened Entities

  /** The payment mean the client always asks for. */
  const MEAN: string := "payment_card"

  /** The `payment` object of the request body. */
  datatype PaymentRequest = PaymentRequest(
    cents: int,
    currency: string,
    mean: string,
    paymentCardId: Id,
    cvvCode: string,
    pnrIds: seq<Option<Id>>)

  /** The `reduce` of `payForPnrs`: the cents added from the left, starting at 0. */
  function TotalCents(pnrs: seq<Trip>): (total: int)
    ensures |pnrs| == 1 ==> total == pnrs[0].cents
  {
    if pnrs == [] then 0 else TotalCents(pnrs[..|pnrs| - 1]) + pnrs[|pnrs| - 1].cents
  }

  /** No trip has a negative price. */
  predicate NonNegative(pnrs: seq<Trip>)
  {
    forall k :: 0 <= k < |pnrs| ==> pnrs[k].cents >= 0
  }

  /** With no negative prices, the total is not negative. */
  lemma {:induction false} TotalCentsNonNegative(pnrs: seq<Trip>)
    requires NonNegative(pnrs)
    ensures TotalCents(pnrs) >= 0
  {
    if pnrs != [] {
      var p := pnrs[..|pnrs| - 1];
      assert NonNegative(p);
      TotalCentsNonNegative(p);
    }
  }

  /** With no negative prices, the total is at least the price of each trip. */
  lemma {:induction false} TotalCentsAtLeastEach(pnrs: seq<Trip>, k: nat)
    requires NonNegative(pnrs) && k < |pnrs|
    ensures pnrs[k].cents <= TotalCents(pnrs)
  {
    var n := |pnrs| - 1;
    var p := pnrs[..n];
    assert NonNegative(p);
    if k < n {
      assert p[k] == pnrs[k];
      TotalCentsAtLeastEach(p, k);
    } else {
      TotalCentsNonNegative(p);
    }
  }

  /**
   * `payForPnrs` up to the first request: no request for an empty list;
   * otherwise the total of the cents, the first trip's currency, the card and
   * CVV as given, and the trips' PNR ids in input order (`undefined` for a
   * row that was never joined).
   */
  function PayForPnrs(paymentCardId: Id, cvv: string, pnrs: seq<Trip>): (r: Option<PaymentRequest>)
    ensures r.None? <==> pnrs == []
    ensures r.Some? ==>
      r.value.cents == TotalCents(pnrs) && r.value.currency == pnrs[0].currency && r.value.mean == MEAN &&
      r.value.paymentCardId == paymentCardId && r.value.cvvCode == cvv
    ensures r.Some? ==>
      |r.value.pnrIds| == |pnrs| && forall k :: 0 <= k < |pnrs| ==> r.value.pnrIds[k] == pnrs[k].pnrId
  {
    if |pnrs| == 0 then None
    else
      Some(PaymentRequest(TotalCents(pnrs), pnrs[0].currency, MEAN, paymentCardId, cvv,
                          seq(|pnrs|, k requires 0 <= k < |pnrs| => pnrs[k].pnrId)))
  }

  /** The total of a concatenation is the sum of the totals. */
  lemma {:induction false} TotalCentsAppend(a: seq<Trip>, b: seq<Trip>)
    ensures TotalCents(a + b) == TotalCents(a) + TotalCents(b)
  {
    if b == [] {
      assert a + b == a;
    } else {
      var p, x := b[..|b| - 1], b[|b| - 1];
      assert b == p + [x];
      assert (a + b)[..|a + b| - 1] == a + p;
      TotalCentsAppend(a, p);
    }
  }

  /** Adding a trip at the end adds its cents, as one more step of the `reduce`. */
  lemma TotalCentsSnoc(pnrs: seq<Trip>, x: Trip)
    ensures TotalCents(pnrs + [x]) == TotalCents(pnrs) + x.cents
  {
    assert (pnrs + [x])[..|pnrs|] == pnrs;
  }

  /** Removing one trip from the list takes its cents off the total. */
  lemma TotalCentsRemove(front: seq<Trip>, x: Trip, back: seq<Trip>)
    ensures TotalCents(front + [x] + back) == TotalCents(front + back) + x.cents
  {
    TotalCentsAppend(front + [x], back);
    TotalCentsAppend(front, back);
    TotalCentsSnoc(front, x);
  }

  /** Taking one occurrence out of the middle of a list removes it from the multiset. */
  lemma MultisetRemove<T>(front: seq<T>, x: T, back: seq<T>)
    ensures multiset(front + back) == multiset(front + [x] + back) - multiset{x}
  {
  }

  /**
   * When `b` is a permutation of `a`, the last trip of `a` sits somewhere in
   * `b`, and what is around it is a permutation of the rest of `a`.
   */
  lemma SplitLast(a: seq<Trip>, b: seq<Trip>) returns (front: seq<Trip>, back: seq<Trip>)
    requires multiset(a) == multiset(b) && a != []
    ensures b == front + [a[|a| - 1]] + back
    ensures multiset(a[..|a| - 1]) == multiset(front + back)
  {
    var p, x := a[..|a| - 1], a[|a| - 1];
    assert a == p + [x];
    assert x in b by {
      assert x in multiset(a);
    }
    var i :| 0 <= i < |b| && b[i] == x;
    front, back := b[..i], b[i + 1..];
    assert b == front + [x] + back;
    MultisetRemove(p, x, []);
    MultisetRemove(front, x, back);
    assert p + [] == p && p + [x] + [] == a;
    assert multiset(p) == multiset(a) - multiset{x};
    assert multiset(front + back) == multiset(b) - multiset{x};
  }

  /** The total does not depend on the order of the trips. */
  lemma {:induction false} TotalCentsPermutation(a: seq<Trip>, b: seq<Trip>)
    requires multiset(a) == multiset(b)
    ensures TotalCents(a) == TotalCents(b)
  {
    if a == [] {
      assert |multiset(b)| == 0;
    } else {
      var p, x := a[..|a| - 1], a[|a| - 1];
      var front, back := SplitLast(a, b);
      TotalCentsPermutation(p, front + back);
      TotalCentsRemove(front, x, back);
      TotalCentsSnoc(p, x);
      assert a == p + [x];
    }
  }
}
