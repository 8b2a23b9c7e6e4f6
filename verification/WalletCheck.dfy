/**
 The capacity check in plain terms: when each status and each error is reported, which
 wallets are named, and in what order.
 */
module WalletCheck {
  import opened Wrappers
  import opened Int64
  import opened Trustline

  // ------------------------------------------------------------------
  // One wallet
  // ------------------------------------------------------------------

  /** 56 characters: G, then letters of the base-32 alphabet. */
  predicate WellFormed(a: string)
  {
    |a| == 56 && a[0] == 'G' && forall i :: 1 <= i < 56 ==> a[i] in "ABCDEFGHIJKLMNOPQRSTUVWXYZ234567"
  }

  lemma WellFormedIff(a: string)
    ensures ValidAddress(a) <==> WellFormed(a)
  {
    forall c
      ensures c in "ABCDEFGHIJKLMNOPQRSTUVWXYZ234567" <==> 'A' <= c <= 'Z' || '2' <= c <= '7'
    {
      Alphabet(c);
    }
  }

  lemma Alphabet(c: char)
    ensures c in "ABCDEFGHIJKLMNOPQRSTUVWXYZ234567" <==> 'A' <= c <= 'Z' || '2' <= c <= '7'
  {
    var s := "ABCDEFGHIJKLMNOPQRSTUVWXYZ234567";
    if 'A' <= c <= 'Z' {
      var k := (c - 'A') as nat;
      assert k < 13 || k >= 13;
      LetterAt(k);
      assert s[k] == c;
    } else if '2' <= c <= '7' {
      var k := (c - '2') as nat;
      assert k == 0 || k == 1 || k == 2 || k == 3 || k == 4 || k == 5;
      assert s[26 + k] == c;
    }
  }

  lemma LetterAt(k: nat)
    requires k < 26
    ensures "ABCDEFGHIJKLMNOPQRSTUVWXYZ234567"[k] == 'A' + k as char
  {
    assert k == 0 || k == 1 || k == 2 || k == 3 || k == 4 || k == 5 || k == 6 || k == 7 || k == 8 || k == 9 || k == 10
           || k == 11 || k == 12 || k == 13 || k == 14 || k == 15 || k == 16 || k == 17 || k == 18 || k == 19 || k == 20
           || k == 21 || k == 22 || k == 23 || k == 24 || k == 25;
  }

  /** A line in the prize asset: not the native one, same code, same issuer. */
  predicate InAsset(b: Balance, asset: Asset)
  {
    b.native == false && b.code == asset.code && b.issuer == asset.issuer
  }

  /** The i-th line is the first one in the asset. */
  predicate FirstAt(lines: seq<Balance>, asset: Asset, i: nat)
  {
    i < |lines| && InAsset(lines[i], asset) && forall k :: 0 <= k < i ==> !InAsset(lines[k], asset)
  }

  lemma {:induction false} FirstLineAt(lines: seq<Balance>, asset: Asset, i: nat)
    requires FirstAt(lines, asset, i)
    ensures FirstLine(lines, asset) == Some(lines[i])
  {
    if i > 0 {
      FirstLineAt(lines[1..], asset, i - 1);
    }
  }

  lemma {:induction false} NoLine(lines: seq<Balance>, asset: Asset)
    ensures FirstLine(lines, asset).None? <==> forall k :: 0 <= k < |lines| ==> !InAsset(lines[k], asset)
  {
    if lines != [] {
      NoLine(lines[1..], asset);
      assert lines == [lines[0]] + lines[1..];
    }
  }

  /** The malformed address comes before anything the ledger says, and the ledger before any line. */
  lemma WithoutLine(src: AccountSource, asset: Asset, a: string, need: int64)
    ensures var r := Classify(src, asset, a, need);
      && (r == Failure(InvalidAddress(a)) <==> !WellFormed(a))
      && (r == Failure(LoadFailed(a)) <==> WellFormed(a) && src(a) == LookupFailed)
      && (r == Success(StatusNoAccount) <==> WellFormed(a) && src(a) == AccountNotFound)
      && (r == Success(StatusNoTrustline) <==>
            && WellFormed(a) && src(a).Balances?
            && forall k :: 0 <= k < |src(a).lines| ==> !InAsset(src(a).lines[k], asset))
  {
    hide ValidAddress, WellFormed;
    WellFormedIff(a);
    if src(a).Balances? {
      NoLine(src(a).lines, asset);
    }
  }

  /** The first line in the asset decides: authorised, then room for the need. */
  lemma WithLine(src: AccountSource, asset: Asset, a: string, need: int64, i: nat)
    requires WellFormed(a) && src(a).Balances? && FirstAt(src(a).lines, asset, i)
    ensures var b := src(a).lines[i];
      Classify(src, asset, a, need) ==
      Success(match (b.authorized, b.headroom >= need)
              case (true, true) => StatusOK
              case (true, false) => StatusInsufficientLimit
              case (false, _) => StatusNotAuthorized)
  {
    WellFormedIff(a);
    hide ValidAddress, WellFormed;
    FirstLineAt(src(a).lines, asset, i);
  }

  // ------------------------------------------------------------------
  // Needs
  // ------------------------------------------------------------------

  /** Payout by payout: a payout of less than one stroop counts as one. */
  function SumFor(payouts: seq<Payout>, a: string): int
  {
    if payouts == [] then 0
    else
      (if payouts[0].address != a then 0 else if payouts[0].stroops >= 1 then payouts[0].stroops else 1)
      + SumFor(payouts[1..], a)
  }

  lemma {:induction false} NeedIsSum(payouts: seq<Payout>, a: string)
    ensures NeedOf(payouts, a) == SumFor(payouts, a)
  {
    if payouts != [] {
      NeedIsSum(payouts[1..], a);
      NeedFirst(payouts, a);
    }
  }

  lemma {:induction false} NeedFirst(payouts: seq<Payout>, a: string)
    requires payouts != []
    ensures NeedOf(payouts, a)
         == (if payouts[0].address != a then 0 else if payouts[0].stroops >= 1 then payouts[0].stroops else 1)
            + NeedOf(payouts[1..], a)
  {
    if |payouts| > 1 {
      var n := |payouts| - 1;
      NeedFirst(payouts[..n], a);
      assert payouts[..n][1..] == payouts[1..][..n - 1];
    } else {
      assert payouts[..0] == [] && payouts[1..] == [];
    }
  }

  // ------------------------------------------------------------------
  // The list of wallets
  // ------------------------------------------------------------------

  /** Where an address is first paid. */
  function FirstPaid(payouts: seq<Payout>, a: string): nat
  {
    if payouts == [] || payouts[0].address == a then 0 else 1 + FirstPaid(payouts[1..], a)
  }

  lemma {:induction false} FirstPaidSnoc(payouts: seq<Payout>, a: string)
    requires payouts != []
    ensures var n := |payouts| - 1;
      && (Listed(payouts[..n], a) ==> FirstPaid(payouts, a) == FirstPaid(payouts[..n], a) < n)
      && (!Listed(payouts[..n], a) && payouts[n].address == a ==> FirstPaid(payouts, a) == n)
  {
    var n := |payouts| - 1;
    if n > 0 {
      assert payouts[..n][1..] == payouts[1..][..n - 1];
      FirstPaidSnoc(payouts[1..], a);
      if Listed(payouts[..n], a) && payouts[0].address != a {
        var i :| 0 <= i < n && payouts[..n][i].address == a;
        assert payouts[..n][1..][i - 1].address == a;
      }
      if !Listed(payouts[..n], a) {
        assert payouts[..n][0].address != a;
      }
    }
  }

  /** Addresses are listed in the order in which they are first paid. */
  lemma {:induction false} OrderAscends(payouts: seq<Payout>, i: nat, j: nat)
    requires i < j < |Order(payouts)|
    ensures FirstPaid(payouts, Order(payouts)[i]) < FirstPaid(payouts, Order(payouts)[j])
  {
    hide FirstPaid, Listed;
    var n := |payouts| - 1;
    var before, order := Order(payouts[..n]), Order(payouts);
    assert order[i] in before by { assert order[i] == before[i]; }
    OrderLists(payouts[..n], order[i]);
    FirstPaidSnoc(payouts, order[i]);
    FirstPaidSnoc(payouts, order[j]);
    if j < |before| {
      OrderAscends(payouts[..n], i, j);
      assert order[j] in before by { assert order[j] == before[j]; }
    }
    OrderLists(payouts[..n], order[j]);
  }

  /** What one address needs, in the machine's arithmetic. */
  function Asked(payouts: seq<Payout>, a: string): int64
  {
    Wrap(SumFor(payouts, a))
  }

  lemma {:induction false} ResultsAre(src: AccountSource, asset: Asset, payouts: seq<Payout>, order: seq<string>)
    ensures var r := ClassifyFrom(src, asset, payouts, order);
      && (r.Success? <==>
            forall i :: 0 <= i < |order| ==> Classify(src, asset, order[i], Asked(payouts, order[i])).Success?)
      && (r.Success? ==>
            && |r.value| == |order|
            && forall i :: 0 <= i < |order| ==>
                 r.value[i].address == order[i]
                 && Classify(src, asset, order[i], Asked(payouts, order[i])) == Success(r.value[i].status))
      && (r.Failure? ==> exists i :: 0 <= i < |order| && FailsFirst(src, asset, payouts, order, i, r.error))
  {
    hide Wrap, Classify, NeedOf;
    if order != [] {
      var n := |order| - 1;
      ResultsAre(src, asset, payouts, order[..n]);
      NeedIsSum(payouts, order[n]);
      var r := ClassifyFrom(src, asset, payouts, order);
      if ClassifyFrom(src, asset, payouts, order[..n]).Failure? {
        var i :| 0 <= i < n && FailsFirst(src, asset, payouts, order[..n], i, r.error);
        assert FailsFirst(src, asset, payouts, order, i, r.error);
        assert order[..n][i] == order[i];
      } else {
        forall i | 0 <= i < n
          ensures Classify(src, asset, order[i], Asked(payouts, order[i])).Success?
        {
          assert order[..n][i] == order[i];
        }
        if r.Failure? {
          assert FailsFirst(src, asset, payouts, order, n, r.error);
        }
      }
    }
  }

  /** The i-th address is the first that cannot be classified. */
  predicate FailsFirst(src: AccountSource, asset: Asset, payouts: seq<Payout>, order: seq<string>, i: nat,
                       e: VerifyError)
    requires i < |order|
  {
    && Classify(src, asset, order[i], Asked(payouts, order[i])) == Failure(e)
    && forall k :: 0 <= k < i ==> Classify(src, asset, order[k], Asked(payouts, order[k])).Success?
  }

  /** A wallet is in a list of results. */
  predicate Has(results: seq<WalletResult>, a: string, status: Status)
  {
    exists i :: 0 <= i < |results| && results[i] == WalletResult(a, status)
  }

  predicate Ascends(payouts: seq<Payout>, results: seq<WalletResult>)
  {
    forall i, j :: 0 <= i < j < |results| ==>
      FirstPaid(payouts, results[i].address) < FirstPaid(payouts, results[j].address)
  }

  lemma {:induction false} FailingAre(payouts: seq<Payout>, results: seq<WalletResult>, a: string, status: Status)
    ensures Has(Failing(results), a, status) <==> Has(results, a, status) && status != StatusOK
    ensures Ascends(payouts, results) ==> Ascends(payouts, Failing(results))
  {
    hide FirstPaid;
    if results != [] {
      var n := |results| - 1;
      FailingAre(payouts, results[..n], a, status);
      HasSnoc(results, a, status);
      assert Failing(results) == Failing(results[..n]) + if results[n].status != StatusOK then [results[n]] else [];
      if results[n].status != StatusOK {
        HasSnoc(Failing(results), a, status);
        assert Failing(results)[..|Failing(results)| - 1] == Failing(results[..n]);
        if Ascends(payouts, results) {
          LastHighest(payouts, results);
        }
      }
    }
  }

  lemma HasSnoc(results: seq<WalletResult>, a: string, status: Status)
    requires results != []
    ensures var n := |results| - 1;
      Has(results, a, status) <==> Has(results[..n], a, status) || results[n] == WalletResult(a, status)
  {
    var n := |results| - 1;
    if Has(results, a, status) && results[n] != WalletResult(a, status) {
      var i :| 0 <= i < |results| && results[i] == WalletResult(a, status);
      assert results[..n][i] == WalletResult(a, status);
    }
    if Has(results[..n], a, status) {
      var i :| 0 <= i < n && results[..n][i] == WalletResult(a, status);
      assert results[i] == WalletResult(a, status);
    }
  }

  lemma LastHighest(payouts: seq<Payout>, results: seq<WalletResult>)
    requires results != [] && Ascends(payouts, results)
    requires Ascends(payouts, Failing(results[..|results| - 1]))
    ensures Ascends(payouts, Failing(results[..|results| - 1]) + [results[|results| - 1]])
  {
    hide FirstPaid;
    var n := |results| - 1;
    var failing := Failing(results[..n]);
    forall i | 0 <= i < |failing|
      ensures FirstPaid(payouts, failing[i].address) < FirstPaid(payouts, results[n].address)
    {
      FailingFrom(results[..n], i);
      var k :| 0 <= k < n && results[..n][k] == failing[i];
      assert results[k] == failing[i];
    }
  }

  lemma {:induction false} FailingFrom(results: seq<WalletResult>, i: nat)
    requires i < |Failing(results)|
    ensures exists k :: 0 <= k < |results| && results[k] == Failing(results)[i]
  {
    var n := |results| - 1;
    if i < |Failing(results[..n])| {
      FailingFrom(results[..n], i);
      var k :| 0 <= k < n && results[..n][k] == Failing(results[..n])[i];
      assert results[k] == Failing(results)[i];
    }
  }

  // ------------------------------------------------------------------
  // Main result
  // ------------------------------------------------------------------

  /**
   The check aborts exactly when some paid address cannot be classified, with the error of the
   first such address; otherwise it names exactly the wallets that are not fine, with their
   status, in the order in which they are first paid, and accepts when there are none.
   */
  lemma OutcomeIs(src: AccountSource, asset: Asset, payouts: seq<Payout>)
    ensures var outcome := RequireOutcome(src, asset, payouts);
      && (outcome.Aborted? <==>
            exists a :: Listed(payouts, a) && Classify(src, asset, a, Asked(payouts, a)).Failure?)
      && (outcome.Aborted? ==> exists a :: AbortsAt(src, asset, payouts, a, outcome.error))
      && (outcome.Missing? ==>
            && outcome.wallets != [] && Ascends(payouts, outcome.wallets)
            && forall a, status :: Has(outcome.wallets, a, status) <==>
                 && Listed(payouts, a) && status != StatusOK
                 && Classify(src, asset, a, Asked(payouts, a)) == Success(status))
      && (outcome.Accepted? <==>
            forall a :: Listed(payouts, a) ==> Classify(src, asset, a, Asked(payouts, a)) == Success(StatusOK))
  {
    hide Classify, Order, ClassifyFrom, Failing, Asked, FirstPaid, Has, Ascends;
    var order := Order(payouts);
    var r := ClassifyFrom(src, asset, payouts, order);
    ResultsAre(src, asset, payouts, order);
    OrderIsListed(payouts);
    AcceptedAre(src, asset, payouts);
    if r.Failure? {
      var i :| 0 <= i < |order| && FailsFirst(src, asset, payouts, order, i, r.error);
      FirstFailure(src, asset, payouts, i, r.error);
    } else {
      ResultsSay(src, asset, payouts, r.value);
      forall a, status
        ensures Has(Failing(r.value), a, status) <==> Has(r.value, a, status) && status != StatusOK
      {
        FailingAre(payouts, r.value, a, status);
      }
      FailingAre(payouts, r.value, "", StatusOK);
    }
  }

  lemma OrderIsListed(payouts: seq<Payout>)
    ensures forall i :: 0 <= i < |Order(payouts)| ==> Listed(payouts, Order(payouts)[i])
    ensures forall a :: Listed(payouts, a) ==> exists i :: 0 <= i < |Order(payouts)| && Order(payouts)[i] == a
  {
    hide Listed, Order;
    forall i | 0 <= i < |Order(payouts)|
      ensures Listed(payouts, Order(payouts)[i])
    {
      assert Order(payouts)[i] in Order(payouts);
      OrderLists(payouts, Order(payouts)[i]);
    }
    forall a | Listed(payouts, a)
      ensures exists i :: 0 <= i < |Order(payouts)| && Order(payouts)[i] == a
    {
      OrderLists(payouts, a);
    }
  }

  /** No address that is paid before this one fails. */
  ghost predicate AbortsAt(src: AccountSource, asset: Asset, payouts: seq<Payout>, a: string, e: VerifyError)
  {
    && Listed(payouts, a) && Classify(src, asset, a, Asked(payouts, a)) == Failure(e)
    && forall b :: Listed(payouts, b) && FirstPaid(payouts, b) < FirstPaid(payouts, a) ==>
         Classify(src, asset, b, Asked(payouts, b)).Success?
  }

  lemma FirstFailure(src: AccountSource, asset: Asset, payouts: seq<Payout>, i: nat, e: VerifyError)
    requires i < |Order(payouts)| && FailsFirst(src, asset, payouts, Order(payouts), i, e)
    ensures AbortsAt(src, asset, payouts, Order(payouts)[i], e)
  {
    hide Classify, Order, Asked, FirstPaid, Listed;
    var order := Order(payouts);
    OrderIsListed(payouts);
    forall b | Listed(payouts, b) && FirstPaid(payouts, b) < FirstPaid(payouts, order[i])
      ensures Classify(src, asset, b, Asked(payouts, b)).Success?
    {
      var k :| 0 <= k < |order| && order[k] == b;
      if k > i {
        OrderAscends(payouts, i, k);
      }
    }
  }

  lemma ResultsSay(src: AccountSource, asset: Asset, payouts: seq<Payout>, results: seq<WalletResult>)
    requires ClassifyFrom(src, asset, payouts, Order(payouts)) == Success(results)
    ensures Ascends(payouts, results)
    ensures forall a, status :: Has(results, a, status) <==>
              Listed(payouts, a) && Classify(src, asset, a, Asked(payouts, a)) == Success(status)
  {
    hide Classify, Order, ClassifyFrom, Asked, FirstPaid, Listed;
    var order := Order(payouts);
    ResultsAre(src, asset, payouts, order);
    OrderIsListed(payouts);
    forall i, j | 0 <= i < j < |results|
      ensures FirstPaid(payouts, results[i].address) < FirstPaid(payouts, results[j].address)
    {
      OrderAscends(payouts, i, j);
    }
    forall a, status
      ensures Has(results, a, status) <==>
                Listed(payouts, a) && Classify(src, asset, a, Asked(payouts, a)) == Success(status)
    {
      if Listed(payouts, a) && Classify(src, asset, a, Asked(payouts, a)) == Success(status) {
        var i :| 0 <= i < |order| && order[i] == a;
        assert results[i] == WalletResult(a, status);
      }
    }
  }

  lemma AcceptedAre(src: AccountSource, asset: Asset, payouts: seq<Payout>)
    ensures RequireOutcome(src, asset, payouts) == Accepted <==>
              forall a :: Listed(payouts, a) ==> Classify(src, asset, a, Asked(payouts, a)) == Success(StatusOK)
  {
    hide Classify, RequireOutcome, Listed, HasRoom;
    AcceptedIff(src, asset, payouts);
    forall a
      ensures Classify(src, asset, a, Asked(payouts, a)) == Success(StatusOK)
              <==> HasRoom(src, asset, a, Wrap(NeedOf(payouts, a)))
    {
      NeedIsSum(payouts, a);
      OneOK(src, asset, a, Asked(payouts, a));
    }
  }
}
