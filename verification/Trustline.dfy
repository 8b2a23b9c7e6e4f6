/**
 The capacity check before a release: can every wallet receive all that is about to be
 paid to it? Needs are summed in 64-bit arithmetic.
 */
module Trustline {
  import opened Wrappers
  import opened Collections
  import opened Int64

  datatype Status = StatusUnknown | StatusOK | StatusNoAccount | StatusNoTrustline | StatusNotAuthorized
                  | StatusInsufficientLimit

  datatype Asset = Asset(code: string, issuer: string)

  /** headroom: limit - balance - buying liabilities. */
  datatype Balance = Balance(code: string, issuer: string, native: bool, authorized: bool, headroom: int64)

  datatype Payout = Payout(address: string, stroops: int64)

  /** What the ledger answers for an account. */
  datatype Lookup = Balances(lines: seq<Balance>) | AccountNotFound | LookupFailed

  type AccountSource = string -> Lookup

  datatype VerifyError = InvalidAddress(address: string) | LoadFailed(address: string)

  datatype WalletResult = WalletResult(address: string, status: Status)

  datatype Outcome = Accepted | Missing(wallets: seq<WalletResult>) | Aborted(error: VerifyError)

  // ------------------------------------------------------------------
  // One wallet
  // ------------------------------------------------------------------

  predicate ValidAddress(s: string)
  {
    && |s| == 56 && s[0] == 'G'
    && forall i :: 1 <= i < |s| ==> 'A' <= s[i] <= 'Z' || '2' <= s[i] <= '7'
  }

  predicate Matches(b: Balance, asset: Asset)
  {
    !b.native && b.code == asset.code && b.issuer == asset.issuer
  }

  /** The first line in the prize asset. */
  function FirstLine(lines: seq<Balance>, asset: Asset): Option<Balance>
  {
    if lines == [] then None
    else if Matches(lines[0], asset) then Some(lines[0])
    else FirstLine(lines[1..], asset)
  }

  function LineStatus(line: Option<Balance>, need: int64): Status
  {
    match line
    case None => StatusNoTrustline
    case Some(b) =>
      if !b.authorized then StatusNotAuthorized
      else if b.headroom < need then StatusInsufficientLimit
      else StatusOK
  }

  function Classify(src: AccountSource, asset: Asset, address: string, need: int64): Result<Status, VerifyError>
  {
    if !ValidAddress(address) then Failure(InvalidAddress(address))
    else
      match src(address)
      case LookupFailed => Failure(LoadFailed(address))
      case AccountNotFound => Success(StatusNoAccount)
      case Balances(lines) => Success(LineStatus(FirstLine(lines, asset), need))
  }

  method CheckAddress(s: string) returns (valid: bool)
    ensures valid <==> ValidAddress(s)
  {
    if |s| != 56 || s[0] != 'G' {
      return false;
    }
    for i := 1 to |s|
      invariant forall k :: 1 <= k < i ==> 'A' <= s[k] <= 'Z' || '2' <= s[k] <= '7'
    {
      var c := s[i];
      if !('A' <= c <= 'Z') && !('2' <= c <= '7') {
        return false;
      }
    }
    return true;
  }

  method Verify(src: AccountSource, asset: Asset, address: string, need: int64) returns (r: Result<Status, VerifyError>)
    ensures r == Classify(src, asset, address, need)
  {
    var valid := CheckAddress(address);
    if !valid {
      return Failure(InvalidAddress(address));
    }
    match src(address)
    case LookupFailed => return Failure(LoadFailed(address));
    case AccountNotFound => return Success(StatusNoAccount);
    case Balances(lines) =>
      for i := 0 to |lines|
        invariant FirstLine(lines, asset) == FirstLine(lines[i..], asset)
      {
        var b := lines[i];
        if b.native || b.code != asset.code || b.issuer != asset.issuer {
          assert lines[i..][1..] == lines[i + 1..];
          continue;
        }
        return Success(if !b.authorized then StatusNotAuthorized
                       else if b.headroom < need then StatusInsufficientLimit
                       else StatusOK);
      }
      return Success(StatusNoTrustline);
  }

  // ------------------------------------------------------------------
  // Needs
  // ------------------------------------------------------------------

  function AtLeastOne(stroops: int64): int64 { if stroops < 1 then 1 else stroops }

  /** All that is about to be paid to an address, at least one stroop a payout. */
  function NeedOf(payouts: seq<Payout>, a: string): nat
  {
    if payouts == [] then 0
    else
      var p := payouts[|payouts| - 1];
      NeedOf(payouts[..|payouts| - 1], a) + if p.address == a then AtLeastOne(p.stroops) else 0
  }

  /** What is really paid to an address. */
  function PaidTo(payouts: seq<Payout>, a: string): int
  {
    if payouts == [] then 0
    else
      var p := payouts[|payouts| - 1];
      PaidTo(payouts[..|payouts| - 1], a) + if p.address == a then p.stroops else 0
  }

  predicate Listed(payouts: seq<Payout>, a: string)
  {
    exists i :: 0 <= i < |payouts| && payouts[i].address == a
  }

  /** Every address once, in order of first appearance. */
  function Order(payouts: seq<Payout>): seq<string>
  {
    if payouts == [] then []
    else
      var before := Order(payouts[..|payouts| - 1]);
      var a := payouts[|payouts| - 1].address;
      if a in before then before else before + [a]
  }

  lemma {:induction false} OrderLists(payouts: seq<Payout>, a: string)
    ensures a in Order(payouts) <==> Listed(payouts, a)
  {
    if payouts != [] {
      var n := |payouts| - 1;
      OrderLists(payouts[..n], a);
      OrderLists(payouts[..n], payouts[n].address);
      if Listed(payouts, a) && payouts[n].address != a {
        var i :| 0 <= i < |payouts| && payouts[i].address == a;
        assert payouts[..n][i].address == a;
      }
    }
  }

  /** No address is listed twice, and an address comes before another if it is paid first. */
  lemma {:induction false} OrderDistinct(payouts: seq<Payout>)
    ensures forall i, j :: 0 <= i < j < |Order(payouts)| ==> Order(payouts)[i] != Order(payouts)[j]
  {
    if payouts != [] {
      OrderDistinct(payouts[..|payouts| - 1]);
    }
  }

  // ------------------------------------------------------------------
  // Batches
  // ------------------------------------------------------------------

  /** The wallets of `order` from `i` on; the first error aborts. */
  function ClassifyFrom(src: AccountSource, asset: Asset, payouts: seq<Payout>, order: seq<string>)
    : Result<seq<WalletResult>, VerifyError>
  {
    if order == [] then Success([])
    else
      var n := |order| - 1;
      match ClassifyFrom(src, asset, payouts, order[..n])
      case Failure(e) => Failure(e)
      case Success(before) =>
        match Classify(src, asset, order[n], Wrap(NeedOf(payouts, order[n])))
        case Failure(e) => Failure(e)
        case Success(status) => Success(before + [WalletResult(order[n], status)])
  }

  lemma {:induction false} PrefixAborts(src: AccountSource, asset: Asset, payouts: seq<Payout>, order: seq<string>,
                                        i: nat)
    requires i <= |order| && ClassifyFrom(src, asset, payouts, order[..i]).Failure?
    ensures ClassifyFrom(src, asset, payouts, order) == ClassifyFrom(src, asset, payouts, order[..i])
    decreases |order|
  {
    if i < |order| {
      assert order[..|order| - 1][..i] == order[..i];
      PrefixAborts(src, asset, payouts, order[..|order| - 1], i);
    } else {
      assert order[..i] == order;
    }
  }

  method VerifyPayouts(src: AccountSource, asset: Asset, payouts: seq<Payout>)
    returns (r: Result<seq<WalletResult>, VerifyError>)
    ensures r == ClassifyFrom(src, asset, payouts, Order(payouts))
  {
    hide Classify, Wrap;
    var order, need := SumNeeds(payouts);
    var results: seq<WalletResult> := [];
    for i := 0 to |order|
      invariant ClassifyFrom(src, asset, payouts, order[..i]) == Success(results)
    {
      assert order[..i + 1][..i] == order[..i];
      var st := Verify(src, asset, order[i], need[order[i]]);
      if st.Failure? {
        PrefixAborts(src, asset, payouts, order, i + 1);
        return Failure(st.error);
      }
      results := results + [WalletResult(order[i], st.value)];
    }
    assert order[..|order|] == order;
    return Success(results);
  }

  method SumNeeds(payouts: seq<Payout>) returns (order: seq<string>, need: map<string, int64>)
    ensures order == Order(payouts)
    ensures forall a :: a in need <==> a in order
    ensures forall a :: a in need ==> need[a] == Wrap(NeedOf(payouts, a))
  {
    hide Wrap, NeedOf, Order;
    NeedOfNone();
    order := [];
    need := map[];
    for i := 0 to |payouts|
      invariant order == Order(payouts[..i])
      invariant forall a :: a in need <==> a in order
      invariant forall a :: a in need ==> need[a] == Wrap(NeedOf(payouts[..i], a))
      invariant forall a :: a !in need ==> NeedOf(payouts[..i], a) == 0
    {
      var p := payouts[i];
      forall a { NeedStep(payouts, i, a); }
      OrderStep(payouts, i);
      if p.address !in need {
        order := order + [p.address];
      }
      var before: int64 := if p.address in need then need[p.address] else 0;
      WrapZero();
      WrapAdd(NeedOf(payouts[..i], p.address), AtLeastOne(p.stroops));
      need := need[p.address := Wrap(before as int + AtLeastOne(p.stroops))];
    }
    assert payouts[..|payouts|] == payouts;
  }

  lemma NeedStep(payouts: seq<Payout>, i: nat, a: string)
    requires i < |payouts|
    ensures NeedOf(payouts[..i + 1], a)
         == NeedOf(payouts[..i], a) + if payouts[i].address == a then AtLeastOne(payouts[i].stroops) else 0
  {
    assert payouts[..i + 1][..i] == payouts[..i];
  }

  lemma OrderStep(payouts: seq<Payout>, i: nat)
    requires i < |payouts|
    ensures var before, a := Order(payouts[..i]), payouts[i].address;
      Order(payouts[..i + 1]) == if a in before then before else before + [a]
  {
    assert payouts[..i + 1][..i] == payouts[..i];
  }

  lemma NeedOfNone()
    ensures Order([]) == [] && forall a :: NeedOf([], a) == 0
  {}

  lemma WrapZero()
    ensures Wrap(0) == 0
  {}

  function Failing(results: seq<WalletResult>): seq<WalletResult>
  {
    if results == [] then []
    else
      var last := results[|results| - 1];
      Failing(results[..|results| - 1]) + if last.status != StatusOK then [last] else []
  }

  function RequireOutcome(src: AccountSource, asset: Asset, payouts: seq<Payout>): Outcome
  {
    match ClassifyFrom(src, asset, payouts, Order(payouts))
    case Failure(e) => Aborted(e)
    case Success(results) => if Failing(results) == [] then Accepted else Missing(Failing(results))
  }

  method Require(src: AccountSource, asset: Asset, payouts: seq<Payout>) returns (outcome: Outcome)
    ensures outcome == RequireOutcome(src, asset, payouts)
  {
    var results := VerifyPayouts(src, asset, payouts);
    if results.Failure? {
      return Aborted(results.error);
    }
    var missing: seq<WalletResult> := [];
    for i := 0 to |results.value|
      invariant missing == Failing(results.value[..i])
    {
      assert results.value[..i + 1][..i] == results.value[..i];
      if results.value[i].status != StatusOK {
        missing := missing + [results.value[i]];
      }
    }
    assert results.value[..|results.value|] == results.value;
    return if |missing| > 0 then Missing(missing) else Accepted;
  }

  // ------------------------------------------------------------------
  // What acceptance means
  // ------------------------------------------------------------------

  /** The account has an authorised matching line that can take `need` more stroops. */
  predicate HasRoom(src: AccountSource, asset: Asset, a: string, need: int)
  {
    && ValidAddress(a) && src(a).Balances?
    && var line := FirstLine(src(a).lines, asset);
       line.Some? && line.value.authorized && line.value.headroom >= need
  }

  /** Every address can take the sum of all its payouts. */
  ghost predicate Covered(src: AccountSource, asset: Asset, payouts: seq<Payout>)
  {
    forall a :: Listed(payouts, a) ==> HasRoom(src, asset, a, NeedOf(payouts, a))
  }

  /** No sum of payouts leaves the 64-bit range. */
  ghost predicate NeedsFit(payouts: seq<Payout>)
  {
    forall a :: Listed(payouts, a) ==> NeedOf(payouts, a) <= INT64_MAX
  }

  /** A wallet is fine exactly if it has room. */
  lemma OneOK(src: AccountSource, asset: Asset, a: string, need: int64)
    ensures Classify(src, asset, a, need) == Success(StatusOK) <==> HasRoom(src, asset, a, need)
  {
    hide ValidAddress, FirstLine;
  }

  lemma {:induction false} AllOK(src: AccountSource, asset: Asset, payouts: seq<Payout>, order: seq<string>)
    ensures var r := ClassifyFrom(src, asset, payouts, order);
      (r.Success? && Failing(r.value) == []) <==>
        forall i :: 0 <= i < |order| ==> HasRoom(src, asset, order[i], Wrap(NeedOf(payouts, order[i])))
  {
    hide Wrap, Classify, HasRoom, NeedOf;
    if order != [] {
      var n := |order| - 1;
      AllOK(src, asset, payouts, order[..n]);
      OneOK(src, asset, order[n], Wrap(NeedOf(payouts, order[n])));
      var before := ClassifyFrom(src, asset, payouts, order[..n]);
      var status := Classify(src, asset, order[n], Wrap(NeedOf(payouts, order[n])));
      if before.Success? && status.Success? {
        assert (before.value + [WalletResult(order[n], status.value)])[..|before.value|] == before.value;
      }
    }
  }

  /** Results list each address once, in order of first appearance. */
  lemma {:induction false} ResultsInOrder(src: AccountSource, asset: Asset, payouts: seq<Payout>, order: seq<string>)
    ensures var r := ClassifyFrom(src, asset, payouts, order);
      r.Success? ==> |r.value| == |order| && forall i :: 0 <= i < |order| ==> r.value[i].address == order[i]
  {
    hide Wrap, Classify, NeedOf;
    if order != [] {
      ResultsInOrder(src, asset, payouts, order[..|order| - 1]);
    }
  }

  predicate DistinctAddresses(payouts: seq<Payout>)
  {
    forall i, j :: 0 <= i < j < |payouts| ==> payouts[i].address != payouts[j].address
  }

  /** With one payout per address every need is that of one payout. */
  lemma {:induction false} SingleNeeds(payouts: seq<Payout>, a: string)
    requires DistinctAddresses(payouts)
    ensures NeedOf(payouts, a) <= INT64_MAX
    ensures !Listed(payouts, a) ==> NeedOf(payouts, a) == 0
  {
    if payouts != [] {
      var n := |payouts| - 1;
      SingleNeeds(payouts[..n], a);
      if Listed(payouts[..n], a) {
        var i :| 0 <= i < n && payouts[..n][i].address == a;
        assert payouts[i].address == a;
      }
      if payouts[n].address == a {
        assert Listed(payouts, a);
      }
    }
  }

  /** Acceptance in machine terms: every listed address has room for its wrapped sum. */
  lemma AcceptedIff(src: AccountSource, asset: Asset, payouts: seq<Payout>)
    ensures RequireOutcome(src, asset, payouts) == Accepted <==>
              forall a :: Listed(payouts, a) ==> HasRoom(src, asset, a, Wrap(NeedOf(payouts, a)))
  {
    hide Wrap, HasRoom, NeedOf, Listed;
    var order := Order(payouts);
    AllOK(src, asset, payouts, order);
    forall a
      ensures a in order <==> Listed(payouts, a)
    {
      OrderLists(payouts, a);
    }
    forall i | 0 <= i < |order|
      ensures Listed(payouts, order[i])
    {
      assert order[i] in order;
    }
  }

  /** While the sums fit, acceptance is exactly coverage, whatever the accounts. */
  lemma RequireExact(src: AccountSource, asset: Asset, payouts: seq<Payout>)
    requires NeedsFit(payouts)
    ensures RequireOutcome(src, asset, payouts) == Accepted <==> Covered(src, asset, payouts)
  {
    hide RequireOutcome, HasRoom, NeedOf;
    AcceptedIff(src, asset, payouts);
  }

  /** If a sum does not fit, there are accounts for which the check accepts what nobody can receive. */
  lemma OverflowAccepted(asset: Asset, payouts: seq<Payout>) returns (src: AccountSource)
    requires !NeedsFit(payouts) && forall i :: 0 <= i < |payouts| ==> ValidAddress(payouts[i].address)
    ensures RequireOutcome(src, asset, payouts) == Accepted && !Covered(src, asset, payouts)
  {
    hide RequireOutcome, NeedOf, ValidAddress;
    var line := Balance(asset.code, asset.issuer, false, true, INT64_MAX);
    src := (a: string) => Balances([line]);
    AcceptedIff(src, asset, payouts);
    var a :| Listed(payouts, a) && NeedOf(payouts, a) > INT64_MAX;
    assert !HasRoom(src, asset, a, NeedOf(payouts, a));
    forall b | Listed(payouts, b)
      ensures HasRoom(src, asset, b, Wrap(NeedOf(payouts, b)))
    {
      assert FirstLine([line], asset) == Some(line);
    }
  }

  /** G and fifty-five more letters. */
  const WALLET: string := ['G'] + seq(55, _ => 'A')

  const TWICE: seq<Payout> := [Payout(WALLET, INT64_MAX), Payout(WALLET, INT64_MAX)]

  /** Two payouts of the largest amount to one wallet wrap to a negative need that everybody meets. */
  lemma TwicePayoutWraps(asset: Asset) returns (src: AccountSource)
    ensures ValidAddress(WALLET) && NeedOf(TWICE, WALLET) == 2 * INT64_MAX && Wrap(NeedOf(TWICE, WALLET)) == -2
    ensures RequireOutcome(src, asset, TWICE) == Accepted && !Covered(src, asset, TWICE)
  {
    TwiceNeeds();
    hide NeedOf, RequireOutcome;
    assert TWICE[0].address == WALLET && Listed(TWICE, WALLET);
    src := OverflowAccepted(asset, TWICE);
  }

  lemma TwiceNeeds()
    ensures ValidAddress(WALLET) && NeedOf(TWICE, WALLET) == 2 * INT64_MAX && Wrap(NeedOf(TWICE, WALLET)) == -2
  {
    NeedOfNone();
    NeedStep(TWICE, 0, WALLET);
    NeedStep(TWICE, 1, WALLET);
    assert TWICE[..0] == [] && TWICE[..2] == TWICE;
  }

  // ------------------------------------------------------------------
  // Paying
  // ------------------------------------------------------------------

  lemma {:induction false} NeedPermuted(p: seq<Payout>, q: seq<Payout>, a: string)
    requires multiset(p) == multiset(q)
    ensures NeedOf(p, a) == NeedOf(q, a)
  {
    if p == [] {
      assert |q| == 0 by { assert |multiset(q)| == |q| && |multiset(p)| == 0; }
    } else {
      var n := |p| - 1;
      assert p[n] in multiset(q);
      var j :| 0 <= j < |q| && q[j] == p[n];
      RemoveOne(p, q, j);
      NeedPermuted(p[..n], q[..j] + q[j + 1..], a);
      NeedRemove(q, j, a);
    }
  }

  lemma {:induction false} NeedRemove(q: seq<Payout>, j: nat, a: string)
    requires j < |q|
    ensures NeedOf(q, a) == NeedOf(q[..j] + q[j + 1..], a) + if q[j].address == a then AtLeastOne(q[j].stroops) else 0
    decreases |q|
  {
    var n := |q| - 1;
    var without := q[..j] + q[j + 1..];
    if j < n {
      NeedRemove(q[..n], j, a);
      assert without[..|without| - 1] == q[..n][..j] + q[..n][j + 1..];
    } else {
      assert without == q[..n];
    }
  }

  lemma {:induction false} PrefixNeeds(q: seq<Payout>, k: nat, a: string)
    requires k <= |q|
    ensures PaidTo(q[..k], a) <= NeedOf(q[..k], a) <= NeedOf(q, a)
    decreases |q|
  {
    if k < |q| {
      assert q[..|q| - 1][..k] == q[..k];
      PrefixNeeds(q[..|q| - 1], k, a);
    } else if q != [] {
      assert q[..k] == q;
      PrefixNeeds(q[..k - 1], k - 1, a);
      assert q[..k - 1][..k - 1] == q[..k - 1];
    }
  }

  /** An accepted list can be paid in any order: no line is ever pushed past its limit. */
  lemma AnyOrderFits(src: AccountSource, asset: Asset, payouts: seq<Payout>, paid: seq<Payout>, k: nat, a: string)
    requires NeedsFit(payouts) && RequireOutcome(src, asset, payouts) == Accepted
    requires multiset(paid) == multiset(payouts) && k <= |paid| && Listed(payouts, a)
    ensures HasRoom(src, asset, a, PaidTo(paid[..k], a))
  {
    RequireExact(src, asset, payouts);
    NeedPermuted(paid, payouts, a);
    PrefixNeeds(paid, k, a);
    assert HasRoom(src, asset, a, NeedOf(payouts, a));
  }
}
