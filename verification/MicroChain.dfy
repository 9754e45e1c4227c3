/** The double-entry ledger of the history service (contracts/eden/src/eden-micro-chain.cpp). */
module MicroChain {
  import opened Members
  import opened Totals

  datatype Purpose =
    | Deposit
    | Withdrawal
    | ExternalSpend
    | ManualTransfer
    | FundTransfer
    | UserTransfer
    | Fund
    | Donation
    | InductDonation
    | ReserveDistribution
    | ReturnExcess
    | ReturnDistribution

  datatype Entry = Entry(time: nat, account: Name, delta: int, newAmount: int, other: Name, purpose: Purpose)

  type Balances = map<Name, int>

  datatype Books = Books(balances: Balances, history: seq<Entry>)

  // ---------------------------------------------------------------------------------------------
  // Transfers
  // ---------------------------------------------------------------------------------------------

  function BalanceOf(b: Balances, a: Name): int {
    if a in b then b[a] else 0
  }

  /** add_balance: a new row starts with the change. */
  function Added(b: Balances, a: Name, delta: int): Balances {
    b[a := BalanceOf(b, a) + delta]
  }

  /** transfer_funds: two changes and two rows. */
  function Transferred(b: Books, time: nat, from: Name, to: Name, amount: int, purpose: Purpose): Books {
    var one := Added(b.balances, from, -amount);
    var two := Added(one, to, amount);
    Books(two, b.history + [Entry(time, from, -amount, one[from], to, purpose), Entry(time, to, amount, two[to], from, purpose)])
  }

  // ---------------------------------------------------------------------------------------------
  // What the ledger keeps
  // ---------------------------------------------------------------------------------------------

  /** The changes of an account. */
  function Sum(history: seq<Entry>, a: Name): int {
    if |history| == 0 then 0 else
      var last := history[|history| - 1];
      Sum(history[..|history| - 1], a) + if last.account == a then last.delta else 0
  }

  predicate TwinOf(x: Entry, y: Entry) {
    && x.account == y.other && x.other == y.account && x.delta == -y.delta
    && x.time == y.time && x.purpose == y.purpose
  }

  /** Rows come in pairs. */
  ghost predicate Twins(history: seq<Entry>) {
    |history| % 2 == 0 && forall k | 0 <= 2 * k < |history| - 1 :: TwinOf(history[2 * k], history[2 * k + 1])
  }

  predicate Running(history: seq<Entry>, i: nat)
    requires i < |history|
  {
    history[i].newAmount == Sum(history[..i + 1], history[i].account)
  }

  ghost predicate SumsMatch(b: Books) {
    && (forall a: Name :: BalanceOf(b.balances, a) == Sum(b.history, a))
    && (forall i | 0 <= i < |b.history| :: b.history[i].account in b.balances && b.history[i].other in b.balances)
  }

  ghost predicate Sound(b: Books) {
    && Total(b.balances) == 0
    && Twins(b.history)
    && SumsMatch(b)
    && forall i | 0 <= i < |b.history| :: Running(b.history, i)
  }

  lemma SumStep(history: seq<Entry>, x: Entry, a: Name)
    ensures Sum(history + [x], a) == Sum(history, a) + if x.account == a then x.delta else 0
  {
    assert (history + [x])[..|history|] == history;
  }

  /** A row whose new amount is the new balance. */
  ghost predicate Posts(b: Books, x: Entry) {
    x.newAmount == BalanceOf(b.balances, x.account) + x.delta
  }

  function Posted(b: Books, x: Entry): Books {
    Books(Added(b.balances, x.account, x.delta), b.history + [x])
  }

  ghost predicate Follows(b: Books) {
    && (forall a: Name :: BalanceOf(b.balances, a) == Sum(b.history, a))
    && (forall i | 0 <= i < |b.history| :: Running(b.history, i))
  }

  lemma PostFollows(b: Books, x: Entry)
    requires Follows(b) && Posts(b, x)
    ensures Follows(Posted(b, x))
  {
    var b' := Posted(b, x);
    forall a: Name ensures BalanceOf(b'.balances, a) == Sum(b'.history, a) {
      SumStep(b.history, x, a);
    }
    forall i | 0 <= i < |b'.history| ensures Running(b'.history, i) {
      if i < |b.history| {
        assert Running(b.history, i);
        assert b'.history[..i + 1] == b.history[..i + 1];
      } else {
        assert b'.history[..i + 1] == b'.history;
      }
    }
  }

  lemma TransferIs(b: Books, time: nat, from: Name, to: Name, amount: int, purpose: Purpose)
    ensures var x := Entry(time, from, -amount, BalanceOf(b.balances, from) - amount, to, purpose);
      var one := Posted(b, x);
      var y := Entry(time, to, amount, BalanceOf(one.balances, to) + amount, from, purpose);
      Posts(b, x) && Posts(one, y) && Transferred(b, time, from, to, amount, purpose) == Posted(one, y)
  {
    var x := Entry(time, from, -amount, BalanceOf(b.balances, from) - amount, to, purpose);
    var one := Posted(b, x);
    var y := Entry(time, to, amount, BalanceOf(one.balances, to) + amount, from, purpose);
    assert b.history + [x] + [y] == b.history + [x, y];
  }

  lemma TwinsMore(history: seq<Entry>, x: Entry, y: Entry)
    requires Twins(history) && TwinOf(x, y)
    ensures Twins(history + [x, y])
  {
    var h := history + [x, y];
    forall k | 0 <= 2 * k < |h| - 1 ensures TwinOf(h[2 * k], h[2 * k + 1]) {
      if 2 * k < |history| {
        assert TwinOf(history[2 * k], history[2 * k + 1]);
      }
    }
  }

  /** What a transfer changes: two rows at its time that name each other, with the balances after it, which differ for
      its two accounts only. */
  lemma TransferRecorded(b: Books, time: nat, from: Name, to: Name, amount: int, purpose: Purpose)
    ensures var b' := Transferred(b, time, from, to, amount, purpose);
      && b'.balances.Keys == b.balances.Keys + {from, to}
      && (forall a :: BalanceOf(b'.balances, a) ==
            BalanceOf(b.balances, a) - (if a == from then amount else 0) + (if a == to then amount else 0))
      && |b'.history| == |b.history| + 2 && b'.history[..|b.history|] == b.history
      && b'.history[|b.history|] == Entry(time, from, -amount, BalanceOf(b.balances, from) - amount, to, purpose)
      && b'.history[|b.history| + 1] == Entry(time, to, amount, BalanceOf(b'.balances, to), from, purpose)
  {
    assert Transferred(b, time, from, to, amount, purpose).history[..|b.history|] == b.history;
  }

  /** Every transfer keeps the ledger sound, also a transfer to oneself. */
  lemma TransferKeeps(b: Books, time: nat, from: Name, to: Name, amount: int, purpose: Purpose)
    requires Sound(b)
    ensures Sound(Transferred(b, time, from, to, amount, purpose))
  {
    hide Total, Twins, Sum, Running, Transferred;
    TransferTotal(b, time, from, to, amount, purpose);
    TransferTwins(b, time, from, to, amount, purpose);
    TransferAccounts(b, time, from, to, amount, purpose);
    TransferIs(b, time, from, to, amount, purpose);
    var x := Entry(time, from, -amount, BalanceOf(b.balances, from) - amount, to, purpose);
    PostFollows(b, x);
    var y := Entry(time, to, amount, BalanceOf(Posted(b, x).balances, to) + amount, from, purpose);
    PostFollows(Posted(b, x), y);
  }

  lemma TransferTotal(b: Books, time: nat, from: Name, to: Name, amount: int, purpose: Purpose)
    ensures Total(Transferred(b, time, from, to, amount, purpose).balances) == Total(b.balances)
  {
    AddedTotal(b.balances, from, -amount);
    AddedTotal(Added(b.balances, from, -amount), to, amount);
  }

  lemma TransferTwins(b: Books, time: nat, from: Name, to: Name, amount: int, purpose: Purpose)
    requires Twins(b.history)
    ensures Twins(Transferred(b, time, from, to, amount, purpose).history)
  {
    var b' := Transferred(b, time, from, to, amount, purpose);
    TwinsMore(b.history, b'.history[|b.history|], b'.history[|b.history| + 1]);
  }

  lemma TransferAccounts(b: Books, time: nat, from: Name, to: Name, amount: int, purpose: Purpose)
    requires forall i | 0 <= i < |b.history| :: b.history[i].account in b.balances && b.history[i].other in b.balances
    ensures var b' := Transferred(b, time, from, to, amount, purpose);
      forall i | 0 <= i < |b'.history| :: b'.history[i].account in b'.balances && b'.history[i].other in b'.balances
  {
  }

  lemma AddedTotal(b: Balances, a: Name, delta: int)
    ensures Total(Added(b, a, delta)) == Total(b) + delta
  {
    hide Total;
    TotalUpdate(b, a, BalanceOf(b, a) + delta);
  }

  // ---------------------------------------------------------------------------------------------
  // Renaming
  // ---------------------------------------------------------------------------------------------

  function Name'(a: Name, o: Name, n: Name): Name {
    if a == o then n else a
  }

  function RenamedEntry(x: Entry, o: Name, n: Name): Entry {
    x.(account := Name'(x.account, o, n), other := Name'(x.other, o, n))
  }

  function RenamedHistory(h: seq<Entry>, o: Name, n: Name): (r: seq<Entry>)
    ensures |r| == |h|
  {
    seq(|h|, i requires 0 <= i < |h| => RenamedEntry(h[i], o, n))
  }

  /** The row of an account gets another key. */
  function Moved(b: Balances, o: Name, n: Name): Balances {
    if o in b then var rest: Balances := b - {o}; rest[n := b[o]] else b
  }

  function RenamedBooks(b: Books, o: Name, n: Name): Books {
    Books(Moved(b.balances, o, n), RenamedHistory(b.history, o, n))
  }

  lemma {:induction false} RenamedSum(h: seq<Entry>, o: Name, n: Name, a: Name)
    requires o != n && forall i | 0 <= i < |h| :: h[i].account != n
    ensures Sum(RenamedHistory(h, o, n), a) == if a == n then Sum(h, o) else if a == o then 0 else Sum(h, a)
    decreases |h|
  {
    if |h| > 0 {
      var k := |h| - 1;
      RenamedSum(h[..k], o, n, a);
      assert RenamedHistory(h, o, n)[..k] == RenamedHistory(h[..k], o, n);
    }
  }

  /** A rename keeps the ledger sound when the new account has no balance row. */
  lemma RenameKeeps(b: Books, o: Name, n: Name)
    requires Sound(b) && o != n && n !in b.balances
    ensures Sound(RenamedBooks(b, o, n))
  {
    var b' := RenamedBooks(b, o, n);
    RenamedTotal(b.balances, o, n);
    RenamedTwins(b.history, o, n);
    RenamedMatches(b, o, n);
    hide Total, Twins;
    forall i | 0 <= i < |b'.history| ensures Running(b'.history, i) {
      assert Running(b.history, i);
      assert b'.history[..i + 1] == RenamedHistory(b.history[..i + 1], o, n);
      RenamedSum(b.history[..i + 1], o, n, b'.history[i].account);
    }
  }

  lemma RenamedTotal(b: Balances, o: Name, n: Name)
    requires n !in b
    ensures Total(Moved(b, o, n)) == Total(b)
  {
    if o in b {
      TotalRemove(b, o);
      var rest: Balances := b - {o};
      TotalUpdate(rest, n, b[o]);
    }
  }

  lemma RenamedTwins(h: seq<Entry>, o: Name, n: Name)
    requires Twins(h)
    ensures Twins(RenamedHistory(h, o, n))
  {
    var h' := RenamedHistory(h, o, n);
    forall k | 0 <= 2 * k < |h'| - 1 ensures TwinOf(h'[2 * k], h'[2 * k + 1]) {
      assert TwinOf(h[2 * k], h[2 * k + 1]);
    }
  }

  lemma RenamedMatches(b: Books, o: Name, n: Name)
    requires SumsMatch(b) && o != n && n !in b.balances
    ensures SumsMatch(RenamedBooks(b, o, n))
  {
    var b' := RenamedBooks(b, o, n);
    forall a: Name ensures BalanceOf(b'.balances, a) == Sum(b'.history, a) {
      RenamedSum(b.history, o, n, a);
    }
    forall i | 0 <= i < |b'.history| ensures b'.history[i].account in b'.balances && b'.history[i].other in b'.balances {
      assert b.history[i].account in b.balances && b.history[i].other in b.balances;
    }
  }

  /** With a row under both names the overwritten balance would be lost: the balances would still sum to zero exactly
      if it was zero. */
  lemma RenameOntoRow(b: Books, o: Name, n: Name)
    requires Sound(b) && o != n && o in b.balances && n in b.balances
    ensures Total(RenamedBooks(b, o, n).balances) == -b.balances[n]
    ensures Sound(RenamedBooks(b, o, n)) ==> b.balances[n] == 0
  {
    TotalRemove(b.balances, o);
    var rest: Balances := b.balances - {o};
    TotalUpdate(rest, n, b.balances[o]);
  }

  // ---------------------------------------------------------------------------------------------
  // The service
  // ---------------------------------------------------------------------------------------------

  /** Anything that concerns the contract's tokens changes both; `held` counts them. */
  class Ledger {
    const eden: Name
    const token: Name
    const masterPool: Name
    const distributionFund: Name

    var balances: Balances
    var history: seq<Entry>
    var inWithdraw: bool
    var inManualTransfer: bool

    /** Tokens received less tokens sent, by their notifications. */
    ghost var held: int

    /** The token account has been a party to its own deposits and withdrawals only. */
    ghost var tokenApart: bool

    ghost function View(): Books
      reads this
    {
      Books(balances, history)
    }

    ghost predicate Valid()
      reads this
    {
      && Sound(View())
      && (tokenApart ==> BalanceOf(balances, token) == -held && token != masterPool)
    }

    constructor (eden: Name, token: Name, masterPool: Name, distributionFund: Name)
      ensures Valid() && View() == Books(map[], []) && held == 0 && !inWithdraw && !inManualTransfer
      ensures tokenApart == (token != masterPool)
      ensures this.eden == eden && this.token == token && this.masterPool == masterPool && this.distributionFund == distributionFund
    {
      this.eden, this.token, this.masterPool, this.distributionFund := eden, token, masterPool, distributionFund;
      balances, history, inWithdraw, inManualTransfer, held := map[], [], false, false, 0;
      tokenApart := token != masterPool;
    }

    method AddBalance(account: Name, delta: int) returns (r: int)
      modifies this`balances
      ensures balances == Added(old(balances), account, delta) && r == balances[account]
    {
      if account !in balances {
        balances := balances[account := delta];
      } else {
        balances := balances[account := balances[account] + delta];
      }
      r := balances[account];
    }

    method TransferFunds(time: nat, from: Name, to: Name, amount: int, purpose: Purpose)
      requires Sound(View())
      modifies this`balances, this`history
      ensures Sound(View()) && View() == Transferred(old(View()), time, from, to, amount, purpose)
      ensures BalanceOf(balances, token)
           == BalanceOf(old(balances), token) - (if from == token then amount else 0) + (if to == token then amount else 0)
    {
      hide Sound;
      TransferKeeps(View(), time, from, to, amount, purpose);
      var newFrom := AddBalance(from, -amount);
      var newTo := AddBalance(to, amount);
      history := history + [Entry(time, from, -amount, newFrom, to, purpose)];
      history := history + [Entry(time, to, amount, newTo, from, purpose)];
      assert history == old(history) + [Entry(time, from, -amount, newFrom, to, purpose), Entry(time, to, amount, newTo, from, purpose)];
    }

    /** notify_transfer of the token contract. A transfer to or from the contract names the other side. */
    method NotifyTransfer(time: nat, from: Name, to: Name, quantity: int, possibleDeposit: bool)
      requires Valid()
      modifies this
      ensures Valid()
      ensures held == old(held) + if to == eden then quantity else -quantity
      ensures tokenApart == (old(tokenApart) && from != token && to != token)
      ensures View() ==
        if to == eden then
          var got := Transferred(old(View()), time, token, from, quantity, Deposit);
          if possibleDeposit then got else Transferred(got, time, from, masterPool, quantity, Fund)
        else if old(inWithdraw) then Transferred(old(View()), time, to, token, quantity, Withdrawal)
        else
          var spent := Transferred(old(View()), time, masterPool, to, quantity, if old(inManualTransfer) then ManualTransfer else ExternalSpend);
          Transferred(spent, time, to, token, quantity, Withdrawal)
      ensures inWithdraw == (to == eden && old(inWithdraw))
      ensures inManualTransfer == ((to == eden || old(inWithdraw)) && old(inManualTransfer))
    {
      hide Sound, Transferred;
      tokenApart := tokenApart && from != token && to != token;
      if to == eden {
        TransferFunds(time, token, from, quantity, Deposit);
        if !possibleDeposit {
          TransferFunds(time, from, masterPool, quantity, Fund);
        }
        held := held + quantity;
      } else if inWithdraw {
        TransferFunds(time, to, token, quantity, Withdrawal);
        inWithdraw := false;
        held := held - quantity;
      } else {
        TransferFunds(time, masterPool, to, quantity, if inManualTransfer then ManualTransfer else ExternalSpend);
        TransferFunds(time, to, token, quantity, Withdrawal);
        inManualTransfer := false;
        held := held - quantity;
      }
    }

    /** withdraw only announces the notification; two announcements in a row are refused. */
    method Withdraw() returns (ok: bool)
      requires Valid()
      modifies this`inWithdraw
      ensures Valid() && View() == old(View())
      ensures ok <==> !old(inWithdraw) && !inManualTransfer
      ensures inWithdraw == (old(inWithdraw) || ok)
    {
      hide Sound;
      ok := !inWithdraw && !inManualTransfer;
      if ok {
        inWithdraw := true;
      }
    }

    /** transfer, the manual spend of general funds. */
    method ManualSpend() returns (ok: bool)
      requires Valid()
      modifies this`inManualTransfer
      ensures Valid() && View() == old(View())
      ensures ok <==> !inWithdraw && !old(inManualTransfer)
      ensures inManualTransfer == (old(inManualTransfer) || ok)
    {
      hide Sound;
      ok := !inWithdraw && !inManualTransfer;
      if ok {
        inManualTransfer := true;
      }
    }

    /** donate, fundtransfer, usertransfer, inductdonate and the events of distributions move funds
        between accounts of the contract. */
    method Move(time: nat, from: Name, to: Name, amount: int, purpose: Purpose)
      requires Valid()
      modifies this`balances, this`history, this`tokenApart
      ensures tokenApart == (old(tokenApart) && from != token && to != token)
      ensures Valid() && View() == Transferred(old(View()), time, from, to, amount, purpose)
    {
      hide Sound, Transferred;
      tokenApart := tokenApart && from != token && to != token;
      TransferFunds(time, from, to, amount, purpose);
    }

    /** The balance part of rename. The table has one row per account, so a second row under the new
        name is refused. */
    method Rename(o: Name, n: Name) returns (ok: bool)
      requires Valid()
      modifies this`balances, this`history, this`tokenApart
      ensures Valid()
      ensures ok <==> o == n || !(o in old(balances) && n in old(balances))
      ensures ok ==> View() == RenamedBooks(old(View()), o, n)
      ensures !ok ==> View() == old(View())
      ensures tokenApart == (old(tokenApart) && !(ok && o != n && (o == token || n == token)))
    {
      hide Sound;
      if o in balances && n in balances && o != n {
        return false;
      }
      RenameAnyKeeps(View(), o, n);
      tokenApart := tokenApart && (o == n || (o != token && n != token));
      if o in balances {
        var amount := balances[o];
        var rest: Balances := balances - {o};
        balances := rest[n := amount];
      }
      history := RenamedHistory(history, o, n);
      ok := true;
    }
  }

  /** An account without a row has no history either, and a rename to the same name changes nothing. */
  lemma RenameAnyKeeps(b: Books, o: Name, n: Name)
    requires Sound(b) && (o == n || !(o in b.balances && n in b.balances))
    ensures Sound(RenamedBooks(b, o, n))
  {
    if o == n {
      hide Total, Twins, Running, Sum;
      assert RenamedHistory(b.history, o, n) == b.history;
      assert Moved(b.balances, o, n) == b.balances;
    } else if n !in b.balances {
      RenameKeeps(b, o, n);
    } else {
      hide Total, Twins, Running;
      assert forall i | 0 <= i < |b.history| :: b.history[i].account != o && b.history[i].other != o;
      assert RenamedHistory(b.history, o, n) == b.history;
    }
  }
}
