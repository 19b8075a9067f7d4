/**
 * App.tsx: the root component owning the wallet and the pot. Each `await` is split in
 * two: a Begin method runs up to the suspension point, a Complete method resumes it
 * with the outcome of the mocked capability.
 */
module App {
  import opened Types
  import opened Constants

  /** The wallet App starts with and handleDisconnect restores. */
  const Disconnected: WalletState := WalletState(None, false, 0, false)

  /** The wallet handleConnect writes once connectWalletMock resolves with `address`. */
  function ConnectedWallet(address: string): (w: WalletState)
    ensures Coherent(w) && w.isConnected && !w.isConnecting
    ensures w.address == Some(address) && w.balance == MockInitialBalance
  {
    WalletState(Some(address), true, MockInitialBalance, false)
  }

  /** The only error handleBet raises: "Insufficient funds". */
  datatype BetError = InsufficientFunds

  /** What handleBet holds across `await submitBetMock(cost)`: the cost and the balance
      computed from the wallet as it was when handleBet was called. */
  datatype PendingBet = PendingBet(cost: int, newBalance: int)

  /** handleBet up to the await: it throws when the cost exceeds the balance, otherwise it
      computes the new balance without writing it. */
  function StartBet(wallet: WalletState, tickets: int): (r: Result<PendingBet, BetError>)
    ensures r.Err? <==> tickets * TicketPrice > wallet.balance
    ensures r.Ok? ==> r.value.cost == tickets * TicketPrice
    ensures r.Ok? ==> r.value.newBalance + r.value.cost == wallet.balance && 0 <= r.value.newBalance
  {
    var cost := tickets * TicketPrice;
    if cost > wallet.balance then Err(InsufficientFunds)
    else Ok(PendingBet(cost, wallet.balance - cost))
  }

  /** With no other write in between, a settled bet moves exactly its cost from the
      balance to the pot and leaves the balance non-negative. */
  lemma SettledBetConserves(wallet: WalletState, pot: int, tickets: int)
    requires StartBet(wallet, tickets).Ok?
    ensures var p := StartBet(wallet, tickets).value;
      && p.newBalance + (pot + p.cost) == wallet.balance + pot
      && 0 <= p.newBalance
      && (0 <= tickets ==> pot <= pot + p.cost)
  {
  }

  /** The wallet and pot state cells. */
  class App {
    var wallet: WalletState
    var pot: int

    /** Every wallet App writes is connected exactly when it has an address. */
    ghost predicate Valid()
      reads this
    {
      Coherent(wallet)
    }

    constructor ()
      ensures Valid()
      ensures wallet == Disconnected && !wallet.isConnected && wallet.address == None
      ensures wallet.balance == 0 && !wallet.isConnecting && pot == InitialPot
    {
      wallet := Disconnected;
      pot := InitialPot;
    }

    /** handleConnect up to `await connectWalletMock()`: only isConnecting changes. */
    method BeginConnect()
      requires Valid()
      modifies this
      ensures Valid()
      ensures wallet == old(wallet).(isConnecting := true) && pot == old(pot)
    {
      wallet := wallet.(isConnecting := true);
    }

    /** handleConnect after the await: an address gives a connected wallet with the mock
        balance; a failure only clears isConnecting. */
    method CompleteConnect(outcome: Option<string>)
      requires Valid()
      modifies this
      ensures Valid() && pot == old(pot)
      ensures outcome.Some? ==> wallet == ConnectedWallet(outcome.value)
      ensures outcome.None? ==> wallet == old(wallet).(isConnecting := false)
    {
      match outcome
      case Some(address) =>
        wallet := WalletState(Some(address), true, MockInitialBalance, false);
      case None =>
        wallet := wallet.(isConnecting := false);
    }

    /** handleDisconnect: the initial wallet, whatever the state; the pot is untouched. */
    method Disconnect()
      modifies this
      ensures Valid()
      ensures wallet == Disconnected && pot == old(pot)
    {
      wallet := WalletState(None, false, 0, false);
    }

    /** handleBet up to `await submitBetMock(cost)`; it writes nothing. */
    method BeginBet(tickets: int) returns (r: Result<PendingBet, BetError>)
      ensures r == StartBet(wallet, tickets)
      ensures r.Err? <==> tickets * TicketPrice > wallet.balance
    {
      var cost := tickets * TicketPrice;
      if cost > wallet.balance {
        return Err(InsufficientFunds);
      }
      var newBalance := wallet.balance - cost;
      r := Ok(PendingBet(cost, newBalance));
    }

    /** handleBet after the await: the balance computed before the await is written over
        whatever the wallet holds now, and the cost is added to the pot as it is now. */
    method CompleteBet(p: PendingBet)
      requires Valid()
      modifies this
      ensures Valid()
      ensures wallet == old(wallet).(balance := p.newBalance)
      ensures pot == old(pot) + p.cost
      ensures old(wallet.balance) == p.newBalance + p.cost ==>
                wallet.balance + pot == old(wallet.balance) + old(pot)
    {
      wallet := wallet.(balance := p.newBalance);
      pot := pot + p.cost;
    }
  }
}
