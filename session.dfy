/**
 * The running page: App's render wires its wallet, pot and handlers into the Header's
 * ConnectWallet and into Dashboard, whose Timer calls back onRoundEnd. Each user
 * action is a method guarded by what the rendered page lets the user do, and the two
 * suspended operations are resumed by their own methods. At most one bet and one
 * connect are in flight, because their buttons are disabled while they are.
 */
module Session {
  import opened Types
  import opened Constants
  import A = App
  import D = Dashboard
  import T = Timer
  import CW = ConnectWallet

  /** A bet between `await onBet(ticketCount)` in Dashboard and `await submitBetMock`
      in App: the tickets Dashboard captured and the values App computed. */
  datatype InFlightBet = InFlightBet(tickets: int, pending: A.PendingBet)

  class Session {
    const app: A.App
    const dash: D.Dashboard
    const timer: T.Timer
    var inFlight: Option<InFlightBet>

    /** The invariants of the page: the wallet is coherent, connected and connecting are
        exclusive, the balance never goes negative, the pot never falls below where it
        started, this round's tickets stay within the limit (also counting an in-flight
        bet), and Dashboard is processing exactly while a bet is in flight. */
    ghost predicate Valid()
      reads this, app, dash
    {
      && app.Valid()
      && (app.wallet.isConnected ==> !app.wallet.isConnecting)
      && (app.wallet.address.Some? ==> CW.IsMockAddress(app.wallet.address.value))
      && 0 <= app.wallet.balance
      && InitialPot <= app.pot
      && 0 <= dash.ticketCount
      && 0 <= dash.userBets <= MaxBetsPerWallet
      && (dash.isProcessing <==> inFlight.Some?)
      && (inFlight.Some? ==>
            var f := inFlight.value;
            && 0 <= f.tickets
            && dash.userBets + f.tickets <= MaxBetsPerWallet
            && f.pending.cost == f.tickets * TicketPrice
            && 0 <= f.pending.newBalance)
    }

    constructor ()
      ensures Valid() && fresh(app) && fresh(dash) && fresh(timer)
      ensures app.wallet == A.Disconnected && app.pot == InitialPot
      ensures dash.ticketCount == 1 && dash.userBets == 0 && !dash.isProcessing
      ensures timer.timeLeft == "30:00" && timer.progress == 100.0
      ensures inFlight == None
    {
      app := new A.App();
      dash := new D.Dashboard();
      timer := new T.Timer();
      inFlight := None;
    }

    /** The Connect Wallet button: shown unless the address view is, and disabled while
        connecting. */
    method ClickConnect()
      requires Valid()
      modifies app
      ensures Valid() && app.pot == old(app.pot)
      ensures var shown := CW.Render(old(app.wallet));
        app.wallet == if shown.ConnectButton? && !shown.isDisabled
                      then old(app.wallet).(isConnecting := true) else old(app.wallet)
    {
      var shown := CW.Render(app.wallet);
      if shown.ConnectButton? && !shown.isDisabled {
        app.BeginConnect();
      }
    }

    /** connectWalletMock settles: with one of its addresses, or (a path App handles
        though the mock never takes it) with a failure. */
    method ResolveConnect(outcome: Option<string>)
      requires Valid()
      requires outcome.Some? ==> CW.IsMockAddress(outcome.value)
      modifies app
      ensures Valid() && app.pot == old(app.pot)
      ensures old(app.wallet.isConnecting) && outcome.Some? ==> app.wallet == A.ConnectedWallet(outcome.value)
      ensures old(app.wallet.isConnecting) && outcome.None? ==> app.wallet == old(app.wallet).(isConnecting := false)
      ensures !old(app.wallet.isConnecting) ==> app.wallet == old(app.wallet)
    {
      if app.wallet.isConnecting {
        app.CompleteConnect(outcome);
      }
    }

    /** The Disconnect link of the address view. Dashboard's counters survive it. */
    method ClickDisconnect()
      requires Valid()
      modifies app
      ensures Valid() && app.pot == old(app.pot)
      ensures app.wallet == if CW.Render(old(app.wallet)).AddressView? then A.Disconnected else old(app.wallet)
    {
      if CW.Render(app.wallet).AddressView? {
        app.Disconnect();
      }
    }

    /** The "+" button. */
    method ClickIncrement()
      requires Valid()
      modifies dash
      ensures Valid()
      ensures dash.ticketCount == D.Incremented(old(dash.ticketCount), old(dash.userBets))
      ensures dash.userBets == old(dash.userBets) && dash.isProcessing == old(dash.isProcessing)
    {
      dash.Increment();
    }

    /** The "-" button. */
    method ClickDecrement()
      requires Valid()
      modifies dash
      ensures Valid()
      ensures dash.ticketCount == D.Decremented(old(dash.ticketCount))
      ensures dash.userBets == old(dash.userBets) && dash.isProcessing == old(dash.isProcessing)
    {
      dash.Decrement();
    }

    /** The Max button, shown only to a connected wallet. */
    method ClickMax()
      requires Valid()
      modifies dash
      ensures Valid()
      ensures dash.ticketCount == if app.wallet.isConnected
                                  then D.MaxTickets(old(dash.userBets), app.wallet.balance)
                                  else old(dash.ticketCount)
      ensures dash.userBets == old(dash.userBets) && dash.isProcessing == old(dash.isProcessing)
    {
      if app.wallet.isConnected {
        dash.SetMax(app.wallet.balance);
      }
    }

    /** The Place Bet button. When it is enabled, Dashboard's handleBet starts and calls
        App's handleBet with the selection; the button's balance test is the very test
        App makes, so the submit is always reached and the bet is left in flight. */
    method ClickBet()
      requires Valid()
      modifies this, dash
      ensures Valid()
      ensures app.wallet == old(app.wallet) && app.pot == old(app.pot)
      ensures dash.ticketCount == old(dash.ticketCount) && dash.userBets == old(dash.userBets)
      ensures var enabled := D.CanStartBet(app.wallet.isConnected, old(dash.isProcessing),
                                           old(dash.userBets), old(dash.ticketCount), app.wallet.balance);
        && (enabled ==> inFlight == Some(InFlightBet(old(dash.ticketCount),
                                                     A.StartBet(app.wallet, old(dash.ticketCount)).value)))
        && (!enabled ==> inFlight == old(inFlight) && dash.isProcessing == old(dash.isProcessing))
    {
      if D.CanStartBet(app.wallet.isConnected, dash.isProcessing, dash.userBets, dash.ticketCount,
                       app.wallet.balance) {
        var call := dash.BeginBet(app.wallet.isConnected);
        var tickets := call.value;
        var r := app.BeginBet(tickets);
        inFlight := Some(InFlightBet(tickets, r.value));
      }
    }

    /** submitBetMock resolves (it never rejects): App writes the balance it computed
        before the await and adds the cost to the pot, then Dashboard adds the captured
        tickets to the round's count as it is now, resets the selection and stops
        processing. */
    method ConfirmBet()
      requires Valid()
      modifies this, app, dash
      ensures Valid()
      ensures old(inFlight).None? ==>
                && inFlight == None && app.wallet == old(app.wallet) && app.pot == old(app.pot)
                && dash.ticketCount == old(dash.ticketCount) && dash.userBets == old(dash.userBets)
                && dash.isProcessing == old(dash.isProcessing)
      ensures old(inFlight).Some? ==>
                var f := old(inFlight).value;
                && inFlight == None
                && app.wallet == old(app.wallet).(balance := f.pending.newBalance)
                && app.pot == old(app.pot) + f.pending.cost
                && dash.userBets == old(dash.userBets) + f.tickets
                && dash.ticketCount == 1 && !dash.isProcessing
      ensures old(app.pot) <= app.pot
    {
      if inFlight.Some? {
        var f := inFlight.value;
        app.CompleteBet(f.pending);
        dash.FinishBet(f.tickets, true);
        inFlight := None;
      }
    }

    /** One evaluation of the Timer at instant `now`; onRoundEnd resets this round's
        count and nothing else: the pot is never cleared. */
    method Tick(now: int) returns (roundEnd: bool)
      requires Valid()
      modifies timer, dash
      ensures Valid()
      ensures roundEnd <==> T.Diff(now) <= 1000
      ensures timer.timeLeft == T.CalculateTimeRemaining(now).formatted
      ensures timer.progress == T.CalculateTimeRemaining(now).progress
      ensures dash.userBets == if roundEnd then 0 else old(dash.userBets)
      ensures dash.ticketCount == old(dash.ticketCount) && dash.isProcessing == old(dash.isProcessing)
    {
      roundEnd := timer.Tick(now);
      if roundEnd {
        dash.RoundEnd();
      }
    }
  }
}
