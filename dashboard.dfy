/**
 * components/Dashboard.tsx: the ticket selector, the per-wallet round counter and the
 * bet button, and the pot/prize figures it shows. The wallet and the pot are props from
 * App; onBet is App's handleBet, wired in the Session module.
 */
module Dashboard {
  import opened Constants
  import opened Types
  import Button

  /** `ticketCount * TICKET_PRICE_USDC`: a whole number of 5 USDC tickets. */
  function TotalCost(ticketCount: int): (c: int)
    ensures c % TicketPrice == 0 && c / TicketPrice == ticketCount
    ensures 0 <= ticketCount ==> 0 <= c
  {
    ticketCount * TicketPrice
  }

  /** Buying `tickets` more keeps the wallet within its per-round limit. */
  predicate WithinLimit(tickets: int, userBets: int)
  {
    userBets + tickets <= MaxBetsPerWallet
  }

  /** The wallet can pay for `tickets`. */
  predicate Affordable(tickets: int, balance: int)
  {
    TotalCost(tickets) <= balance
  }

  /** A count the Max button may choose: within the limit, affordable, at most MAX. */
  predicate Admissible(k: int, userBets: int, balance: int)
  {
    k <= MaxBetsPerWallet && WithinLimit(k, userBets) && Affordable(k, balance)
  }

  /** increment: one more ticket while the selection plus this round's bets is under MAX. */
  function Incremented(ticketCount: int, userBets: int): (r: int)
    ensures r == ticketCount + 1 <==> ticketCount + userBets < MaxBetsPerWallet
    ensures r == ticketCount + 1 || r == ticketCount
    ensures WithinLimit(ticketCount, userBets) ==> WithinLimit(r, userBets)
  {
    if ticketCount + userBets < MaxBetsPerWallet then ticketCount + 1 else ticketCount
  }

  /** decrement: one fewer, but never below one ticket (also lifts a selection of 0 to 1). */
  function Decremented(ticketCount: int): (r: int)
    ensures 1 <= r
    ensures 1 < ticketCount ==> r == ticketCount - 1
    ensures ticketCount <= 1 ==> r == 1
  {
    if ticketCount > 1 then ticketCount - 1 else 1
  }

  function Min3(a: int, b: int, c: int): (m: int)
    ensures m <= a && m <= b && m <= c
    ensures m == a || m == b || m == c
  {
    if a <= b && a <= c then a else if b <= c then b else c
  }

  /** setMax: `Math.min(MAX - userBets, Math.floor(balance / PRICE), MAX)`, the largest
      admissible count; it is 0 when the limit is used up or a ticket is unaffordable.
      Dafny's `/` by a positive divisor is the floor, as Math.floor is. */
  function MaxTickets(userBets: int, balance: int): (r: int)
    ensures Admissible(r, userBets, balance)
    ensures forall k :: Admissible(k, userBets, balance) ==> k <= r
    ensures 0 <= userBets <= MaxBetsPerWallet && 0 <= balance ==>
              0 <= r && (r == 0 <==> userBets == MaxBetsPerWallet || balance < TicketPrice)
  {
    var r := Min3(MaxBetsPerWallet - userBets, balance / TicketPrice, MaxBetsPerWallet);
    assert TotalCost(balance / TicketPrice) <= balance;
    forall k | Admissible(k, userBets, balance) ensures k <= r {
      assert k * TicketPrice <= balance;
      assert k <= balance / TicketPrice;
    }
    r
  }

  /** The bet button can start handleBet: it is shown only to a connected wallet, and it
      is disabled over the limit, over the balance, or while a bet is processing. The
      per-wallet limit is enforced here and nowhere else. */
  function CanStartBet(isConnected: bool, isProcessing: bool, userBets: int, ticketCount: int,
                       balance: int): (r: bool)
    ensures r <==> isConnected && !isProcessing && WithinLimit(ticketCount, userBets)
                   && Affordable(ticketCount, balance)
  {
    isConnected
    && !Button.Disabled(userBets + ticketCount > MaxBetsPerWallet || TotalCost(ticketCount) > balance,
                        isProcessing)
  }

  /** `pot * WINNER_PERCENTAGE`, exactly three quarters of the pot. */
  function WinnerShare(pot: int): (r: real)
    ensures r * 4.0 == 3.0 * pot as real
    ensures r + PlatformShare(pot) == pot as real
    ensures 0 <= pot ==> 0.0 <= r <= pot as real
  {
    pot as real * WinnerPercentage
  }

  /** `pot * PLATFORM_FEE_PERCENTAGE`, exactly one quarter of the pot. */
  function PlatformShare(pot: int): (r: real)
    ensures r * 4.0 == pot as real
  {
    pot as real * PlatformFeePercentage
  }

  /** `(currentPot + totalCost) * WINNER_PERCENTAGE`: the winner's share of the pot as it
      would be once the selected tickets are bought. */
  function PotentialPrize(pot: int, ticketCount: int): (r: real)
    ensures r == WinnerShare(pot + TotalCost(ticketCount))
    ensures r * 4.0 == 3.0 * (pot + ticketCount * TicketPrice) as real
    ensures 0 <= ticketCount ==> WinnerShare(pot) <= r
  {
    (pot + TotalCost(ticketCount)) as real * WinnerPercentage
  }

  /** The three state cells of the Dashboard component. */
  class Dashboard {
    var ticketCount: int
    var isProcessing: bool
    var userBets: int

    constructor ()
      ensures ticketCount == 1 && !isProcessing && userBets == 0
    {
      ticketCount := 1;
      isProcessing := false;
      userBets := 0;
    }

    method Increment()
      modifies this
      ensures ticketCount == Incremented(old(ticketCount), old(userBets))
      ensures userBets == old(userBets) && isProcessing == old(isProcessing)
    {
      if ticketCount + userBets < MaxBetsPerWallet {
        ticketCount := ticketCount + 1;
      }
    }

    method Decrement()
      modifies this
      ensures ticketCount == Decremented(old(ticketCount))
      ensures userBets == old(userBets) && isProcessing == old(isProcessing)
    {
      ticketCount := if ticketCount > 1 then ticketCount - 1 else 1;
    }

    /** setMax against the wallet balance it is shown. */
    method SetMax(balance: int)
      modifies this
      ensures ticketCount == MaxTickets(old(userBets), balance)
      ensures userBets == old(userBets) && isProcessing == old(isProcessing)
    {
      var remainingAllowed := MaxBetsPerWallet - userBets;
      var affordable := balance / TicketPrice;
      ticketCount := Min3(remainingAllowed, affordable, MaxBetsPerWallet);
    }

    /** handleBet up to `await onBet(ticketCount)`: a disconnected wallet returns at once;
        otherwise processing starts and the current selection is what onBet is called with. */
    method BeginBet(isConnected: bool) returns (call: Option<int>)
      modifies this
      ensures call == if isConnected then Some(old(ticketCount)) else None
      ensures isProcessing == (isConnected || old(isProcessing))
      ensures ticketCount == old(ticketCount) && userBets == old(userBets)
    {
      if !isConnected {
        return None;
      }
      isProcessing := true;
      call := Some(ticketCount);
    }

    /** handleBet after onBet settles: on resolution the tickets it was called with are
        added to this round's count (as it is now, not as it was) and the selection goes
        back to 1; on rejection both stay; processing ends either way. */
    method FinishBet(tickets: int, resolved: bool)
      modifies this
      ensures userBets == if resolved then old(userBets) + tickets else old(userBets)
      ensures ticketCount == if resolved then 1 else old(ticketCount)
      ensures !isProcessing
    {
      if resolved {
        userBets := userBets + tickets;
        ticketCount := 1;
      }
      isProcessing := false;
    }

    /** The Timer's onRoundEnd: only this round's count is reset. */
    method RoundEnd()
      modifies this
      ensures userBets == 0
      ensures ticketCount == old(ticketCount) && isProcessing == old(isProcessing)
    {
      userBets := 0;
    }
  }
}
