/**
 * src/components/BuyTickets.tsx: a ticket amount picker with its own constants and no
 * purchase logic behind the button.
 */
module BuyTickets {
  import opened Types

  const TicketPrice: int := 5
  const MaxPerWallet: int := 100

  predicate InRange(amount: int)
  {
    1 <= amount <= MaxPerWallet
  }

  /** increase: one more while under the per-wallet maximum. */
  function Increased(amount: int): (r: int)
    ensures r == amount + 1 <==> amount < MaxPerWallet
    ensures r == amount + 1 || r == amount
    ensures InRange(amount) ==> InRange(r)
  {
    if amount < MaxPerWallet then amount + 1 else amount
  }

  /** decrease: one fewer while above one. */
  function Decreased(amount: int): (r: int)
    ensures r == amount - 1 <==> amount > 1
    ensures r == amount - 1 || r == amount
    ensures InRange(amount) ==> InRange(r)
  {
    if amount > 1 then amount - 1 else amount
  }

  /** The displayed `amount * TICKET_PRICE`: a multiple of 5 between 5 and 500. */
  function Cost(amount: int): (c: int)
    ensures c % TicketPrice == 0 && c / TicketPrice == amount
    ensures InRange(amount) ==> TicketPrice <= c <= TicketPrice * MaxPerWallet
  {
    amount * TicketPrice
  }

  /** `!address` picks the connect prompt: the "Buy Now" button needs a truthy address.
      wagmi reports a `0x`-prefixed address or none, so the button shows exactly when an
      account is connected. */
  function BuyButtonShown(address: Option<string>): (r: bool)
    ensures r ==> address.Some? && address.value != ""
    ensures address.Some? && |address.value| >= 2 && address.value[..2] == "0x" ==> r
  {
    address.Some? && address.value != ""
  }

  datatype Click = Increase | Decrease

  function Step(amount: int, c: Click): (r: int)
  {
    match c
    case Increase => Increased(amount)
    case Decrease => Decreased(amount)
  }

  /** The amount after a sequence of clicks, first click first. */
  function Run(amount: int, clicks: seq<Click>): (r: int)
    decreases |clicks|
  {
    if clicks == [] then amount else Run(Step(amount, clicks[0]), clicks[1..])
  }

  /** No sequence of clicks leaves [1, 100]. */
  lemma {:induction false} RunInRange(amount: int, clicks: seq<Click>)
    requires InRange(amount)
    ensures InRange(Run(amount, clicks))
    decreases |clicks|
  {
    if clicks != [] {
      RunInRange(Step(amount, clicks[0]), clicks[1..]);
    }
  }

  /** n presses of "+" from an amount in range reach min(amount + n, 100). */
  lemma {:induction false} IncreasesSaturate(amount: int, n: nat)
    requires InRange(amount)
    ensures Run(amount, seq(n, _ => Increase)) == if amount + n <= MaxPerWallet then amount + n else MaxPerWallet
    decreases n
  {
    if n > 0 {
      var clicks := seq(n, _ => Increase);
      assert clicks[0] == Increase && clicks[1..] == seq(n - 1, _ => Increase);
      IncreasesSaturate(Increased(amount), n - 1);
    }
  }

  /** The component's one state cell. */
  class BuyTickets {
    var amount: int

    ghost predicate Valid()
      reads this
    {
      InRange(amount)
    }

    constructor ()
      ensures Valid() && amount == 1
    {
      amount := 1;
    }

    method Increase()
      requires Valid()
      modifies this
      ensures Valid() && amount == Increased(old(amount))
    {
      if amount < MaxPerWallet {
        amount := amount + 1;
      }
    }

    method Decrease()
      requires Valid()
      modifies this
      ensures Valid() && amount == Decreased(old(amount))
    {
      if amount > 1 {
        amount := amount - 1;
      }
    }
  }
}
