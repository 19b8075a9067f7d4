# Decentralized raffle front-end: a Dafny model of its state logic

The repository is a React front-end for a timed, pooled raffle. Users connect a mocked
wallet, pick a number of 5 USDC tickets, and place bets that grow a shared pot. A
30-minute countdown resets each wallet's ticket count when the round ends. Under the
markup sits a small amount of logic, and this project models it:

- the wall-clock **round clock** of `components/Timer.tsx` (module `Timer`);
- the **ticket selector and bet button** of `components/Dashboard.tsx` (module `Dashboard`),
  with the pot and prize figures as exact rationals;
- the **wallet and pot** owned by `App.tsx` (module `App`), with each `await` split into a
  Begin method and a Complete method;
- the **address display** and view choice of `components/ConnectWallet.tsx` (module
  `ConnectWallet`), and the disabled rule of `components/Button.tsx` (module `Button`);
- the newer `src/` widgets: the free-running `Countdown` and the `BuyTickets` picker;
- the **running page** (module `Session`): App's render passes the wallet, the pot and
  the handlers to the header and to Dashboard, and Timer calls back `onRoundEnd`.
  Each user action is a method, guarded by what the page lets the user click. Each
  suspended operation is resumed by its own method. `Session.Valid` holds the invariants
  of the page: it is preserved by every action, in any order.

Shared pieces: `Types` holds `WalletState` of `types.ts`, `Option` and `Result`.
`Constants` holds `constants.ts` and the initial pot 12500. `JsText` gives the
JavaScript semantics of `Number.prototype.toString`, `padStart` and `slice` on the
ASCII strings the components handle.

Modelling choices:

- Timestamps, balances, costs and the pot are `int`. Shares and progress are `real`
  (exact rationals), so 0.75 + 0.25 is exactly 1.
- Dafny's `/` and `%` by a positive divisor are the floor and a non-negative remainder.
  They agree with `Math.floor` of a quotient and with JavaScript's `%` on the
  non-negative operands used here.
- `Date.now()` is the `now` parameter of `Timer.Timer.Tick`. Each interval callback is
  one call of a Tick method.
- The connect and submit mocks are outcomes handed to `ResolveConnect` and `ConfirmBet`.
  At page level, a connect resolves with an address of the mock's shape: `0x` and 40
  hex digits.
- Captured closure values are held in `Session.inFlight`: Dashboard's `ticketCount`,
  App's `cost` and `newBalance`.

Behaviour reproduced as the code has it:

- The per-wallet limit is enforced only by the bet button's disabled rule.
  `App.StartBet` checks funds only.
- `setMax` can select 0 tickets.
- The balance written after the submit is the one computed before it. It overwrites
  whatever the wallet holds by then, even after a disconnect. The pot adds to its
  current value.
- Round end resets only `userBets`. The pot is never cleared, and a disconnect does not
  reset `userBets`.
- A bet confirmed after a boundary counts toward the new round. Dashboard adds the
  captured tickets to `userBets` as it is at confirmation.
- `ticketCount + userBets <= MAX` is not an invariant of the page. Increment, setMax
  and round end keep it. Decrementing from 0, or the reset to 1 after a bet that reached
  the limit, can break it. `userBets <= MAX` does hold throughout.

Details of the code worth noting:

- At an exact multiple of 30 minutes, the next boundary is `now` itself (remainder 0).
- `handleBet` raises only "Insufficient funds". It does not check the per-wallet limit.
- The address view needs a *truthy* address, so an empty string shows the connect
  button.
- Timer's effect depends on `onRoundEnd`, and Dashboard passes a new arrow function on
  every render. So every Dashboard render restarts the interval and evaluates the clock
  at once (see "## Left out").

## Model

| member | source | states |
|---|---|---|
| `Timer.NextRoundTime` | components/Timer.tsx:17-18 | the boundary is a multiple of 30 minutes, at or after `now` and less than one round later, and it is the smallest such multiple; it equals `now` exactly when `now` is a boundary |
| `Timer.Diff` | components/Timer.tsx:19 | the remainder lies in [0, 1800000) and is 0 exactly when `now` is a boundary |
| `Timer.BoundaryUnique` | components/Timer.tsx:18 | any boundary in [now, now + one round) is the next round time |
| `Timer.Minutes` | components/Timer.tsx:25 | the minutes of a remainder lie in [0, 59] |
| `Timer.Seconds` | components/Timer.tsx:26 | the seconds of a remainder lie in [0, 59] |
| `Timer.MinutesSeconds` | components/Timer.tsx:25-26 | for a remainder under one round, minutes are in [0, 29], seconds in [0, 59], and minutes*60 + seconds is the whole seconds left |
| `Timer.Formatted` | components/Timer.tsx:28 | the text has 5 characters with ':' at index 2; the two digits before it read back as the minutes and the two after it as the seconds |
| `Timer.FormattedIsTemplate` | components/Timer.tsx:28 | the `MM:SS` text is the source's template: each number's `toString()` padded to 2 with '0', around a colon |
| `Timer.Progress` | components/Timer.tsx:31-33 | progress times 1800 equals remaining seconds times 100, and it lies in [0, 100) for less than a full round |
| `Timer.CalculateTimeRemaining` | components/Timer.tsx:15-34 | a reading carries the next boundary of `now` and the milliseconds left before it, and fires onRoundEnd exactly when at most 1000 ms are left; its minutes, seconds, text and progress are the subject of `Timer.ReadingClock` and `Timer.ReadingProgress` |
| `Timer.ReadingFromFacts` | components/Timer.tsx:21-33 | for any remainder below one round, the reading splits it into minutes and seconds, shows them as `MM:SS`, gives the percentage left in [0, 100) and fires onRoundEnd exactly at 1000 ms or less |
| `Timer.ReadingBoundary` | components/Timer.tsx:15-23 | a reading's boundary and remainder are those of `now`, and onRoundEnd fires exactly when at most 1000 ms are left |
| `Timer.ReadingClock` | components/Timer.tsx:25-28 | a reading's minutes and seconds split the whole seconds left and its text is their `MM:SS` form |
| `Timer.ReadingProgress` | components/Timer.tsx:31-33 | a reading's progress lies in [0, 100) and is the percentage of the round's seconds left |
| `Timer.DiffEveryRound` | components/Timer.tsx:17-19 | clocks a whole number of rounds apart have boundaries as far apart and the same remainder |
| `Timer.SameDiffSameReading` | components/Timer.tsx:15-33 | two clocks with the same remainder get the same reading except for its boundary |
| `Timer.SameReadingEveryRound` | components/Timer.tsx:15-33 | clocks a whole number of rounds apart get the same remainder, text, progress and trigger, with the boundary shifted by the same amount |
| `Timer.BoundaryAnnounced` | components/Timer.tsx:21-36 | on an undisturbed grid of evaluations 1000 ms apart from t0, every boundary at or after t0 fires onRoundEnd on some evaluation |
| `Timer.AnnouncedAtMostTwice` | components/Timer.tsx:21-36 | on an undisturbed 1000 ms grid, two evaluations firing for the same boundary are consecutive and the later one is the boundary itself |
| `Timer.LastSecondAnnounces` | components/Timer.tsx:18-23 | an evaluation at most 1000 ms before a boundary, or on it, fires onRoundEnd for that boundary |
| `Timer.BoundaryAnnouncedWithinGaps` | components/Timer.tsx:21-40 | evaluations never more than 1000 ms apart, from one at or before a boundary to one at or after it, fire onRoundEnd for it at least once, however a restarted interval spaces them |
| `Timer.Timer.constructor` | components/Timer.tsx:9-10 | before the first evaluation the timer shows "30:00" with progress 100 |
| `Timer.Timer.Tick` | components/Timer.tsx:15-37 | one evaluation writes the reading's text and progress into the two cells and reports onRoundEnd exactly when at most 1000 ms are left |
| `JsText.DecimalString` | components/Timer.tsx:28 | `toString` of a small non-negative integer (the components format values below 100) is a non-empty digit string with no leading zero, and a single digit exactly below 10 |
| `JsText.DecimalStringRoundTrip` | components/Timer.tsx:28 | reading the digits of `n.toString()` back gives n |
| `JsText.PadStart` | components/Timer.tsx:28 | padStart yields max(length, target) characters: the pad characters, then the original string |
| `JsText.TwoDigits` | components/Timer.tsx:28 | below 100, the two-digit text of n is two decimal digits that read back as n |
| `JsText.TwoDigitsIsPadStart` | components/Timer.tsx:28 | below 100, `n.toString().padStart(2, '0')` is exactly that two-digit text |
| `JsText.Slice` | components/ConnectWallet.tsx:13 | slice takes the characters between the clamped start and end, where negative indices count from the end, and is empty when the end is not past the start |
| `Button.Disabled` | components/Button.tsx:28 | a loading button cannot be clicked again, a button its caller disables cannot be clicked, and any other button is enabled |
| `Dashboard.TotalCost` | components/Dashboard.tsx:53 | the cost is a multiple of 5 whose fifth is the ticket count, and it is non-negative for a non-negative count |
| `Dashboard.Incremented` | components/Dashboard.tsx:39-43 | the count grows by one exactly when selection plus round bets is under 100, and otherwise stays; it preserves selection + round bets <= 100 |
| `Dashboard.Decremented` | components/Dashboard.tsx:45 | the result is at least 1: one less above 1, else 1 |
| `Dashboard.MaxTickets` | components/Dashboard.tsx:47-51 | the Max selection passes the limit and the funds checks and is the largest count that does; with a valid state it is non-negative and 0 exactly when the limit is used up or a ticket is unaffordable |
| `Dashboard.CanStartBet` | components/Dashboard.tsx:126-140 | a bet can start only when connected, not processing, within the per-wallet limit and affordable |
| `Dashboard.WinnerShare` | components/Dashboard.tsx:82 | the winner share is exactly 3/4 of the pot, it plus the platform share is the pot, and it lies between 0 and a non-negative pot |
| `Dashboard.PlatformShare` | components/Dashboard.tsx:86 | the platform share is exactly 1/4 of the pot |
| `Dashboard.PotentialPrize` | components/Dashboard.tsx:53-54 | the potential prize is the winner share of the pot plus the selection's cost, 3/4 of (pot + 5 * tickets), and for a non-negative count never below the current winner share |
| `Dashboard.Dashboard.constructor` | components/Dashboard.tsx:20-22 | the selection starts at 1, not processing, with no bets this round |
| `Dashboard.Dashboard.Increment` | components/Dashboard.tsx:39-43 | the selection becomes `Incremented` of the old cells; the other cells are unchanged |
| `Dashboard.Dashboard.Decrement` | components/Dashboard.tsx:45 | the selection becomes `Decremented` of the old one; the other cells are unchanged |
| `Dashboard.Dashboard.SetMax` | components/Dashboard.tsx:47-51 | the selection becomes `MaxTickets` of the round bets and the given balance; the other cells are unchanged |
| `Dashboard.Dashboard.BeginBet` | components/Dashboard.tsx:24-29 | a disconnected wallet changes nothing and calls nothing; otherwise processing starts and onBet is called with the current selection |
| `Dashboard.Dashboard.FinishBet` | components/Dashboard.tsx:29-36 | on resolution the round bets grow by the captured tickets and the selection returns to 1; on rejection both stay; processing ends either way |
| `Dashboard.Dashboard.RoundEnd` | components/Dashboard.tsx:60 | round end sets the round bets to 0 and changes nothing else |
| `App.ConnectedWallet` | App.tsx:24-29 | a successful connect gives a coherent wallet that is connected with the address, balance 1000, not connecting |
| `App.StartBet` | App.tsx:45-50 | handleBet throws "Insufficient funds" exactly when tickets*5 exceeds the balance; otherwise it holds the cost and a non-negative new balance that with the cost makes up the call-time balance |
| `App.SettledBetConserves` | App.tsx:46-57 | with no write in between, a settled bet moves exactly its cost from balance to pot, leaves the balance non-negative, and does not lower the pot |
| `App.App.constructor` | App.tsx:10-18 | the initial state: no address, disconnected, balance 0, not connecting, pot 12500 |
| `App.App.BeginConnect` | App.tsx:20-21 | starting a connect sets only isConnecting |
| `App.App.CompleteConnect` | App.tsx:22-33 | an address yields the connected wallet with balance 1000; a failure clears only isConnecting; the pot is untouched and the wallet stays coherent |
| `App.App.Disconnect` | App.tsx:36-43 | from any state the wallet becomes the initial one (so a second disconnect changes nothing) and the pot is untouched |
| `App.App.BeginBet` | App.tsx:45-53 | handleBet up to the submit writes nothing and fails exactly when the cost exceeds the balance |
| `App.App.CompleteBet` | App.tsx:53-57 | the balance becomes the one computed at call time, not the latest one minus the cost; the pot becomes the latest pot plus the cost; if the balance did not change meanwhile, balance + pot is unchanged |
| `ConnectWallet.FormatAddress` | components/ConnectWallet.tsx:12-14 | the first min(6, n) and last min(4, n) characters around "..."; for 10 or more characters, 13 characters with the first 6 and last 4 of the address |
| `ConnectWallet.IsMockAddress` | services/web3Mock.ts:10 | an address the connect mock produces is a truthy, `0x`-prefixed string of at least 10 characters |
| `ConnectWallet.MockAddressDisplay` | components/ConnectWallet.tsx:13 | a mock address, "0x" plus 40 hex digits, shows as "0x", 4 hex digits, "..." and 4 hex digits |
| `ConnectWallet.Render` | components/ConnectWallet.tsx:16-45 | the address view appears exactly for a connected wallet with a non-empty address and shows its shortened address and balance; otherwise the connect button is loading, and so disabled, exactly while connecting |
| `Countdown.Ticked` | src/components/Countdown.tsx:10 | a tick maps t > 0 to t - 1 and 0 to 1800 and keeps the count in [0, 1800] |
| `Countdown.CountsDown` | src/components/Countdown.tsx:10 | the first t ticks from t each take one second off |
| `Countdown.AfterInRange` | src/components/Countdown.tsx:6-10 | any number of ticks from a count in [0, 1800] stays in [0, 1800] |
| `Countdown.Periodic` | src/components/Countdown.tsx:6-10 | every count in [0, 1800] recurs after exactly 1801 ticks |
| `Countdown.NoShorterPeriod` | src/components/Countdown.tsx:6-10 | no run of 1 to 1800 ticks brings 1800 back |
| `Countdown.Minutes` | src/components/Countdown.tsx:16-17 | for a count in range, minutes are in [0, 30] and minutes*60 + seconds is the count |
| `Countdown.Seconds` | src/components/Countdown.tsx:17 | for a non-negative count, where JavaScript's `%` and Dafny's agree, seconds lie in [0, 59] |
| `Countdown.Display` | src/components/Countdown.tsx:16-23 | the text is the minutes' decimal string, ':' and two digits that read back as the seconds (4 characters below 10 minutes) |
| `Countdown.DisplayIsTemplate` | src/components/Countdown.tsx:23 | the text is the source's expression: the minutes' `toString()`, ':' and the seconds padded to 2 with '0' |
| `Countdown.Countdown.constructor` | src/components/Countdown.tsx:6 | the counter starts at 1800 |
| `Countdown.Countdown.Tick` | src/components/Countdown.tsx:9-11 | one interval callback applies `Ticked` and keeps the counter in range |
| `BuyTickets.Increased` | src/components/BuyTickets.tsx:13-15 | one more exactly when under 100, otherwise unchanged; stays in [1, 100] |
| `BuyTickets.Decreased` | src/components/BuyTickets.tsx:17-19 | one fewer exactly when above 1, otherwise unchanged; stays in [1, 100] |
| `BuyTickets.Cost` | src/components/BuyTickets.tsx:44 | the cost is a multiple of 5 whose fifth is the amount, and lies in [5, 500] for an amount in range |
| `BuyTickets.BuyButtonShown` | src/components/BuyTickets.tsx:47-53 | the Buy Now button needs a present, non-empty address, so it is shown for every `0x`-prefixed address wagmi reports and never without one |
| `BuyTickets.RunInRange` | src/components/BuyTickets.tsx:11-19 | no sequence of increase and decrease clicks takes the amount out of [1, 100] |
| `BuyTickets.IncreasesSaturate` | src/components/BuyTickets.tsx:13-15 | n increases from an amount in range reach min(amount + n, 100) |
| `BuyTickets.BuyTickets.constructor` | src/components/BuyTickets.tsx:11 | the amount starts at 1 |
| `BuyTickets.BuyTickets.Increase` | src/components/BuyTickets.tsx:13-15 | the amount becomes `Increased` of the old one and stays in range |
| `BuyTickets.BuyTickets.Decrease` | src/components/BuyTickets.tsx:17-19 | the amount becomes `Decreased` of the old one and stays in range |
| `Session.Session.constructor` | App.tsx:68-90 | the page starts with the initial wallet and pot, a fresh selector and a full-round timer, and satisfies the page invariants |
| `Session.Session.ClickConnect` | components/ConnectWallet.tsx:37-44 | a click starts a connect only when the connect button is shown and not disabled; the page invariants hold after it |
| `Session.Session.ResolveConnect` | App.tsx:22-33 | a pending connect completes with the mock's address or fails; with none pending nothing changes; the page invariants hold after it |
| `Session.Session.ClickDisconnect` | components/ConnectWallet.tsx:26-31 | from the address view the wallet is reset; the pot and Dashboard's round bets survive it |
| `Session.Session.ClickIncrement` | components/Dashboard.tsx:107 | "+" applies `Incremented` and keeps the page invariants |
| `Session.Session.ClickDecrement` | components/Dashboard.tsx:102 | "-" applies `Decremented` and keeps the page invariants |
| `Session.Session.ClickMax` | components/Dashboard.tsx:132 | Max, shown only when connected, applies `MaxTickets` to the live balance and keeps the page invariants |
| `Session.Session.ClickBet` | components/Dashboard.tsx:135-140 | an enabled bet button starts exactly one bet in flight, carrying the captured selection and App's held values; a disabled one changes nothing; wallet, pot and counts are untouched until confirmation |
| `Session.Session.ConfirmBet` | App.tsx:53-57 | the in-flight bet commits App's held balance and adds the cost to the pot, then adds the captured tickets to the round bets, which stay at most 100; the pot never decreases and the balance stays non-negative |
| `Session.Session.Tick` | components/Dashboard.tsx:60 | a timer evaluation updates the display, and when the round ends it resets only the round bets; the pot is not cleared |

## Left out

- The mocks of `services/web3Mock.ts`: random hex generation and `setTimeout` delays. Their results are the parameters of `ResolveConnect` and `ConfirmBet`, and the connect address is described by `ConnectWallet.IsMockAddress`.
- Submit rejection: `submitBetMock` never rejects, so `Session.Session.ConfirmBet` always resolves. `Dashboard.Dashboard.FinishBet` keeps the rejection branch of handleBet.
- The "Insufficient funds" branch at page level: the bet button's funds test is the same test App makes, so from the page it is never reached. `App.StartBet` and `App.App.BeginBet` model it.
- `Date.now`, `setInterval` and `clearInterval`, and timer jitter: time is a parameter and each tick is an explicit call.
- Floating point: `Math.ceil` of a float quotient, the 0.75 and 0.25 products, the progress percentage and `toLocaleString` formatting are integers and exact rationals here.
- React rendering, closures and state batching, and true concurrency: one bet and one connect are in flight at a time (their buttons are disabled meanwhile), and captured values are passed explicitly.
- `RaffleRound`, `Bet` and `WinnerHistory` of `types.ts` are unused by the code. There is no draw, payout or randomness logic; "VRF Online", "142 players" and the contract text are fixed markup.
- `src/lib/wagmiConfig.ts` and `src/app/providers.tsx` are third-party wallet wiring and an environment check. `useAccount` is the `address` parameter of `BuyTickets.BuyButtonShown`.
- The layouts, `src/app/page.tsx`, `components/Header.tsx` and the styling of `components/Button.tsx` are markup only.
- The BuyTickets "Buy Now" button has no handler, so the model has no operation for it.
- Timer.AnnouncedAtMostTwice: holds only for an undisturbed 1000 ms grid from one start. Timer's effect depends on `onRoundEnd`, and Dashboard passes a new arrow function on every render, so each Dashboard render clears the interval and evaluates the clock at once. A boundary can then fire more than twice: `setUserBets(0)`, when userBets was non-zero, re-renders and fires again, and a "+" click in the last second fires once more. A bet confirmed in the last second is then reset by the evaluation its own re-render causes. Session does not model the restart: its timer evaluations are explicit `Tick` calls. `Timer.BoundaryAnnouncedWithinGaps` covers any spacing of at most 1000 ms.
- JsText.Slice: indices and lengths count Unicode characters, not UTF-16 code units as JavaScript's `slice` and `length` do, so a surrogate pair cannot be cut in half. The two agree on the ASCII hex addresses (the mock's and wagmi's) and the digit strings the components handle.
- JsText.DecimalString: models `toString` for non-negative integers below 2^53 only. Above 2^53, `toString` prints the shortest digits that round-trip to the same double, padded with zeros, and from 10^21 it uses exponent form. Both are far beyond the values below 100 that the components format.
- The `console.error` logging on connect failure (App.tsx:31) and on bet rejection (components/Dashboard.tsx:33) is output only and is not modelled.
