/** The business and mock constants of constants.ts, plus the initial pot of App.tsx. */
module Constants {

  const RoundDurationMinutes: int := 30
  const MaxBetsPerWallet: int := 100
  const TicketPrice: int := 5
  /** 0.75 and 0.25 as exact rationals: they sum to exactly 1. */
  const WinnerPercentage: real := 0.75
  const PlatformFeePercentage: real := 0.25
  const MockInitialBalance: int := 1000

  /** The mock pot App starts with (App.tsx:18). */
  const InitialPot: int := 12500
}
