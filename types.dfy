/** The records the front-end passes between components (types.ts). */
module Types {

  datatype Option<T> = None | Some(value: T)

  /** The outcome of an operation that may throw. */
  datatype Result<T, E> = Ok(value: T) | Err(error: E)

  /** WalletState of types.ts:1-6. `balance` is the simulated USDC balance, an integer here. */
  datatype WalletState = WalletState(
    address: Option<string>,
    isConnected: bool,
    balance: int,
    isConnecting: bool)

  /** A wallet is connected exactly when it carries an address. */
  predicate Coherent(w: WalletState)
  {
    w.isConnected <==> w.address.Some?
  }
}
