/** components/ConnectWallet.tsx: the header's address view or connect button. */
module ConnectWallet {
  import opened Types
  import opened JsText
  import Button

  function Min(a: int, b: int): (r: int)
  {
    if a <= b then a else b
  }

  /** `addr.slice(0, 6) + "..." + addr.slice(-4)`: the first min(6, |addr|) and the
      last min(4, |addr|) characters around an ellipsis; for 10 or more characters,
      13 characters with the two ends of the address. */
  function FormatAddress(addr: string): (r: string)
    ensures r == addr[..Min(6, |addr|)] + "..." + addr[|addr| - Min(4, |addr|)..]
    ensures |addr| >= 10 ==>
              |r| == 13 && r[..6] == addr[..6] && r[6..9] == "..." && r[9..] == addr[|addr| - 4..]
  {
    var head, tail := Slice(addr, 0, 6), Slice(addr, -4, |addr|);
    assert head == addr[..Min(6, |addr|)];
    assert tail == addr[|addr| - Min(4, |addr|)..];
    var r := head + "..." + tail;
    assert |addr| >= 10 ==> r[..6] == head && r[6..9] == "..." && r[9..] == tail;
    r
  }

  /** A digit of `Math.floor(Math.random() * 16).toString(16)`. */
  predicate IsHexDigit(c: char)
  {
    '0' <= c <= '9' || 'a' <= c <= 'f'
  }

  /** An address connectWalletMock produces: "0x" and 40 hex digits. Such an address is
      a truthy, `0x`-prefixed string of at least 10 characters. */
  predicate IsMockAddress(a: string)
    ensures IsMockAddress(a) ==> a != "" && |a| >= 10 && a[..2] == "0x"
  {
    |a| == 42 && a[0] == '0' && a[1] == 'x' && forall i :: 2 <= i < 42 ==> IsHexDigit(a[i])
  }

  /** A mock address is shown as "0x", four hex digits, "..." and four hex digits. */
  lemma MockAddressDisplay(a: string)
    requires IsMockAddress(a)
    ensures var r := FormatAddress(a);
      && |r| == 13 && r[0] == '0' && r[1] == 'x'
      && (forall i :: 2 <= i < 6 ==> IsHexDigit(r[i]))
      && r[6..9] == "..."
      && (forall i :: 9 <= i < 13 ==> IsHexDigit(r[i]))
  {
    var r := FormatAddress(a);
    assert r[..6] == a[..6] && r[9..] == a[38..];
    forall i | 2 <= i < 6 ensures IsHexDigit(r[i]) {
      assert r[i] == r[..6][i] == a[i];
    }
    forall i | 9 <= i < 13 ensures IsHexDigit(r[i]) {
      assert r[i] == r[9..][i - 9] == a[38 + i - 9];
    }
  }

  /** What the component renders. */
  datatype View =
    | AddressView(shown: string, balance: int)
    | ConnectButton(isLoading: bool, isDisabled: bool)

  /** `wallet.isConnected && wallet.address` picks the address view; JavaScript treats
      the empty address as false, so an empty address shows the connect button. The
      connect button spins, and is therefore disabled, exactly while connecting. */
  function Render(wallet: WalletState): (v: View)
    ensures v.AddressView? <==> wallet.isConnected && wallet.address.Some? && wallet.address.value != ""
    ensures v.AddressView? ==> v.shown == FormatAddress(wallet.address.value) && v.balance == wallet.balance
    ensures v.ConnectButton? ==> (v.isLoading <==> wallet.isConnecting) && (v.isDisabled <==> wallet.isConnecting)
    ensures Coherent(wallet) && wallet.isConnected && IsMockAddress(wallet.address.value) ==> v.AddressView?
  {
    if wallet.isConnected && wallet.address.Some? && wallet.address.value != "" then
      AddressView(FormatAddress(wallet.address.value), wallet.balance)
    else
      ConnectButton(wallet.isConnecting, Button.Disabled(false, wallet.isConnecting))
  }
}
