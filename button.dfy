/** The one behavioural rule of components/Button.tsx. */
module Button {

  /** A button is disabled when its caller disables it or while it shows its spinner. */
  function Disabled(disabled: bool, isLoading: bool): (r: bool)
    ensures isLoading ==> r
    ensures disabled ==> r
    ensures !disabled && !isLoading ==> !r
  {
    disabled || isLoading
  }
}
