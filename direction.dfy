/**
 * The travel direction of the selected route. The page keeps it as the
 * string that goes into the provider's URLs, starting at inbound.
 */
module Direction {

  const Inbound: string := "inbound"
  const Outbound: string := "outbound"

  predicate IsDirection(d: string)
  {
    d == Inbound || d == Outbound
  }

  /**
   * The direction button: inbound becomes outbound and every other value,
   * outbound included, becomes inbound.
   */
  function Toggle(d: string): (r: string)
    ensures IsDirection(r)
    ensures r == Outbound <==> d == Inbound
    ensures r == Inbound <==> d != Inbound
  {
    if d == Inbound then Outbound else Inbound
  }

  /** On the two values the page ever holds, the button swaps them. */
  lemma ToggleSwaps(d: string)
    requires IsDirection(d)
    ensures Toggle(d) != d
    ensures Toggle(Toggle(d)) == d
  {
  }
}
