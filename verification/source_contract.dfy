/**
  What the pipeline relies on from a MarketDataSource
  (include/tickforge/market_data_source.hpp): next() delivers one event or ends; it ends
  only once stop() has been called or the source has run out; and a call that begins after
  stop() delivers nothing.  Modules LiveContract and ReplayContract show that the live and
  the replay source keep this.
*/
module SourceContract {
  datatype Supply = Endless | Finite(left: nat)

  /** `grace`: the call of next() in progress began before stop(), so it may still deliver. */
  datatype Source = Source(supply: Supply, stop: bool, inNext: bool, grace: bool)

  function Fresh(supply: Supply): Source { Source(supply, false, false, false) }

  predicate CanDeliver(src: Source) {
    src.inNext && src.grace && (src.supply.Finite? ==> src.supply.left > 0)
  }

  predicate CanEnd(src: Source) { src.inNext && (src.stop || src.supply == Finite(0)) }

  function Call(src: Source): Source { src.(inNext := true, grace := !src.stop) }

  function Delivered(src: Source): Source
    requires CanDeliver(src)
  {
    src.(inNext := false, supply := if src.supply.Finite? then Finite(src.supply.left - 1) else Endless)
  }

  function Ended(src: Source): Source { src.(inNext := false) }

  function Stop(src: Source): Source { src.(stop := true) }

  ghost predicate SourceInv(src: Source) { src.inNext && !src.grace ==> src.stop }

  /** The source is bound to end: it has been stopped, or it is a file. */
  predicate WillEnd(src: Source) { src.stop || src.supply.Finite? }

  /** How many more events a source that is bound to end can deliver. */
  function Remaining(src: Source): nat {
    if src.stop then
      (if src.inNext && src.grace && src.supply != Finite(0) then 1 else 0)
    else if src.supply.Finite? then src.supply.left
    else 0
  }
}
