/** Choosing a host port for a new instance. */
module Ports {
  import opened Text

  /** The first port of `[start, end)` that is neither handed out nor in use. */
  method AllocatePort(start: nat, end: nat, taken: set<nat>, bindable: nat -> bool) returns (port: Option<nat>)
    ensures port.Some? ==> start <= port.value < end && port.value !in taken && bindable(port.value)
    ensures forall p | start <= p < (if port.Some? then port.value else end) :: p in taken || !bindable(p)
  {
    var p := start;
    while p < end
      invariant start <= p
      invariant p <= end || p == start
      invariant forall q | start <= q < p :: q in taken || !bindable(q)
    {
      if p in taken {
        p := p + 1;
        continue;
      }
      if bindable(p) { return Some(p); }
      p := p + 1;
    }
    port := None;
  }
}
