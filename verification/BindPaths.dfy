/**
The two path slots of the packet transport and the critical sections that change
them (internal/transport/bind.go).
*/
module BindPaths {
  import opened Common

  /** A connection; every path owns a different one. */
  type Conn = nat

  datatype Mode = NoPath | DirectMode | RelayMode | ClosedMode

  function EffectiveMode(direct: bool, relay: bool, closed: bool): Mode {
    if closed then ClosedMode else if direct then DirectMode else if relay then RelayMode else NoPath
  }

  datatype Slots = Slots(direct: Option<Conn>, relay: Option<Conn>, mode: Mode, stopped: bool) {
    /** updateModeLocked */
    function Refreshed(): Slots {
      this.(mode := EffectiveMode(direct.Some?, relay.Some?, stopped))
    }
    /** What Stats may rely on while pathMu is free. */
    predicate ModeFits() {
      !stopped ==> mode == EffectiveMode(direct.Some?, relay.Some?, false)
    }
  }

  function Select(s: Slots, c: Conn): Slots { s.(direct := Some(c)).Refreshed() }

  function Unselect(s: Slots, c: Conn): Slots {
    if s.direct == Some(c) then s.(direct := None).Refreshed() else s
  }

  function DropAny(s: Slots): Slots {
    if s.direct.Some? then s.(direct := None).Refreshed() else s
  }

  function Connect(s: Slots, c: Conn): Slots { s.(relay := Some(c)).Refreshed() }

  function Disconnect(s: Slots, c: Conn): Slots {
    if s.relay == Some(c) then s.(relay := None).Refreshed() else s
  }

  function TakeAll(s: Slots): Slots { s.(direct := None, relay := None).Refreshed() }

  /** The fields of Bind behind pathMu, and `stopped`. */
  class Paths {
    var direct: Option<Conn>
    var relay: Option<Conn>
    var mode: Mode
    var stopped: bool

    ghost function View(): Slots reads this { Slots(direct, relay, mode, stopped) }

    constructor ()
      ensures View() == Slots(None, None, NoPath, false)
    {
      direct, relay, mode, stopped := None, None, NoPath, false;
    }

    method UpdateModeLocked()
      modifies this`mode
      ensures View() == old(View()).Refreshed() && View().ModeFits()
    {
      var next := if stopped then ClosedMode else if direct.Some? then DirectMode
                  else if relay.Some? then RelayMode else NoPath;
      if next == mode { return; }
      mode := next;
    }

    /** SetDirect under pathMu: refused once stopped, else the replaced path is handed back. */
    method SelectDirect(c: Conn) returns (ok: bool, replaced: Option<Conn>)
      modifies this
      ensures ok == !old(stopped)
      ensures ok ==> replaced == old(direct) && View() == Select(old(View()), c)
      ensures ok ==> direct == Some(c) && relay == old(relay) && mode == DirectMode
      ensures !ok ==> View() == old(View())
    {
      if stopped { return false, None; }
      replaced := direct;
      direct := Some(c);
      UpdateModeLocked();
      ok := true;
    }

    /** dropDirectPath under pathMu. */
    method DropDirectPath(c: Conn)
      modifies this
      ensures View() == Unselect(old(View()), c)
      ensures old(direct) != Some(c) ==> View() == old(View())
      ensures direct != Some(c) && relay == old(relay) && (old(View()).ModeFits() ==> View().ModeFits())
    {
      if direct == Some(c) {
        direct := None;
        UpdateModeLocked();
      }
    }

    method DropDirect() returns (dropped: Option<Conn>)
      modifies this
      ensures dropped == old(direct) && View() == DropAny(old(View()))
      ensures direct.None? && relay == old(relay) && (old(View()).ModeFits() ==> View().ModeFits())
    {
      dropped := direct;
      direct := None;
      if dropped.Some? { UpdateModeLocked(); }
    }

    method ReplaceRelay(c: Conn) returns (replaced: Option<Conn>)
      modifies this
      ensures replaced == old(relay) && View() == Connect(old(View()), c)
      ensures relay == Some(c) && direct == old(direct) && View().ModeFits()
    {
      replaced := relay;
      relay := Some(c);
      UpdateModeLocked();
    }

    method ClearRelay(c: Conn)
      modifies this
      ensures View() == Disconnect(old(View()), c)
      ensures old(relay) != Some(c) ==> View() == old(View())
      ensures relay != Some(c) && direct == old(direct) && (old(View()).ModeFits() ==> View().ModeFits())
    {
      if relay == Some(c) {
        relay := None;
        UpdateModeLocked();
      }
    }

    /** Shutdown under pathMu. */
    method Take() returns (d: Option<Conn>, r: Option<Conn>)
      modifies this
      ensures d == old(direct) && r == old(relay) && View() == TakeAll(old(View()))
      ensures direct.None? && relay.None? && mode == (if stopped then ClosedMode else NoPath)
    {
      d, r := direct, relay;
      direct, relay := None, None;
      UpdateModeLocked();
    }
  }
}
