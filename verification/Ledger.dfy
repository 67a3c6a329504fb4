// The in-memory exposure ledger: one daily cap and an optional cap per event.

module Ledger {
  import opened Common

  type Day = int

  datatype Caps = Caps(maxDaily: real, maxEvent: Option<real>)

  // What the two dictionaries of the ledger hold; a missing key reads as zero.
  datatype Usage = Usage(daily: map<Day, real>, byEvent: map<(Day, string), real>) {
    function Used(day: Day): real { if day in daily then daily[day] else 0.0 }

    function EventUsed(day: Day, event: string): real {
      if (day, event) in byEvent then byEvent[(day, event)] else 0.0
    }

    // Usage of the whole day, or of one event on that day.
    function In(day: Day, scope: Option<string>): real {
      match scope
      case None => Used(day)
      case Some(e) => EventUsed(day, e)
    }

    function Remaining(caps: Caps, day: Day): real { MaxR(caps.maxDaily - Used(day), 0.0) }

    function EventRemaining(caps: Caps, day: Day, event: string): real {
      match caps.maxEvent
      case None => Remaining(caps, day)
      case Some(m) => MaxR(m - EventUsed(day, event), 0.0)
    }

    // What a request is granted; a negative request is a ValueError.
    function Grant(caps: Caps, day: Day, fraction: real, event: Option<string>): Option<real> {
      if fraction < 0.0 then None
      else
        var g := MinR(fraction, Remaining(caps, day));
        Some(if caps.maxEvent.Some? && event.Some?
             then MinR(g, EventRemaining(caps, day, event.value)) else g)
    }

    function Charged(day: Day, granted: real, event: Option<string>): Usage {
      if granted > 0.0 then
        Usage(daily[day := Used(day) + granted],
              if event.Some? then byEvent[(day, event.value) := EventUsed(day, event.value) + granted]
              else byEvent)
      else this
    }

    function Released(day: Day, fraction: real, event: Option<string>): Usage {
      if fraction > 0.0 then
        Usage(daily[day := MaxR(Used(day) - fraction, 0.0)],
              if event.Some?
              then byEvent[(day, event.value) := MaxR(EventUsed(day, event.value) - fraction, 0.0)]
              else byEvent)
      else this
    }
  }

  const NO_USAGE := Usage(map[], map[])

  // Two usages that every query answers alike.
  ghost predicate SameUsage(a: Usage, b: Usage) {
    && (forall d :: a.Used(d) == b.Used(d))
    && (forall d, e :: a.EventUsed(d, e) == b.EventUsed(d, e))
  }

  // The grant is the largest amount that fits the request and every room left.
  lemma GrantIsGreatest(u: Usage, caps: Caps, day: Day, fraction: real, event: string, g: real)
    requires fraction >= 0.0
    ensures var granted := u.Grant(caps, day, fraction, Some(event)).value;
            && 0.0 <= granted
            && (g <= granted <==>
                  && g <= fraction
                  && g <= u.Remaining(caps, day)
                  && (caps.maxEvent.Some? ==> g <= u.EventRemaining(caps, day, event)))
  {
  }

  // A grant keeps the day and the event at or under their caps, unless they
  // were already over them, in which case nothing is granted.
  lemma GrantRespectsCaps(u: Usage, caps: Caps, day: Day, fraction: real, event: string)
    requires fraction >= 0.0
    ensures var granted := u.Grant(caps, day, fraction, Some(event)).value;
            var v := u.Charged(day, granted, Some(event));
            && v.Used(day) == u.Used(day) + granted
            && v.EventUsed(day, event) == u.EventUsed(day, event) + granted
            && v.Used(day) <= MaxR(caps.maxDaily, u.Used(day))
            && (caps.maxEvent.Some? ==>
                  v.EventUsed(day, event) <= MaxR(caps.maxEvent.value, u.EventUsed(day, event)))
  {
  }

  // Charging adds the grant to the day and to its own event.
  lemma ChargedReads(u: Usage, day: Day, granted: real, ref: string, event: string)
    requires granted >= 0.0
    ensures var v := u.Charged(day, granted, Some(ref));
            && v.Used(day) == u.Used(day) + granted
            && v.EventUsed(day, event) == u.EventUsed(day, event) + (if ref == event then granted else 0.0)
  {
  }

  // Releasing a grant gives back exactly what charging it took: no capacity is
  // lost, and the clamp at zero never bites.
  lemma ReleaseUndoesCharge(u: Usage, day: Day, granted: real, event: Option<string>)
    requires granted >= 0.0
    requires u.Used(day) >= 0.0
    requires event.Some? ==> u.EventUsed(day, event.value) >= 0.0
    ensures SameUsage(u.Charged(day, granted, event).Released(day, granted, event), u)
  {
  }

  class DailyExposureLedger {
    const caps: Caps
    var used: map<Day, real>
    var usedByEvent: map<(Day, string), real>

    constructor (maxDaily: real, maxEvent: Option<real>)
      ensures caps == Caps(maxDaily, maxEvent) && State() == NO_USAGE
    {
      caps := Caps(maxDaily, maxEvent);
      used, usedByEvent := map[], map[];
    }

    ghost function State(): Usage
      reads this
    {
      Usage(used, usedByEvent)
    }

    method Remaining(day: Day) returns (room: real)
      ensures room == State().Remaining(caps, day)
    {
      var spent := if day in used then used[day] else 0.0;
      room := MaxR(caps.maxDaily - spent, 0.0);
    }

    method EventUsed(day: Day, event: string) returns (spent: real)
      ensures spent == State().EventUsed(day, event)
    {
      spent := if (day, event) in usedByEvent then usedByEvent[(day, event)] else 0.0;
    }

    // None stands for the ValueError of a negative request.
    method Reserve(day: Day, fraction: real, event: Option<string>) returns (granted: Option<real>)
      modifies this
      ensures granted == old(State()).Grant(caps, day, fraction, event)
      ensures State() == if granted.Some? then old(State()).Charged(day, granted.value, event)
                         else old(State())
    {
      if fraction < 0.0 { return None; }
      var room := Remaining(day);
      var g := MinR(fraction, room);
      if caps.maxEvent.Some? && event.Some? {
        var spent := EventUsed(day, event.value);
        g := MinR(g, MaxR(caps.maxEvent.value - spent, 0.0));
      }
      if g > 0.0 {
        var spentToday := if day in used then used[day] else 0.0;
        used := used[day := spentToday + g];
        if event.Some? {
          var spent := EventUsed(day, event.value);
          usedByEvent := usedByEvent[(day, event.value) := spent + g];
        }
      }
      return Some(g);
    }

    method Release(day: Day, fraction: real, event: Option<string>) returns (ok: bool)
      modifies this
      ensures ok <==> fraction >= 0.0
      ensures State() == if ok then old(State()).Released(day, fraction, event) else old(State())
    {
      if fraction < 0.0 { return false; }
      if fraction > 0.0 {
        var spentToday := if day in used then used[day] else 0.0;
        used := used[day := MaxR(spentToday - fraction, 0.0)];
        if event.Some? {
          var spent := EventUsed(day, event.value);
          usedByEvent := usedByEvent[(day, event.value) := MaxR(spent - fraction, 0.0)];
        }
      }
      return true;
    }

    method Preload(day: Day, fraction: real) returns (ok: bool)
      modifies this`used
      ensures ok <==> fraction >= 0.0
      ensures used == if ok then old(used)[day := fraction] else old(used)
    {
      ok := fraction >= 0.0;
      if ok { used := used[day := fraction]; }
    }

    method PreloadEvent(day: Day, event: string, fraction: real) returns (ok: bool)
      modifies this`usedByEvent
      ensures ok <==> fraction >= 0.0
      ensures usedByEvent == if ok then old(usedByEvent)[(day, event) := fraction] else old(usedByEvent)
    {
      ok := fraction >= 0.0;
      if ok { usedByEvent := usedByEvent[(day, event) := fraction]; }
    }
  }
}
