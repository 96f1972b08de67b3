/** The plugin's half of the event stream: a log that pushes may fail to reach, and the running flag. */
module Events {
  import opened Payload

  datatype Event =
    | CaptureBegin(id: nat)
    | Data(data: CaptureData)
    | CaptureEnd(ended: nat)
    | DeviceLost

  predicate IsTerminal(event: Event) {
    event.CaptureEnd? || event.DeviceLost?
  }

  /** `wire` is what has been handed to the socket so far, in order. */
  class Events {
    var wire: seq<Event>
    var running: bool

    constructor ()
      ensures wire == [] && !running
    {
      wire, running := [], false;
    }

    /** The first half of a send: another thread may act before the second. */
    method Lower(event: Event)
      modifies this`running
      ensures running == (old(running) && !IsTerminal(event))
    {
      if IsTerminal(event) {
        running := false;
      }
    }

    /** The second half of a send. `accepted` says whether the socket takes the message. */
    method Push(event: Event, accepted: bool) returns (ok: bool)
      modifies this`wire
      ensures ok == accepted
      ensures wire == if accepted then old(wire) + [event] else old(wire)
    {
      if accepted {
        wire := wire + [event];
      }
      return accepted;
    }

    /** The flag is cleared whether or not the event gets through. */
    method Send(event: Event, accepted: bool) returns (ok: bool)
      modifies this
      ensures ok == accepted
      ensures wire == if accepted then old(wire) + [event] else old(wire)
      ensures running == (old(running) && !IsTerminal(event))
    {
      Lower(event);
      ok := Push(event, accepted);
    }

    method IsRunning() returns (r: bool)
      ensures r == running
    {
      return running;
    }

    method SetRunning(value: bool)
      modifies this`running
      ensures running == value
    {
      running := value;
    }
  }
}
