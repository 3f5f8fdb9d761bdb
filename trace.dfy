/**
 * What one run of the tool does, as a sequence of observable events: calls into
 * the USB Video Class library (with the codes they return), transfers issued,
 * messages printed, and resources released.
 */
module Trace {
  import opened XuTypes

  /** The three resources a run acquires, in acquisition order. */
  datatype Resource = Context | Device | Handle

  /** Library calls whose failure is reported with the library's error printer. */
  datatype LibCall = UvcInit | UvcFindDevice | UvcOpen

  datatype Event =
    | UsagePrinted
    | InitCalled(res: int)            // acquires the context when res >= 0
    | FindDeviceCalled(res: int)      // acquires a device reference when res >= 0
    | OpenCalled(res: int)            // acquires a device handle when res >= 0
    | ErrorReported(call: LibCall, res: int)
    | ExtensionUnitsQueried
    | ControlUnitMissing              // "could not find proper control unit"
    | GuidNotMatched                  // "guid not matched"
    | GetCtrlIssued(unit: byte, selector: byte, length: nat)
    | SetCtrlIssued(unit: byte, selector: byte, payload: Payload, length: nat)
    | VersionShown(text: seq<byte>)
    | VersionFailed(err: int)
    | CommandSucceeded(token: Arg)
    | CommandFailed(token: Arg, err: int)
    | Released(resource: Resource)    // close handle, unref device, exit context

  predicate IsTransfer(e: Event)
  {
    e.GetCtrlIssued? || e.SetCtrlIssued?
  }

  /** The resource an event acquires, if any. */
  function Acquires(e: Event): seq<Resource>
  {
    match e
    case InitCalled(res) => if res >= 0 then [Context] else []
    case FindDeviceCalled(res) => if res >= 0 then [Device] else []
    case OpenCalled(res) => if res >= 0 then [Handle] else []
    case _ => []
  }

  /** The resource an event releases, if any. */
  function Frees(e: Event): seq<Resource>
  {
    if e.Released? then [e.resource] else []
  }

  /** The transfer an event issues, if any. */
  function Issues(e: Event): seq<Event>
  {
    if IsTransfer(e) then [e] else []
  }

  /** What `f` picks out of each event of `t`, in trace order. */
  function Collect<X>(t: seq<Event>, f: Event -> seq<X>): seq<X>
  {
    if t == [] then [] else f(t[0]) + Collect(t[1..], f)
  }

  function Acquired(t: seq<Event>): seq<Resource> { Collect(t, Acquires) }
  function Freed(t: seq<Event>): seq<Resource> { Collect(t, Frees) }
  function Transfers(t: seq<Event>): seq<Event> { Collect(t, Issues) }

  function Reverse<X>(s: seq<X>): (r: seq<X>)
    ensures |r| == |s| && forall i :: 0 <= i < |s| ==> r[i] == s[|s| - 1 - i]
  {
    if s == [] then [] else Reverse(s[1..]) + [s[0]]
  }

  /** Collecting over a concatenation collects over each part. */
  lemma {:induction false} CollectAppend<X>(a: seq<Event>, b: seq<Event>, f: Event -> seq<X>)
    ensures Collect(a + b, f) == Collect(a, f) + Collect(b, f)
  {
    if a == [] {
      assert a + b == b;
    } else {
      assert (a + b)[1..] == a[1..] + b;
      CollectAppend(a[1..], b, f);
    }
  }

  /** Collecting over an event followed by more events. */
  lemma CollectCons<X>(e: Event, t: seq<Event>, f: Event -> seq<X>)
    ensures Collect([e] + t, f) == f(e) + Collect(t, f)
  {
  }

  /** A stretch of events that only ever yields nothing collects to nothing. */
  lemma {:induction false} CollectNothing<X>(t: seq<Event>, f: Event -> seq<X>)
    requires forall i :: 0 <= i < |t| ==> f(t[i]) == []
    ensures Collect(t, f) == []
  {
    if t != [] {
      CollectNothing(t[1..], f);
    }
  }

  /** Two stretches that release nothing release nothing together. */
  lemma NoneReleased(a: seq<Event>, b: seq<Event>)
    requires forall i :: 0 <= i < |a| ==> !a[i].Released?
    requires forall i :: 0 <= i < |b| ==> !b[i].Released?
    ensures var t := a + b; forall i :: 0 <= i < |t| ==> !t[i].Released?
  {
    var t := a + b;
    forall i | |a| <= i < |t|
      ensures !t[i].Released?
    {
      assert t[i] == b[i - |a|];
    }
  }

  /** Events that release nothing followed by releases only: no other event follows a release. */
  lemma ReleasesComeLast(head: seq<Event>, tail: seq<Event>)
    requires forall i :: 0 <= i < |head| ==> !head[i].Released?
    requires forall i :: 0 <= i < |tail| ==> tail[i].Released?
    ensures var t := head + tail;
      forall i, j :: 0 <= i < j < |t| && t[i].Released? ==> t[j].Released?
  {
    var t := head + tail;
    forall i, j | 0 <= i < j < |t| && t[i].Released?
      ensures t[j].Released?
    {
      assert i >= |head|;
      assert t[j] == tail[j - |head|];
    }
  }
}
