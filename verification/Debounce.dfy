/** The loop that gathers Docker events and refreshes once for a burst of them. */
module Debounce {

  const DELAY: nat := 100

  datatype EventType = ContainerEvent | NetworkEvent | OtherEvent

  /** Which events call for a refresh. */
  predicate ShouldRefresh(kind: EventType, action: string) {
    match kind
    case ContainerEvent => action in {"start", "stop", "die", "destroy", "create"}
    case NetworkEvent => action in {"connect", "disconnect"}
    case OtherEvent => false
  }

  /** What the select statement can receive, with the time at which it does, and the refreshes of the poll loop, which
      runs beside this one and writes the same status. A tick, and a poll, comes with the outcome of the refresh it
      may set off: the error text, empty if there is none. */
  datatype Input =
    | Cancelled(at: nat)
    | Message(at: nat, kind: EventType, action: string)
    | StreamClosed(at: nat)
    | NoError(at: nat)
    | Failure(at: nat, text: string)
    | ErrorsClosed(at: nat)
    | Tick(at: nat, outcome: string)
    | Polled(at: nat, outcome: string)

  /** How the loop ends. A closed error channel yields no error to describe, and asking it for its
      text brings the program down. */
  datatype Exit = Running | Stopped | Crashed

  /** What the loop does. Whether an apply that is requested also begins is up to the try-lock. */
  datatype Act = Accepted(at: nat) | Refreshed(at: nat) | ApplyRequested(at: nat)

  datatype Status = Status(lastError: string, lastErrorAt: nat, lastRefresh: nat)

  /** `deadline` is when the timer fires, None once it has. */
  datatype Stream = Stream(pending: bool, deadline: nat, armed: bool, exit: Exit, status: Status, log: seq<Act>)

  function Start(at: nat, status: Status): Stream {
    Stream(false, at + DELAY, true, Running, status, [])
  }

  function WithError(status: Status, text: string, at: nat): Status {
    status.(lastError := text, lastErrorAt := at)
  }

  function AfterRefresh(status: Status, outcome: string, at: nat): Status {
    if outcome != "" then WithError(status, outcome, at) else Status("", 0, at)
  }

  const CLOSED_TEXT := "Docker event stream closed, reconnecting"
  const FAILED_TEXT := "Docker event stream error: "

  function Receive(s: Stream, i: Input): Stream {
    match i
    case Cancelled(_) => s.(exit := Stopped)
    case Message(at, kind, action) =>
      if !ShouldRefresh(kind, action) then s
      else if s.pending then s.(log := s.log + [Accepted(at)])
      else s.(pending := true, deadline := at + DELAY, armed := true, log := s.log + [Accepted(at)])
    case StreamClosed(at) => s.(exit := Stopped, status := WithError(s.status, CLOSED_TEXT, at))
    case NoError(_) => s
    case Failure(at, text) => s.(exit := Stopped, status := WithError(s.status, FAILED_TEXT + text, at))
    case ErrorsClosed(_) => s.(exit := Crashed)
    case Tick(at, outcome) =>
      if s.pending then
        s.(pending := false, armed := false, status := AfterRefresh(s.status, outcome, at),
           log := s.log + [Refreshed(at), ApplyRequested(at)])
      else s.(armed := false)
    case Polled(at, outcome) => s.(status := AfterRefresh(s.status, outcome, at))
  }

  function Run(s: Stream, inputs: seq<Input>): Stream {
    if inputs == [] then s else Receive(Run(s, inputs[..|inputs| - 1]), inputs[|inputs| - 1])
  }

  /** Time does not run back, a tick comes only from an armed timer and not before its deadline,
      and nothing is received after the end. */
  ghost predicate Possible(start: Stream, inputs: seq<Input>) {
    inputs == [] ||
    (var n := |inputs| - 1;
     var s := Run(start, inputs[..n]);
     && Possible(start, inputs[..n])
     && s.exit.Running?
     && (n > 0 ==> inputs[n - 1].at <= inputs[n].at)
     && (inputs[n].Tick? ==> s.armed && inputs[n].at >= s.deadline))
  }

  class Controller {
    var status: Status
    var log: seq<Act>

    constructor ()
      ensures status == Status("", 0, 0) && log == []
    {
      status, log := Status("", 0, 0), [];
    }

    method SetError(text: string, now: nat)
      modifies this`status
      ensures status == WithError(old(status), text, now)
    {
      status := status.(lastError := text);
      status := status.(lastErrorAt := now);
    }

    method ClearError(now: nat)
      modifies this`status
      ensures status == Status("", 0, now)
    {
      status := status.(lastError := "");
      status := status.(lastErrorAt := 0);
      status := status.(lastRefresh := now);
    }

    method RunRefresh(outcome: string, now: nat)
      modifies this`status
      ensures status == AfterRefresh(old(status), outcome, now)
    {
      if outcome != "" { SetError(outcome, now); } else { ClearError(now); }
    }

    lemma RunStarts(s: Stream, inputs: seq<Input>)
      ensures Run(s, inputs[..0]) == s
    {
    }

    lemma RunNext(s: Stream, inputs: seq<Input>, n: nat)
      requires n < |inputs|
      ensures Run(s, inputs[..n + 1]) == Receive(Run(s, inputs[..n]), inputs[n])
    {
      assert inputs[..n + 1][..n] == inputs[..n];
    }

    /** Receives `inputs` in order until one ends the loop. */
    method StreamEvents(start: nat, inputs: seq<Input>) returns (exit: Exit)
      requires Possible(Start(start, status), inputs)
      modifies this
      ensures var s := Run(Start(start, old(status)), inputs);
        exit == s.exit && status == s.status && log == old(log) + s.log
    {
      hide Run, ShouldRefresh, Possible;
      ghost var s0 := Start(start, status);
      RunStarts(s0, inputs);
      ghost var before := log;
      var pending, armed := false, true;
      var deadline: nat := start + DELAY;
      exit := Running;
      for n := 0 to |inputs|
        invariant before <= log
        invariant Stream(pending, deadline, armed, exit, status, log[|before|..]) == Run(s0, inputs[..n])
      {
        var i := inputs[n];
        RunNext(s0, inputs, n);
        match i
        case Cancelled(_) => exit := Stopped;
        case Message(at, kind, action) =>
          if ShouldRefresh(kind, action) {
            if !pending {
              pending := true;
              deadline, armed := at + DELAY, true;
            }
            log := log + [Accepted(at)];
          }
        case StreamClosed(at) =>
          SetError(CLOSED_TEXT, at);
          exit := Stopped;
        case NoError(_) =>
        case Failure(at, text) =>
          SetError(FAILED_TEXT + text, at);
          exit := Stopped;
        case ErrorsClosed(_) => exit := Crashed;
        case Tick(at, outcome) =>
          armed := false;
          if pending {
            pending := false;
            RunRefresh(outcome, at);
            log := log + [Refreshed(at), ApplyRequested(at)];
          }
        case Polled(at, outcome) => RunRefresh(outcome, at);
      }
      assert inputs[..|inputs|] == inputs;
    }
  }

  /* ---------- what the loop guarantees ---------- */

  /** The times of the events accepted since the last refresh. */
  function Unserved(log: seq<Act>): seq<nat> {
    if log == [] then []
    else
      var front, last := Unserved(log[..|log| - 1]), log[|log| - 1];
      match last
      case Accepted(at) => front + [at]
      case Refreshed(_) => []
      case ApplyRequested(_) => front
  }

  function Refreshes(log: seq<Act>): nat {
    if log == [] then 0
    else Refreshes(log[..|log| - 1]) + if log[|log| - 1].Refreshed? then 1 else 0
  }

  function Acceptances(log: seq<Act>): nat {
    if log == [] then 0
    else Acceptances(log[..|log| - 1]) + if log[|log| - 1].Accepted? then 1 else 0
  }

  ghost predicate Good(s: Stream) {
    && (s.pending <==> Unserved(s.log) != [])
    && (s.pending ==> s.armed && s.deadline == Unserved(s.log)[0] + DELAY)
    && Refreshes(s.log) + (if s.pending then 1 else 0) <= Acceptances(s.log)
    && (s.log != [] ==> !s.log[|s.log| - 1].Refreshed?)
    && (forall i :: 0 <= i < |s.log| - 1 && s.log[i].Refreshed? ==> s.log[i + 1] == ApplyRequested(s.log[i].at))
  }

  lemma LogOne(log: seq<Act>, a: Act)
    ensures Unserved(log + [a]) ==
      if a.Accepted? then Unserved(log) + [a.at] else if a.Refreshed? then [] else Unserved(log)
    ensures Refreshes(log + [a]) == Refreshes(log) + if a.Refreshed? then 1 else 0
    ensures Acceptances(log + [a]) == Acceptances(log) + if a.Accepted? then 1 else 0
  {
    assert (log + [a])[..|log|] == log;
  }

  lemma LogRefresh(log: seq<Act>, at: nat)
    ensures var r := log + [Refreshed(at), ApplyRequested(at)];
      Unserved(r) == [] && Refreshes(r) == Refreshes(log) + 1 && Acceptances(r) == Acceptances(log)
  {
    LogOne(log, Refreshed(at));
    LogOne(log + [Refreshed(at)], ApplyRequested(at));
    assert log + [Refreshed(at)] + [ApplyRequested(at)] == log + [Refreshed(at), ApplyRequested(at)];
  }

  lemma ReceiveGood(s: Stream, i: Input)
    requires Good(s)
    ensures Good(Receive(s, i))
  {
    hide Unserved, Refreshes, Acceptances, ShouldRefresh;
    if i.Message? { LogOne(s.log, Accepted(i.at)); }
    if i.Tick? { LogRefresh(s.log, i.at); }
  }

  /** On every run: an event waits only while the timer is armed for the delay after the first one
      waiting, refreshes never outnumber events, and after each an apply is requested at once. */
  lemma {:induction false} RunGood(start: nat, status: Status, inputs: seq<Input>)
    ensures Good(Run(Start(start, status), inputs))
  {
    if inputs != [] {
      var n := |inputs| - 1;
      RunGood(start, status, inputs[..n]);
      ReceiveGood(Run(Start(start, status), inputs[..n]), inputs[n]);
    }
  }

  /** The refresh at `j`, and the request for an apply after it, come after what is at `i`. */
  predicate ServedAt(log: seq<Act>, i: int, j: int) {
    0 <= i < j < |log| - 1 && log[j].Refreshed? && log[j + 1] == ApplyRequested(log[j].at)
  }

  /** An accepted event with no refresh after it is not earlier in the log than the first one waiting. */
  lemma {:induction false} WaitsSince(log: seq<Act>, i: nat) returns (first: nat)
    requires i < |log| && log[i].Accepted?
    requires forall j :: i < j < |log| ==> !log[j].Refreshed?
    ensures first <= i && Unserved(log) != [] && Unserved(log)[0] == log[first].at
  {
    var n := |log| - 1;
    if i == n {
      first := FirstWaiting(log);
    } else {
      first := WaitsSince(log[..n], i);
    }
  }

  lemma {:induction false} FirstWaiting(log: seq<Act>) returns (first: nat)
    requires Unserved(log) != []
    ensures first < |log| && Unserved(log)[0] == log[first].at
  {
    var n := |log| - 1;
    if Unserved(log[..n]) == [] || log[n].Refreshed? {
      first := n;
    } else {
      first := FirstWaiting(log[..n]);
    }
  }

  lemma LogStep(s: Stream, i: Input)
    ensures var t := Receive(s, i);
      s.log <= t.log && forall k :: |s.log| <= k < |t.log| ==> t.log[k].at == i.at
  {
    hide ShouldRefresh;
  }

  ghost predicate InOrder(log: seq<Act>, latest: nat) {
    && (forall i, j :: 0 <= i < j < |log| ==> log[i].at <= log[j].at)
    && (forall i :: 0 <= i < |log| ==> log[i].at <= latest)
  }

  /** The log is in order of time. */
  lemma {:induction false} LogOrdered(start: nat, status: Status, inputs: seq<Input>)
    requires Possible(Start(start, status), inputs)
    ensures InOrder(Run(Start(start, status), inputs).log, if inputs == [] then start else inputs[|inputs| - 1].at)
  {
    if inputs != [] {
      var n := |inputs| - 1;
      var front := inputs[..n];
      LogOrdered(start, status, front);
      assert n > 0 ==> front[n - 1] == inputs[n - 1] && inputs[n - 1].at <= inputs[n].at;
      assert n == 0 ==> Run(Start(start, status), front).log == [];
      LogStep(Run(Start(start, status), front), inputs[n]);
    }
  }

  /** At every moment of every run, an event once accepted has had a refresh and a request for an apply
      that came after it, or the timer is armed and due within the delay after the event. */
  lemma EventServedOrDue(start: nat, status: Status, inputs: seq<Input>, i: nat)
    requires Possible(Start(start, status), inputs)
    requires i < |Run(Start(start, status), inputs).log| && Run(Start(start, status), inputs).log[i].Accepted?
    ensures var s := Run(Start(start, status), inputs);
      || (exists j :: ServedAt(s.log, i, j))
      || (s.pending && s.armed && s.deadline <= s.log[i].at + DELAY)
  {
    var s := Run(Start(start, status), inputs);
    RunGood(start, status, inputs);
    if j :| i < j < |s.log| && s.log[j].Refreshed? {
      assert ServedAt(s.log, i, j);
    } else {
      var first := WaitsSince(s.log, i);
      LogOrdered(start, status, inputs);
    }
  }

  /** Once the timer has ticked, every event accepted before has been served. */
  lemma TickServesAll(start: nat, status: Status, inputs: seq<Input>, i: nat)
    requires Possible(Start(start, status), inputs) && inputs != [] && inputs[|inputs| - 1].Tick?
    requires i < |Run(Start(start, status), inputs).log| && Run(Start(start, status), inputs).log[i].Accepted?
    ensures exists j :: ServedAt(Run(Start(start, status), inputs).log, i, j)
  {
    EventServedOrDue(start, status, inputs, i);
  }

  /** While an event waits, a tick is possible no earlier than its deadline, and it is not lost: it refreshes. */
  lemma PendingTickRefreshes(start: nat, status: Status, inputs: seq<Input>, at: nat, outcome: string)
    requires Run(Start(start, status), inputs).pending
    requires Possible(Start(start, status), inputs + [Tick(at, outcome)])
    ensures var s := Run(Start(start, status), inputs);
      var t := Run(Start(start, status), inputs + [Tick(at, outcome)]);
      && Unserved(s.log) != [] && at >= Unserved(s.log)[0] + DELAY
      && !t.pending && Refreshes(t.log) == Refreshes(s.log) + 1 && Unserved(t.log) == []
  {
    RunGood(start, status, inputs);
    assert (inputs + [Tick(at, outcome)])[..|inputs|] == inputs;
    var s := Run(Start(start, status), inputs);
    LogRefresh(s.log, at);
  }

  /* ---------- how the loop ends, and what its status says ---------- */

  /** The program crashes exactly when the error channel is found closed. */
  lemma {:induction false} CrashedIff(start: nat, status: Status, inputs: seq<Input>)
    requires Possible(Start(start, status), inputs)
    ensures Run(Start(start, status), inputs).exit.Crashed? <==>
      exists i :: 0 <= i < |inputs| && inputs[i].ErrorsClosed?
  {
    if inputs != [] {
      CrashedIff(start, status, inputs[..|inputs| - 1]);
    }
  }

  ghost predicate FailsAt(start: nat, status: Status, inputs: seq<Input>, n: int) {
    && 0 <= n < |inputs|
    && match inputs[n]
       case StreamClosed(_) => true
       case Failure(_, _) => true
       case Tick(_, outcome) => Run(Start(start, status), inputs[..n]).pending && outcome != ""
       case Polled(_, outcome) => outcome != ""
       case _ => false
  }

  ghost predicate SucceedsAt(start: nat, status: Status, inputs: seq<Input>, n: int) {
    && 0 <= n < |inputs|
    && match inputs[n]
       case Tick(_, outcome) => Run(Start(start, status), inputs[..n]).pending && outcome == ""
       case Polled(_, outcome) => outcome == ""
       case _ => false
  }

  lemma PrefixSame(start: nat, status: Status, inputs: seq<Input>, n: int)
    requires inputs != [] && n < |inputs| - 1
    ensures var front := inputs[..|inputs| - 1];
      && (FailsAt(start, status, front, n) <==> FailsAt(start, status, inputs, n))
      && (SucceedsAt(start, status, front, n) <==> SucceedsAt(start, status, inputs, n))
  {
    if n >= 0 { assert inputs[..|inputs| - 1][..n] == inputs[..n]; }
  }

  /** Something has failed since the last refresh that succeeded. */
  ghost predicate FailedSince(start: nat, status: Status, inputs: seq<Input>) {
    || (status.lastError != "" && forall m :: !SucceedsAt(start, status, inputs, m))
    || (exists n :: FailsAt(start, status, inputs, n) && forall m :: m > n ==> !SucceedsAt(start, status, inputs, m))
  }

  /** An error is shown exactly when that is so. */
  lemma {:induction false} ErrorShows(start: nat, status: Status, inputs: seq<Input>)
    ensures Run(Start(start, status), inputs).status.lastError != "" <==> FailedSince(start, status, inputs)
  {
    if inputs != [] {
      var last := |inputs| - 1;
      var front := inputs[..last];
      ErrorShows(start, status, front);
      if FailsAt(start, status, inputs, last) {
        assert forall m :: m > last ==> !SucceedsAt(start, status, inputs, m);
      } else if !SucceedsAt(start, status, inputs, last) {
        SameSince(start, status, inputs);
      }
    }
  }

  lemma SameSince(start: nat, status: Status, inputs: seq<Input>)
    requires inputs != []
    requires !FailsAt(start, status, inputs, |inputs| - 1) && !SucceedsAt(start, status, inputs, |inputs| - 1)
    ensures FailedSince(start, status, inputs) <==> FailedSince(start, status, inputs[..|inputs| - 1])
  {
    var last := |inputs| - 1;
    var front := inputs[..last];
    forall n
      ensures FailsAt(start, status, front, n) <==> FailsAt(start, status, inputs, n)
      ensures SucceedsAt(start, status, front, n) <==> SucceedsAt(start, status, inputs, n)
    {
      if n < last { PrefixSame(start, status, inputs, n); }
    }
  }

  /** The time of the last refresh is that of the last one that succeeded. */
  lemma {:induction false} RefreshTimeShows(start: nat, status: Status, inputs: seq<Input>)
    ensures var shown := Run(Start(start, status), inputs).status.lastRefresh;
      && ((forall m :: !SucceedsAt(start, status, inputs, m)) ==> shown == status.lastRefresh)
      && (forall n ::
            SucceedsAt(start, status, inputs, n) && (forall m :: m > n ==> !SucceedsAt(start, status, inputs, m)) ==>
              shown == inputs[n].at)
  {
    if inputs != [] {
      var last := |inputs| - 1;
      var front := inputs[..last];
      RefreshTimeShows(start, status, front);
      hide ShouldRefresh;
      if !SucceedsAt(start, status, inputs, last) {
        forall n ensures SucceedsAt(start, status, front, n) <==> SucceedsAt(start, status, inputs, n) {
          if n < last { PrefixSame(start, status, inputs, n); }
        }
      }
    }
  }
}
