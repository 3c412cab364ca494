/** The debounce loop told from its inputs alone: which messages lead to a refresh, when, and how often; and what the
    status says of the last failure. */
module DebounceEvents {
  import opened Debounce

  /* ---------- which messages count ---------- */

  /** A container has started, stopped, died, been destroyed or been created, or a network has gained or lost one. */
  predicate Relevant(i: Input) {
    && i.Message?
    && match i.kind
       case ContainerEvent =>
         i.action == "start" || i.action == "stop" || i.action == "die" || i.action == "destroy" || i.action == "create"
       case NetworkEvent => i.action == "connect" || i.action == "disconnect"
       case OtherEvent => false
  }

  lemma RelevantIff(i: Input)
    requires i.Message?
    ensures ShouldRefresh(i.kind, i.action) <==> Relevant(i)
  {
  }

  function Relevants(inputs: seq<Input>): nat {
    if inputs == [] then 0 else Relevants(inputs[..|inputs| - 1]) + if Relevant(inputs[|inputs| - 1]) then 1 else 0
  }

  lemma ReceiveLogs(s: Stream, i: Input)
    ensures var t := Receive(s, i);
      && s.log <= t.log
      && (Relevant(i) ==> t.log == s.log + [Accepted(i.at)])
      && Acceptances(t.log) == Acceptances(s.log) + if Relevant(i) then 1 else 0
  {
    hide ShouldRefresh, Relevant, Acceptances, Unserved, Refreshes;
    if i.Message? {
      RelevantIff(i);
      LogOne(s.log, Accepted(i.at));
    } else {
      OnlyMessages(i);
      if i.Tick? { LogRefresh(s.log, i.at); }
    }
  }

  lemma OnlyMessages(i: Input)
    requires !i.Message?
    ensures !Relevant(i)
  {
  }

  /* ---------- what follows a message ---------- */

  lemma {:induction false} LogGrows(start: nat, status: Status, inputs: seq<Input>, n: nat)
    requires n <= |inputs|
    ensures Run(Start(start, status), inputs[..n]).log <= Run(Start(start, status), inputs).log
  {
    hide Receive;
    if n == |inputs| {
      assert inputs[..n] == inputs;
    } else {
      var front := inputs[..|inputs| - 1];
      assert front[..n] == inputs[..n];
      LogGrows(start, status, front, n);
      ReceiveLogs(Run(Start(start, status), front), inputs[|inputs| - 1]);
    }
  }

  /** At place `from` or later the log has a refresh, no earlier than `at`, and then a request for an apply. */
  predicate Followed(log: seq<Act>, from: nat, at: nat) {
    exists j :: from <= j < |log| - 1 && log[j].Refreshed? && log[j].at >= at && log[j + 1] == ApplyRequested(log[j].at)
  }

  /** On every run: after each message that counts there has been a refresh and a request for an apply, or the timer is
      armed and due no later than 100 ms after the message. */
  lemma MessageServedOrDue(start: nat, status: Status, inputs: seq<Input>, n: nat)
    requires Possible(Start(start, status), inputs) && n < |inputs| && Relevant(inputs[n])
    ensures var s := Run(Start(start, status), inputs);
      || Followed(s.log, |Run(Start(start, status), inputs[..n + 1]).log|, inputs[n].at)
      || (s.pending && s.armed && s.deadline <= inputs[n].at + 100)
  {
    hide Receive, Relevant, Possible, Good;
    var s := Run(Start(start, status), inputs);
    var before, after := Run(Start(start, status), inputs[..n]), Run(Start(start, status), inputs[..n + 1]);
    assert inputs[..n + 1][..n] == inputs[..n];
    ReceiveLogs(before, inputs[n]);
    LogGrows(start, status, inputs, n + 1);
    var i := |before.log|;
    assert after.log[i] == Accepted(inputs[n].at) && s.log[i] == after.log[i];
    EventServedOrDue(start, status, inputs, i);
    LogOrdered(start, status, inputs);
    if j :| ServedAt(s.log, i, j) {
      assert s.log[j].at >= s.log[i].at;
    }
  }

  /** On every run: the refreshes that ticks set off are no more than the messages that count, so without any there
      are none. */
  lemma RefreshesBounded(start: nat, status: Status, inputs: seq<Input>)
    ensures Refreshes(Run(Start(start, status), inputs).log) <= Relevants(inputs)
    ensures (forall i :: 0 <= i < |inputs| ==> !Relevant(inputs[i])) ==>
      Refreshes(Run(Start(start, status), inputs).log) == 0
  {
    hide Relevant;
    AcceptancesCount(start, status, inputs);
    RunGood(start, status, inputs);
    if forall i :: 0 <= i < |inputs| ==> !Relevant(inputs[i]) { NoneRelevant(inputs); }
  }

  lemma {:induction false} AcceptancesCount(start: nat, status: Status, inputs: seq<Input>)
    ensures Acceptances(Run(Start(start, status), inputs).log) == Relevants(inputs)
  {
    hide Receive, Relevant;
    if inputs != [] {
      var n := |inputs| - 1;
      AcceptancesCount(start, status, inputs[..n]);
      ReceiveLogs(Run(Start(start, status), inputs[..n]), inputs[n]);
    }
  }

  lemma {:induction false} NoneRelevant(inputs: seq<Input>)
    requires forall i :: 0 <= i < |inputs| ==> !Relevant(inputs[i])
    ensures Relevants(inputs) == 0
  {
    if inputs != [] { NoneRelevant(inputs[..|inputs| - 1]); }
  }

  /** While a message waits, a tick comes no earlier than 100 ms after the first one waiting. */
  lemma TickWaits(start: nat, status: Status, inputs: seq<Input>, at: nat, outcome: string)
    requires Run(Start(start, status), inputs).pending
    requires Possible(Start(start, status), inputs + [Tick(at, outcome)])
    ensures var log := Run(Start(start, status), inputs).log; Unserved(log) != [] && at >= Unserved(log)[0] + 100
  {
    PendingTickRefreshes(start, status, inputs, at, outcome);
  }

  /* ---------- the last failure ---------- */

  /** What is shown of a failure. */
  function FailureText(i: Input): string {
    match i
    case StreamClosed(_) => "Docker event stream closed, reconnecting"
    case Failure(_, text) => "Docker event stream error: " + text
    case Tick(_, outcome) => outcome
    case Polled(_, outcome) => outcome
    case _ => ""
  }

  /** On every run: the error shown is that of the last failure, with its time, as long as nothing succeeded since. */
  lemma {:induction false} FailureShows(start: nat, status: Status, inputs: seq<Input>, n: int)
    requires FailsAt(start, status, inputs, n)
    requires forall m :: m > n ==> !FailsAt(start, status, inputs, m) && !SucceedsAt(start, status, inputs, m)
    ensures var shown := Run(Start(start, status), inputs).status;
      shown.lastError == FailureText(inputs[n]) && shown.lastErrorAt == inputs[n].at
  {
    var last := |inputs| - 1;
    if n < last {
      var front := inputs[..last];
      assert !FailsAt(start, status, inputs, last) && !SucceedsAt(start, status, inputs, last);
      PrefixSame(start, status, inputs, n);
      forall m | m > n ensures !FailsAt(start, status, front, m) && !SucceedsAt(start, status, front, m) {
        if m < last { PrefixSame(start, status, inputs, m); }
      }
      FailureShows(start, status, front, n);
    }
  }

  /* ---------- the end of the loop ---------- */

  /** The loop ends when it is cancelled, the stream is closed or fails, or the error channel is closed. */
  predicate Ends(i: Input) {
    i.Cancelled? || i.StreamClosed? || i.Failure? || i.ErrorsClosed?
  }

  /** On every run: it still goes on exactly as long as it has received nothing of that kind. */
  lemma {:induction false} RunningIff(start: nat, status: Status, inputs: seq<Input>)
    ensures Run(Start(start, status), inputs).exit.Running? <==> forall i :: 0 <= i < |inputs| ==> !Ends(inputs[i])
  {
    hide ShouldRefresh;
    if inputs != [] {
      var n := |inputs| - 1;
      RunningIff(start, status, inputs[..n]);
      if forall i :: 0 <= i < n ==> !Ends(inputs[i]) {
        assert forall i :: 0 <= i < n ==> inputs[..n][i] == inputs[i];
      } else {
        var i :| 0 <= i < n && Ends(inputs[i]);
        assert inputs[..n][i] == inputs[i];
      }
    }
  }
}
