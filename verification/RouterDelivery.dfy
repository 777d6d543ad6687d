/** Every file stream that a router dispatches is delivered once, in order, or rejected. */
module RouterDelivery {
  import opened Prelude
  import opened ReceiveFiles
  import opened Router

  // ----- what a run sent -----

  /** The send of this step goes to channel `c`: it was looked up, its receiving half exists, and fewer
      than four streams wait in it. */
  predicate SendsTo(s: State, step: Step, c: nat) {
    && step.TrySend? && s.pending.Some? && s.pending.value.1 == Some(c)
    && c < |s.channels| && s.channels[c].alive && |s.channels[c].queue| <= 3
  }

  predicate Rejects(s: State, step: Step) {
    step.TrySend? && s.pending.Some? && (s.pending.value.1.Some? ==> !SendsTo(s, step, s.pending.value.1.value))
  }

  function SentTo(s: State, steps: seq<Step>, c: nat): seq<Open>
    requires Legal(s, steps)
    decreases |steps|
  {
    if steps == [] then []
    else (if SendsTo(s, steps[0], c) then [s.pending.value.0] else []) + SentTo(Next(s, steps[0]), steps[1..], c)
  }

  function RejectedBy(s: State, steps: seq<Step>): seq<Open>
    requires Legal(s, steps)
    decreases |steps|
  {
    if steps == [] then []
    else (if Rejects(s, steps[0]) then [s.pending.value.0] else []) + RejectedBy(Next(s, steps[0]), steps[1..])
  }

  function Sends(steps: seq<Step>): nat {
    if steps == [] then 0 else (if steps[0].TrySend? then 1 else 0) + Sends(steps[1..])
  }

  /** All that channel `c` ever got, in order; nothing before it is registered. */
  function Got(s: State, c: nat): seq<Open> {
    if c < |s.channels| then s.channels[c].taken + s.channels[c].queue else []
  }

  function Total(channels: seq<Channel>): nat {
    if channels == [] then 0
    else Total(channels[..|channels| - 1]) + |channels[|channels| - 1].taken| + |channels[|channels| - 1].queue|
  }

  // ----- one step -----

  lemma StepDelivers(s: State, step: Step, c: nat)
    requires Enabled(s, step)
    ensures Got(Next(s, step), c) == Got(s, c) + (if SendsTo(s, step, c) then [s.pending.value.0] else [])
  {
    match step {
      case Receive(d) =>
        var channel := s.channels[d];
        assert channel.queue == [channel.queue[0]] + channel.queue[1..];
      case TrySend =>
        if SendsTo(s, step, c) {
          var channel := s.channels[c];
          assert channel.taken + (channel.queue + [s.pending.value.0])
              == channel.taken + channel.queue + [s.pending.value.0];
        }
      case _ =>
    }
  }

  lemma StepRejects(s: State, step: Step)
    requires Enabled(s, step)
    ensures Next(s, step).rejected == s.rejected + (if Rejects(s, step) then [s.pending.value.0] else [])
  {
  }

  lemma {:induction false} TotalAfter(channels: seq<Channel>, c: nat, channel: Channel)
    requires c < |channels|
    ensures Total(channels[c := channel]) + |channels[c].taken| + |channels[c].queue|
              == Total(channels) + |channel.taken| + |channel.queue|
  {
    var last := |channels| - 1;
    if c < last {
      TotalAfter(channels[..last], c, channel);
      assert channels[c := channel][..last] == channels[..last][c := channel];
    } else {
      assert channels[c := channel][..last] == channels[..last];
    }
  }

  lemma StepCounts(s: State, step: Step)
    requires Enabled(s, step)
    ensures Total(Next(s, step).channels) + |Next(s, step).rejected|
              == Total(s.channels) + |s.rejected| + (if step.TrySend? then 1 else 0)
  {
    var z := Next(s, step);
    match step {
      case Register(id) => assert z.channels[..|s.channels|] == s.channels;
      case DropEntry(c) => TotalAfter(s.channels, c, z.channels[c]);
      case DropReceiver(c) => TotalAfter(s.channels, c, z.channels[c]);
      case Receive(c) => TotalAfter(s.channels, c, z.channels[c]);
      case TrySend =>
        if !Rejects(s, step) {
          TotalAfter(s.channels, s.pending.value.1.value, z.channels[s.pending.value.1.value]);
        }
      case LookUp(_) =>
    }
  }

  // ----- the theorems -----

  lemma {:induction false} RunDelivers(s: State, steps: seq<Step>, c: nat)
    requires Legal(s, steps)
    ensures Got(After(s, steps), c) == Got(s, c) + SentTo(s, steps, c)
    ensures After(s, steps).rejected == s.rejected + RejectedBy(s, steps)
    ensures Total(After(s, steps).channels) + |After(s, steps).rejected|
              == Total(s.channels) + |s.rejected| + Sends(steps)
    decreases |steps|
  {
    if steps != [] {
      StepDelivers(s, steps[0], c);
      StepRejects(s, steps[0]);
      StepCounts(s, steps[0]);
      RunDelivers(Next(s, steps[0]), steps[1..], c);
    }
  }

  /** Every send is accounted for. In every run each channel has got, in order, exactly the streams that
      were sent to it while its receiving half existed and it had room; every other dispatched stream
      was rejected; so nothing is lost and nothing is delivered twice. */
  lemma EveryStreamIsDelivered(steps: seq<Step>, c: nat)
    requires Legal(START, steps)
    ensures var s := After(START, steps);
            && Got(s, c) == SentTo(START, steps, c)
            && s.rejected == RejectedBy(START, steps)
            && Total(s.channels) + |s.rejected| == Sends(steps)
  {
    RunDelivers(START, steps, c);
    assert [] + SentTo(START, steps, c) == SentTo(START, steps, c);
    assert [] + RejectedBy(START, steps) == RejectedBy(START, steps);
  }

  predicate IsRouted(s: State, id: nat) {
    exists c :: 0 <= c < |s.channels| && s.channels[c].registered && s.channels[c].id == id
  }

  /** A stream whose transfer has a live route is looked up to that route, and to none otherwise. */
  lemma LookUpFindsTheRoute(steps: seq<Step>, open: Open)
    requires Legal(START, steps) && Enabled(After(START, steps), LookUp(open))
    ensures var s := After(START, steps);
            var target := Next(s, LookUp(open)).pending;
            && target.Some? && target.value.0 == open
            && (target.value.1.Some? <==> IsRouted(s, open.transferId))
            && (target.value.1.Some? ==>
                 var c := target.value.1.value;
                 && c < |s.channels| && s.channels[c].registered && s.channels[c].alive
                 && s.channels[c].id == open.transferId)
  {
    RunKeepsInv(START, steps);
    RouteIntegrity(steps);
    var s := After(START, steps);
    if open.transferId in s.routes {
      assert ChannelInv(s.channels[s.routes[open.transferId]]);
    }
  }

  lemma {:induction false} DeadStaysSilent(s: State, steps: seq<Step>, c: nat)
    requires Legal(s, steps) && c < |s.channels| && !s.channels[c].alive && !s.channels[c].registered
    ensures SentTo(s, steps, c) == [] && c < |After(s, steps).channels|
    ensures After(s, steps).channels[c] == s.channels[c]
    decreases |steps|
  {
    if steps != [] {
      assert !SendsTo(s, steps[0], c);
      DeadStaysSilent(Next(s, steps[0]), steps[1..], c);
    }
  }

  /** Once the receiving half of a route is dropped, no stream ever gets into it or out of it again. */
  lemma DroppedGetsNothing(s: State, c: nat, steps: seq<Step>)
    requires Enabled(s, DropReceiver(c)) && Legal(Next(s, DropReceiver(c)), steps)
    ensures SentTo(Next(s, DropReceiver(c)), steps, c) == []
    ensures Got(After(Next(s, DropReceiver(c)), steps), c) == Got(s, c)
  {
    StepDelivers(s, DropReceiver(c), c);
    DeadStaysSilent(Next(s, DropReceiver(c)), steps, c);
  }
}
