/**
 One session's router: transfer ids map to the channels of registered routes, the accept loop
 dispatches one file stream at a time, and routes come and go between its two lock-free halves.

 A channel is named by its position in `channels`, which no other channel ever takes over. A route is
 dropped in two steps, as the code does it: first its map entry, then the receiving half itself.
 */
module Router {
  import opened Prelude
  import opened ReceiveFiles

  /** `registered`: the route has not begun to drop. `alive`: its receiving half exists. */
  datatype Channel = Channel(id: nat, queue: seq<Open>, taken: seq<Open>, registered: bool, alive: bool)

  /** `pending`: the stream being dispatched and the sender handle cloned for it. */
  datatype State = State(
    routes: map<nat, nat>,
    channels: seq<Channel>,
    pending: Option<(Open, Option<nat>)>,
    rejected: seq<Open>)

  datatype Step =
    | Register(id: nat)
    | DropEntry(channel: nat)
    | DropReceiver(channel: nat)
    | LookUp(open: Open)
    | TrySend
    | Receive(channel: nat)

  const START := State(map[], [], None, [])

  predicate Enabled(s: State, step: Step) {
    match step
    case Register(id) => id !in s.routes
    case DropEntry(c) => c < |s.channels| && s.channels[c].registered
    case DropReceiver(c) => c < |s.channels| && !s.channels[c].registered && s.channels[c].alive
    case LookUp(open) => s.pending.None?
    case TrySend => s.pending.Some?
    case Receive(c) => c < |s.channels| && s.channels[c].registered && s.channels[c].queue != []
  }

  predicate Accepts(s: State, c: nat) {
    c < |s.channels| && s.channels[c].alive && |s.channels[c].queue| < FILE_STREAM_CONCURRENCY
  }

  function Next(s: State, step: Step): State
    requires Enabled(s, step)
  {
    match step
    case Register(id) =>
      s.(routes := s.routes[id := |s.channels|], channels := s.channels + [Channel(id, [], [], true, true)])
    case DropEntry(c) =>
      s.(routes := s.routes - {s.channels[c].id}, channels := s.channels[c := s.channels[c].(registered := false)])
    case DropReceiver(c) => s.(channels := s.channels[c := s.channels[c].(alive := false)])
    case LookUp(open) =>
      s.(pending := Some((open, if open.transferId in s.routes then Some(s.routes[open.transferId]) else None)))
    case TrySend =>
      var (open, target) := s.pending.value;
      if target.Some? && Accepts(s, target.value) then
        var channel := s.channels[target.value];
        s.(pending := None, channels := s.channels[target.value := channel.(queue := channel.queue + [open])])
      else s.(pending := None, rejected := s.rejected + [open])
    case Receive(c) =>
      var channel := s.channels[c];
      var rest := channel.(queue := channel.queue[1..], taken := channel.taken + [channel.queue[0]]);
      s.(channels := s.channels[c := rest])
  }

  predicate Legal(s: State, steps: seq<Step>)
    decreases |steps|
  {
    steps == [] || (Enabled(s, steps[0]) && Legal(Next(s, steps[0]), steps[1..]))
  }

  function After(s: State, steps: seq<Step>): State
    requires Legal(s, steps)
    decreases |steps|
  {
    if steps == [] then s else After(Next(s, steps[0]), steps[1..])
  }

  // ----- the invariant -----

  ghost predicate ChannelInv(c: Channel) {
    && |c.queue| <= FILE_STREAM_CONCURRENCY
    && (c.registered ==> c.alive)
    && forall open :: open in c.queue || open in c.taken ==> open.transferId == c.id
  }

  ghost predicate Inv(s: State) {
    && (forall id :: id in s.routes ==>
         s.routes[id] < |s.channels| && s.channels[s.routes[id]].id == id && s.channels[s.routes[id]].registered)
    && (forall c :: 0 <= c < |s.channels| ==>
         ChannelInv(s.channels[c])
         && (s.channels[c].registered ==> s.channels[c].id in s.routes && s.routes[s.channels[c].id] == c))
    && (s.pending.Some? && s.pending.value.1.Some? ==>
         s.pending.value.1.value < |s.channels|
         && s.channels[s.pending.value.1.value].id == s.pending.value.0.transferId)
  }

  lemma StepKeepsInv(s: State, step: Step)
    requires Inv(s) && Enabled(s, step)
    ensures Inv(Next(s, step))
  {
    var z := Next(s, step);
    forall c | 0 <= c < |z.channels| ensures ChannelInv(z.channels[c]) {
      if c < |s.channels| {
        assert ChannelInv(s.channels[c]);
        assert s.channels[c].queue != [] ==> s.channels[c].queue[0] in s.channels[c].queue;
      }
    }
  }

  lemma {:induction false} RunKeepsInv(s: State, steps: seq<Step>)
    requires Inv(s) && Legal(s, steps)
    ensures Inv(After(s, steps))
    decreases |steps|
  {
    if steps != [] {
      StepKeepsInv(s, steps[0]);
      RunKeepsInv(Next(s, steps[0]), steps[1..]);
    }
  }

  // ----- the theorems -----

  /** Route integrity. In every run the map's keys are exactly the ids of the live routes, each id has
      one route, and a route only ever gets streams that carry its own transfer id, so the id check
      that guards its grants never fires. */
  lemma RouteIntegrity(steps: seq<Step>)
    requires Legal(START, steps)
    ensures var s := After(START, steps);
            && (forall id :: id in s.routes <==>
                 exists c :: 0 <= c < |s.channels| && s.channels[c].registered && s.channels[c].id == id)
            && (forall c, d :: 0 <= c < d < |s.channels| && s.channels[c].registered && s.channels[d].registered ==>
                 s.channels[c].id != s.channels[d].id)
            && (forall c, open ::
                 0 <= c < |s.channels| && (open in s.channels[c].taken || open in s.channels[c].queue) ==>
                 open.transferId == s.channels[c].id)
  {
    RunKeepsInv(START, steps);
    var s := After(START, steps);
    forall c, open | 0 <= c < |s.channels| && (open in s.channels[c].taken || open in s.channels[c].queue)
      ensures open.transferId == s.channels[c].id
    {
      assert ChannelInv(s.channels[c]);
    }
  }

  predicate NoSend(steps: seq<Step>) {
    forall i :: 0 <= i < |steps| ==> !steps[i].TrySend?
  }

  lemma {:induction false} HandleIsKept(s: State, steps: seq<Step>, c: nat)
    requires Legal(s, steps) && NoSend(steps) && s.pending.Some? && c < |s.channels|
    ensures After(s, steps).pending == s.pending
    ensures c < |After(s, steps).channels| && (!s.channels[c].alive ==> !After(s, steps).channels[c].alive)
    decreases |steps|
  {
    if steps != [] {
      assert !steps[0].TrySend?;
      forall i | 0 <= i < |steps[1..]| ensures !steps[1..][i].TrySend? {
        assert !steps[i + 1].TrySend?;
      }
      HandleIsKept(Next(s, steps[0]), steps[1..], c);
    }
  }

  /** A stale handle stays with its own route. Whatever registers and drops between the lookup and the
      send, the stream goes to the channel that was looked up or to none; once that channel's
      receiving half is gone it is rejected, also if a new route has taken the same id. */
  lemma StaleHandleStaysWithItsRoute(s: State, steps: seq<Step>, c: nat)
    requires Legal(s, steps) && NoSend(steps)
    requires s.pending.Some? && s.pending.value.1 == Some(c) && c < |s.channels|
    ensures var t := After(s, steps);
            && Enabled(t, TrySend)
            && var n := Next(t, TrySend);
               && |n.channels| == |t.channels|
               && (forall d :: 0 <= d < |t.channels| && d != c ==> n.channels[d] == t.channels[d])
               && (!s.channels[c].alive ==> n.channels == t.channels && n.rejected == t.rejected + [s.pending.value.0])
  {
    HandleIsKept(s, steps, c);
  }

  // ----- the router object -----

  class SessionRouter {
    var routes: map<nat, nat>
    var channels: seq<Channel>
    var pending: Option<(Open, Option<nat>)>
    var rejected: seq<Open>

    function Model(): State
      reads this
    {
      State(routes, channels, pending, rejected)
    }

    constructor ()
      ensures Model() == START
    {
      routes, channels, pending, rejected := map[], [], None, [];
    }

    /** Refuses an id that is still routed. */
    method Route(id: nat) returns (r: Result<nat>)
      modifies this
      ensures r.Ok? <==> Enabled(old(Model()), Register(id))
      ensures r.Ok? ==> Model() == Next(old(Model()), Register(id)) && r.value == |old(channels)|
      ensures r.Err? ==> r.error == Invalid && Model() == old(Model())
    {
      if id in routes {
        return Err(Invalid);
      }
      r := Ok(|channels|);
      routes := routes[id := |channels|];
      channels := channels + [Channel(id, [], [], true, true)];
    }

    /** Dropping a route: the entry first, then the receiving half. */
    method DropRoute(c: nat)
      requires Enabled(Model(), DropEntry(c)) && channels[c].alive
      modifies this
      ensures Model() == Next(Next(old(Model()), DropEntry(c)), DropReceiver(c))
    {
      routes := routes - {channels[c].id};
      channels := channels[c := channels[c].(registered := false)];
      channels := channels[c := channels[c].(alive := false)];
    }

    /** One file stream through the accept loop, undisturbed. */
    method Dispatch(open: Open)
      requires pending.None?
      modifies this
      ensures Model() == Next(Next(old(Model()), LookUp(open)), TrySend)
      ensures old(open.transferId in routes && Accepts(Model(), routes[open.transferId])) ==>
        var c := routes[open.transferId];
        && routes == old(routes) && rejected == old(rejected) && pending == old(pending)
        && |channels| == |old(channels)|
        && channels[c] == old(channels)[c].(queue := old(channels)[c].queue + [open])
        && forall d :: 0 <= d < |channels| && d != c ==> channels[d] == old(channels)[d]
      ensures !old(open.transferId in routes && Accepts(Model(), routes[open.transferId])) ==>
        rejected == old(rejected) + [open] && channels == old(channels) && routes == old(routes)
    {
      if open.transferId in routes {
        var c := routes[open.transferId];
        if c < |channels| && channels[c].alive && |channels[c].queue| < FILE_STREAM_CONCURRENCY {
          channels := channels[c := channels[c].(queue := channels[c].queue + [open])];
        } else {
          rejected := rejected + [open];
        }
      } else {
        rejected := rejected + [open];
      }
    }
  }
}
