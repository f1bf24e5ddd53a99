/**
 Whole runs of the reverse replay: any interleaving of the ranks, the messages and the analysis of
 sections that the protocol allows.
 */
module ReplayRuns {
  import opened Common
  import opened ReverseReplay

  predicate Schedule(net: Network, s: State, actions: seq<Action>)
    decreases |actions|
  {
    actions == [] || (Enabled(net, s, actions[0]) && Schedule(net, Apply(net, s, actions[0]), actions[1..]))
  }

  function Run(net: Network, s: State, actions: seq<Action>): State
    requires Schedule(net, s, actions)
    decreases |actions|
  {
    if actions == [] then s else Run(net, Apply(net, s, actions[0]), actions[1..])
  }

  ghost predicate OneToken(net: Network, s: State) {
    && |s.ranks| == |net|
    && |set r | 0 <= r < |net| && Walking(s.ranks[r])| + |s.msgs| == 1
    && (forall e :: e in s.msgs ==> e.msg.Continue?)
    && (forall r :: 0 <= r < |net| ==> !s.ranks[r].done)
  }

  ghost predicate NoToken(net: Network, s: State) {
    && |s.ranks| == |net|
    && (forall r :: 0 <= r < |net| ==> !Walking(s.ranks[r]))
    && (forall e :: e in s.msgs <==> e.msg.PathFound? && e.dst < |net| && !s.ranks[e.dst].done)
    && (forall e :: s.msgs[e] <= 1)
  }

  ghost predicate PathComplete(net: Network, s: State) {
    Placed(net, s) && exists r :: Reached(net, s, r)
  }

  ghost predicate Finished(net: Network, s: State) {
    PathComplete(net, s) && s.msgs == multiset{} && forall r :: 0 <= r < |net| ==> s.ranks[r].done
  }

  // ----- Where the walk is -----

  // On a rank, in a message, or over.
  datatype Place = At(r: nat) | InFlight(e: Envelope) | Ended

  ghost predicate NobodyDone(net: Network, s: State) {
    |s.ranks| == |net| && forall r :: 0 <= r < |net| ==> !s.ranks[r].done
  }

  // Only rank `m` walks, if any does.
  ghost predicate OnlyWalker(net: Network, s: State, m: nat) {
    |s.ranks| == |net| && forall r :: 0 <= r < |net| && r != m ==> !Walking(s.ranks[r])
  }

  ghost predicate StopsAway(net: Network, s: State) {
    && |s.ranks| == |net|
    && forall e :: s.msgs[e] == if e.msg.PathFound? && e.dst < |net| && !s.ranks[e.dst].done then 1 else 0
  }

  ghost predicate Is(net: Network, s: State, w: Place) {
    && Placed(net, s)
    && match w
       case At(m) => m < |net| && Walking(s.ranks[m]) && OnlyWalker(net, s, m) && NobodyDone(net, s)
           && s.msgs == multiset{}
       case InFlight(e) => OnlyWalker(net, s, |net|) && NobodyDone(net, s) && s.msgs == multiset{e} && e.msg.Continue?
       case Ended => (exists r :: Reached(net, s, r)) && OnlyWalker(net, s, |net|) && StopsAway(net, s)
  }

  lemma {:induction false} InitialIs(net: Network, s: State) returns (w: Place)
    requires SingleLastEnter(net) && Initial(net, s)
    ensures w.At? && Is(net, s, w)
  {
    var m :| 0 <= m < |net| && |net[m].nodes| > 0 && Last(net[m]) !in net[m].blocking
      && forall r :: 0 <= r < |net| && r != m ==> |net[r].nodes| > 0 && Last(net[r]) in net[r].blocking;
    w := At(m);
  }

  lemma {:induction false} PlacedKept(net: Network, s: State, a: Action)
    requires Placed(net, s) && Enabled(net, s, a)
    ensures Placed(net, Apply(net, s, a))
  {
    var (g, l) := (net[a.r], s.ranks[a.r]);
    match a
    case Master(_) => assert MasterNext(g, l).cur <= l.cur;
    case Receive(_, msg) => if msg.Continue? { TakesOverInside(g, l, msg.nodeId); }
    case Analyse(_) =>
  }

  lemma {:induction false} TakesOverInside(g: RankGraph, l: Local, id: nat)
    requires Known(g, id)
    ensures TakeOver(g, l, id).cur < |g.nodes| && Walking(TakeOver(g, l, id)) == !l.done
  {
  }

  // The master branch.
  lemma {:induction false} MasterMoves(net: Network, s: State, m: nat) returns (w': Place)
    requires Is(net, s, At(m)) && Enabled(net, s, Master(m))
    ensures Is(net, Apply(net, s, Master(m)), w')
    ensures match MasterEffect(net[m], s.ranks[m])
            case Stay => w' == At(m)
            case Send(to) => w' == InFlight(Envelope(to.rank, Continue(to.nodeId)))
            case Broadcast => w'.Ended?
  {
    var s' := Apply(net, s, Master(m));
    PlacedKept(net, s, Master(m));
    match MasterEffect(net[m], s.ranks[m])
    case Stay => w' := At(m);
    case Send(to) => w' := InFlight(Envelope(to.rank, Continue(to.nodeId)));
    case Broadcast =>
      w' := Ended;
      assert Reached(net, s', m);
  }

  lemma {:induction false} ContinueMoves(net: Network, s: State, w: Place, r: nat, id: nat)
    requires Is(net, s, w) && Enabled(net, s, Receive(r, Continue(id)))
    ensures w == InFlight(Envelope(r, Continue(id))) && Is(net, Apply(net, s, Receive(r, Continue(id))), At(r))
  {
    assert s.msgs[Envelope(r, Continue(id))] > 0;
    PlacedKept(net, s, Receive(r, Continue(id)));
    assert w == InFlight(Envelope(r, Continue(id)));
    assert Apply(net, s, Receive(r, Continue(id))).msgs == multiset{};
  }

  lemma {:induction false} StopMoves(net: Network, s: State, w: Place, r: nat)
    requires Is(net, s, w) && Enabled(net, s, Receive(r, PathFound))
    ensures w.Ended? && Is(net, Apply(net, s, Receive(r, PathFound)), Ended)
  {
    assert s.msgs[Envelope(r, PathFound)] > 0;
    PlacedKept(net, s, Receive(r, PathFound));
    var m :| Reached(net, s, m);
    assert Reached(net, Apply(net, s, Receive(r, PathFound)), m);
  }

  lemma {:induction false} AnalyseMoves(net: Network, s: State, w: Place, r: nat)
    requires Is(net, s, w) && Enabled(net, s, Analyse(r))
    ensures Is(net, Apply(net, s, Analyse(r)), w)
  {
    PlacedKept(net, s, Analyse(r));
    if w.Ended? {
      var m :| Reached(net, s, m);
      assert Reached(net, Apply(net, s, Analyse(r)), m);
    }
  }

  // Only the rank that holds the walk takes the master branch.
  lemma {:induction false} WalkerIs(net: Network, s: State, w: Place, m: nat)
    requires Is(net, s, w) && Enabled(net, s, Master(m))
    ensures w == At(m)
  {
    assert Walking(s.ranks[m]);
  }

  /** Whatever the times, node IDs and remote nodes are, every step moves one walk: it is on one
      rank, in one message, or over. */
  lemma {:induction false} StepMoves(net: Network, s: State, w: Place, a: Action) returns (w': Place)
    requires Is(net, s, w) && Enabled(net, s, a)
    ensures Is(net, Apply(net, s, a), w')
    ensures match a
            case Master(m) =>
              && w == At(m)
              && (match MasterEffect(net[m], s.ranks[m])
                  case Stay => w' == At(m)
                  case Send(to) => w' == InFlight(Envelope(to.rank, Continue(to.nodeId)))
                  case Broadcast => w'.Ended?)
            case Receive(r, Continue(id)) => w == InFlight(Envelope(r, Continue(id))) && w' == At(r)
            case Receive(r, PathFound) => w.Ended? && w'.Ended?
            case Analyse(r) => w' == w
  {
    match a
    case Master(m) =>
      WalkerIs(net, s, w, m);
      w' := MasterMoves(net, s, m);
    case Receive(r, Continue(id)) =>
      ContinueMoves(net, s, w, r, id);
      w' := At(r);
    case Receive(r, PathFound) =>
      StopMoves(net, s, w, r);
      w' := Ended;
    case Analyse(r) =>
      AnalyseMoves(net, s, w, r);
      w' := w;
  }

  lemma {:induction false} RunMoves(net: Network, s: State, w: Place, actions: seq<Action>) returns (w': Place)
    requires Is(net, s, w) && Schedule(net, s, actions)
    ensures Is(net, Run(net, s, actions), w')
    decreases |actions|
  {
    if actions == [] {
      w' := w;
    } else {
      var next := StepMoves(net, s, w, actions[0]);
      w' := RunMoves(net, Apply(net, s, actions[0]), next, actions[1..]);
    }
  }

  // ----- Token safety -----

  lemma {:induction false} PlaceCounts(net: Network, s: State, w: Place)
    requires Is(net, s, w)
    ensures PathComplete(net, s) <==> w.Ended?
    ensures if w.Ended? then NoToken(net, s) else OneToken(net, s)
  {
    var walkers := set r | 0 <= r < |net| && Walking(s.ranks[r]);
    match w
    case At(m) => assert walkers == {m};
    case InFlight(e) => assert walkers == {};
    case Ended =>
  }

  /** Until the path start is reached, exactly one rank walks or one message carries the walk;
      afterwards nobody walks and only stop messages to ranks still in their loop exist. */
  lemma {:induction false} TokenSafety(net: Network, s: State, actions: seq<Action>)
    requires SingleLastEnter(net) && Initial(net, s) && Schedule(net, s, actions)
    ensures var t := Run(net, s, actions);
            if PathComplete(net, t) then NoToken(net, t) else OneToken(net, t)
  {
    var w := InitialIs(net, s);
    var w' := RunMoves(net, s, w, actions);
    PlaceCounts(net, Run(net, s, actions), w');
  }

  // ----- Progress -----

  // MPI regions of a stream do not overlap.
  ghost predicate Layouts(net: Network) { forall r :: 0 <= r < |net| ==> Layout(net[r].nodes) }

  // The walk is on its way to a node that its rank does not have.
  ghost predicate Undeliverable(net: Network, s: State) {
    exists e :: e in s.msgs && e.msg.Continue? && !(e.dst < |net| && Known(net[e.dst], e.msg.nodeId))
  }

  // A rank that has not left its loop can walk on, or receive; or the walk is elsewhere.
  lemma {:induction false} NextAction(net: Network, s: State, w: Place) returns (a: Action)
    requires Is(net, s, w) && Layouts(net) && !Finished(net, s) && !Undeliverable(net, s)
    ensures Enabled(net, s, a) && !a.Analyse?
  {
    match w
    case At(m) => a := Master(m);
    case InFlight(e) =>
      assert e in s.msgs;
      assert !Walking(s.ranks[e.dst]);
      a := Receive(e.dst, e.msg);
    case Ended =>
      var r := StillLooping(net, s);
      assert s.msgs[Envelope(r, PathFound)] == 1;
      a := Receive(r, PathFound);
  }

  lemma {:induction false} AllStopped(net: Network, s: State)
    requires StopsAway(net, s)
    ensures (forall r :: 0 <= r < |net| ==> s.ranks[r].done) ==> s.msgs == multiset{}
  {
    if forall r :: 0 <= r < |net| ==> s.ranks[r].done {
      forall e ensures s.msgs[e] == 0 {}
    }
  }

  lemma {:induction false} StillLooping(net: Network, s: State) returns (r: nat)
    requires Is(net, s, Ended) && !Finished(net, s)
    ensures r < |net| && !s.ranks[r].done
  {
    AllStopped(net, s);
    r :| 0 <= r < |net| && !s.ranks[r].done;
  }

  lemma {:induction false} OnlyAnalysis(net: Network, s: State, w: Place, a: Action)
    requires Is(net, s, w) && Enabled(net, s, a) && (Finished(net, s) || Undeliverable(net, s))
    ensures a.Analyse?
  {
    match a
    case Master(m) => WalkerIs(net, s, w, m);
    case Receive(r, Continue(id)) =>
      ContinueMoves(net, s, w, r, id);
    case Receive(r, PathFound) =>
      StopMoves(net, s, w, r);
    case Analyse(r) =>
  }

  /** A reachable state has no step but the analysis of sections exactly if it is a clean end, or the
      walk was sent to a node that does not exist. In a clean end the path start was reached, every
      rank left its loop and no message is undelivered. */
  lemma {:induction false} NoDeadlock(net: Network, s: State, actions: seq<Action>)
    requires Layouts(net) && SingleLastEnter(net) && Initial(net, s) && Schedule(net, s, actions)
    ensures var t := Run(net, s, actions);
            (Finished(net, t) || Undeliverable(net, t)) <==> forall a :: Enabled(net, t, a) ==> a.Analyse?
  {
    var w := InitialIs(net, s);
    var w' := RunMoves(net, s, w, actions);
    var t := Run(net, s, actions);
    if Finished(net, t) || Undeliverable(net, t) {
      forall a | Enabled(net, t, a) ensures a.Analyse? { OnlyAnalysis(net, t, w', a); }
    } else {
      var a := NextAction(net, t, w');
    }
  }

  // ----- Remote nodes -----

  // A rank only ever forgets remote nodes.
  ghost predicate RemotesLeft(net: Network, s: State) {
    |s.ranks| == |net| && forall r, p :: 0 <= r < |net| && p in s.ranks[r].remote ==>
      p in net[r].remote && s.ranks[r].remote[p] == net[r].remote[p]
  }

  // Every remote node names a region of its rank.
  ghost predicate RemotesResolve(net: Network) {
    forall r, p :: 0 <= r < |net| && p in net[r].remote ==>
      net[r].remote[p].rank < |net| && Known(net[net[r].remote[p].rank], net[r].remote[p].nodeId)
  }

  ghost predicate MessagesResolve(net: Network, s: State) {
    forall e :: e in s.msgs && e.msg.Continue? ==> e.dst < |net| && Known(net[e.dst], e.msg.nodeId)
  }

  lemma {:induction false} StepLeaves(net: Network, s: State, a: Action)
    requires RemotesLeft(net, s) && Enabled(net, s, a)
    ensures RemotesLeft(net, Apply(net, s, a))
  {
    var l' := Apply(net, s, a).ranks[a.r];
    assert forall p :: p in l'.remote ==> p in s.ranks[a.r].remote && l'.remote[p] == s.ranks[a.r].remote[p];
  }

  lemma {:induction false} StepResolves(net: Network, s: State, a: Action)
    requires RemotesLeft(net, s) && Enabled(net, s, a) && RemotesResolve(net) && MessagesResolve(net, s)
    ensures MessagesResolve(net, Apply(net, s, a))
  {
    if a.Master? { SendResolves(net, s, a.r); }
  }

  lemma {:induction false} SendResolves(net: Network, s: State, m: nat)
    requires RemotesLeft(net, s) && Enabled(net, s, Master(m)) && RemotesResolve(net)
    ensures var out := Outgoing(|net|, m, MasterEffect(net[m], s.ranks[m]));
            forall e :: e in out && e.msg.Continue? ==> e.dst < |net| && Known(net[e.dst], e.msg.nodeId)
  {
    var l := s.ranks[m];
    assert l.cur in l.remote ==> l.cur in net[m].remote;
    assert l.cur > 0 && l.cur - 1 in l.remote ==> l.cur - 1 in net[m].remote;
  }

  lemma {:induction false} RunLeaves(net: Network, s: State, actions: seq<Action>)
    requires RemotesLeft(net, s) && Schedule(net, s, actions) && RemotesResolve(net) && MessagesResolve(net, s)
    ensures MessagesResolve(net, Run(net, s, actions))
    decreases |actions|
  {
    if actions != [] {
      StepLeaves(net, s, actions[0]);
      StepResolves(net, s, actions[0]);
      RunLeaves(net, Apply(net, s, actions[0]), actions[1..]);
    }
  }

  /** If all remote nodes exist, every state that is not a clean end has such a step. */
  lemma {:induction false} CleanEnd(net: Network, s: State, actions: seq<Action>)
    requires Layouts(net) && RemotesResolve(net) && SingleLastEnter(net) && Initial(net, s) && Schedule(net, s, actions)
    ensures var t := Run(net, s, actions); Finished(net, t) <==> forall a :: Enabled(net, t, a) ==> a.Analyse?
  {
    RunLeaves(net, s, actions);
    NoDeadlock(net, s, actions);
  }
}
