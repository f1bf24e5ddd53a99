/**
 The reverse replay ends under every schedule. Each time the walk leaves a rank, the rank forgets
 the remote node it was sent to, so this holds whatever the times are.
 */
module ReplayTermination {
  import opened Common
  import opened ReverseReplay
  import opened ReplayRuns

  // The rules remember remote nodes for leave nodes only.
  ghost predicate RemotesAtLeaves(net: Network) {
    forall r, p :: 0 <= r < |net| && p in net[r].remote ==> p < |net[r].nodes| && net[r].nodes[p].kind.Leave?
  }

  function Remaining(ranks: seq<Local>): nat {
    if ranks == [] then 0 else |ranks[0].remote| + Remaining(ranks[1..])
  }

  lemma {:induction false} RemainingUpdate(ranks: seq<Local>, r: nat, l: Local)
    requires r < |ranks|
    ensures Remaining(ranks[r := l]) == Remaining(ranks) - |ranks[r].remote| + |l.remote|
  {
    if r > 0 {
      assert ranks[r := l][1..] == ranks[1..][r - 1 := l];
      RemainingUpdate(ranks[1..], r - 1, l);
    } else {
      assert ranks[r := l][1..] == ranks[1..];
    }
  }

  // How far the walk is: in flight, on a rank, or over with ranks still to stop.
  ghost function Stage(net: Network, s: State, w: Place): nat
    requires Is(net, s, w)
  {
    match w
    case At(_) => 0
    case InFlight(_) => 1
    case Ended => |set r | 0 <= r < |net| && !s.ranks[r].done|
  }

  function Position(s: State, w: Place): nat { if w.At? && w.r < |s.ranks| then s.ranks[w.r].cur else 0 }

  // The walk ended; or a remote node was forgotten; or the walk arrived or a rank stopped; or it is
  // further back on its stream; or fewer sections wait for analysis.
  ghost predicate Advances(net: Network, s: State, w: Place, s': State, w': Place)
    requires Is(net, s, w) && Is(net, s', w')
  {
    || (w'.Ended? && !w.Ended?)
    || (w'.Ended? == w.Ended?
        && (|| Remaining(s'.ranks) < Remaining(s.ranks)
            || (Remaining(s'.ranks) == Remaining(s.ranks)
                && (|| Stage(net, s', w') < Stage(net, s, w)
                    || (Stage(net, s', w') == Stage(net, s, w)
                        && (|| Position(s', w') < Position(s, w)
                            || (Position(s', w') == Position(s, w) && Waiting(s'.ranks) < Waiting(s.ranks))))))))
  }

  lemma {:induction false} MasterAdvances(net: Network, s: State, m: nat, w': Place)
    requires Is(net, s, At(m)) && Enabled(net, s, Master(m)) && Is(net, Apply(net, s, Master(m)), w')
    requires Layout(net[m].nodes) && RemotesLeft(net, s) && RemotesAtLeaves(net)
    requires match MasterEffect(net[m], s.ranks[m])
             case Stay => w' == At(m)
             case Send(to) => w'.InFlight?
             case Broadcast => w'.Ended?
    ensures Advances(net, s, At(m), Apply(net, s, Master(m)), w')
  {
    var g := net[m]; var l := s.ranks[m]; var s' := Apply(net, s, Master(m));
    RemainingUpdate(s.ranks, m, s'.ranks[m]);
    if MasterEffect(g, l).Send? { Forgets(g, l); }
  }

  // The entry that led away was that of the leave itself.
  lemma {:induction false} Forgets(g: RankGraph, l: Local)
    requires Layout(g.nodes) && l.cur < |g.nodes| && MasterEffect(g, l).Send?
    requires forall p :: p in l.remote ==> p < |g.nodes| && g.nodes[p].kind.Leave?
    ensures |MasterNext(g, l).remote| < |l.remote|
  {
    assert l.cur in l.remote;
    assert (l.remote - {l.cur}).Keys == l.remote.Keys - {l.cur};
  }

  lemma {:induction false} ReceiveAdvances(net: Network, s: State, w: Place, r: nat, msg: Message, w': Place)
    requires Is(net, s, w) && Enabled(net, s, Receive(r, msg)) && Is(net, Apply(net, s, Receive(r, msg)), w')
    requires if msg.Continue? then w.InFlight? && w'.At? else w.Ended? && w'.Ended?
    ensures Advances(net, s, w, Apply(net, s, Receive(r, msg)), w')
  {
    var s' := Apply(net, s, Receive(r, msg));
    RemainingUpdate(s.ranks, r, s'.ranks[r]);
    if msg.PathFound? { OneLess(net, s, s', r); }
  }

  lemma {:induction false} AnalyseAdvances(net: Network, s: State, w: Place, r: nat)
    requires Is(net, s, w) && Enabled(net, s, Analyse(r)) && Is(net, Apply(net, s, Analyse(r)), w)
    ensures Advances(net, s, w, Apply(net, s, Analyse(r)), w)
  {
    var s' := Apply(net, s, Analyse(r));
    RemainingUpdate(s.ranks, r, s'.ranks[r]);
    WaitingUpdate(s.ranks, r, s'.ranks[r]);
    assert (set x | 0 <= x < |net| && !s'.ranks[x].done) == (set x | 0 <= x < |net| && !s.ranks[x].done);
  }

  lemma {:induction false} StepAdvances(net: Network, s: State, w: Place, a: Action) returns (w': Place)
    requires Is(net, s, w) && Enabled(net, s, a) && Layouts(net) && RemotesLeft(net, s) && RemotesAtLeaves(net)
    ensures Is(net, Apply(net, s, a), w') && RemotesLeft(net, Apply(net, s, a))
    ensures Advances(net, s, w, Apply(net, s, a), w')
  {
    w' := StepMoves(net, s, w, a);
    StepLeaves(net, s, a);
    match a
    case Master(m) => MasterAdvances(net, s, m, w');
    case Receive(r, msg) => ReceiveAdvances(net, s, w, r, msg, w');
    case Analyse(r) => AnalyseAdvances(net, s, w, r);
  }

  function StateAt(net: Network, s: State, schedule: nat -> Action, k: nat): State {
    if k == 0 then s else
      var t := StateAt(net, s, schedule, k - 1);
      if Enabled(net, t, schedule(k - 1)) then Apply(net, t, schedule(k - 1)) else t
  }

  lemma {:induction false} StopsFrom(net: Network, s: State, schedule: nat -> Action, k: nat, w: Place) returns (j: nat)
    requires Layouts(net) && RemotesAtLeaves(net)
    requires Is(net, StateAt(net, s, schedule, k), w) && RemotesLeft(net, StateAt(net, s, schedule, k))
    ensures !Enabled(net, StateAt(net, s, schedule, j), schedule(j))
    decreases if w.Ended? then 0 else 1, Remaining(StateAt(net, s, schedule, k).ranks),
              Stage(net, StateAt(net, s, schedule, k), w), Position(StateAt(net, s, schedule, k), w),
              Waiting(StateAt(net, s, schedule, k).ranks)
  {
    var t := StateAt(net, s, schedule, k);
    if Enabled(net, t, schedule(k)) {
      var w' := StepAdvances(net, t, w, schedule(k));
      assert StateAt(net, s, schedule, k + 1) == Apply(net, t, schedule(k));
      j := StopsFrom(net, s, schedule, k + 1, w');
    } else {
      j := k;
    }
  }

  /** No schedule runs forever, whatever the order of walking, receiving and analysing, and whatever
      the times of the nodes. */
  lemma {:induction false} ReplayTerminates(net: Network, s: State, schedule: nat -> Action)
    requires Layouts(net) && RemotesAtLeaves(net) && SingleLastEnter(net) && Initial(net, s)
    ensures exists j: nat :: !Enabled(net, StateAt(net, s, schedule, j), schedule(j))
  {
    var w := InitialIs(net, s);
    var j := StopsFrom(net, s, schedule, 0, w);
  }
}
