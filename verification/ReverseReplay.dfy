/**
 The distributed reverse replay (Runner::detectCriticalPathMPIP2P).

 Every rank owns the MPI nodes of its MPI stream. Exactly one rank, the master, walks
 backwards over its nodes. At a blocking leave it records a critical section and hands the
 walk over to the rank that caused the wait state; at the start of the path it tells all
 other ranks to stop. Ranks that are not master wait for a message and meanwhile analyse
 the sections they recorded before.
 */
module ReverseReplay {
  import opened Common

  // ----- Static data: what the forward analysis left on every rank -----

  datatype Kind = Start | Enter(isInit: bool) | Leave

  datatype MpiNode = MpiNode(id: nat, time: nat, kind: Kind)

  datatype Remote = Remote(rank: nat, nodeId: nat)

  // `blocking` holds the positions of leave nodes whose activity edge is blocking;
  // `remote` maps positions of local nodes to the node that released them.
  datatype RankGraph = RankGraph(nodes: seq<MpiNode>, blocking: set<nat>, remote: map<nat, Remote>)

  datatype Section = Section(start: nat, end: nat)

  type Network = seq<RankGraph>

  // An atomic start node, followed by MPI regions one after the other.
  predicate Layout(nodes: seq<MpiNode>) {
    && |nodes| >= 3 && |nodes| % 2 == 1
    && (forall p :: 0 <= p < |nodes| ==>
          if p == 0 then nodes[p].kind.Start?
          else if p % 2 == 1 then nodes[p].kind.Enter? else nodes[p].kind.Leave?)
  }

  // Regions have positive duration, do not overlap, and IDs grow along the stream.
  predicate Ordered(nodes: seq<MpiNode>) {
    && (forall p, q :: 0 <= p < q < |nodes| ==> nodes[p].time <= nodes[q].time && nodes[p].id < nodes[q].id)
    && (forall p :: 0 < p < |nodes| && p % 2 == 1 && p + 1 < |nodes| ==> nodes[p].time < nodes[p + 1].time)
  }

  // The region a node belongs to, given by the position of its leave.
  function LeaveOf(nodes: seq<MpiNode>, p: nat): nat
    requires p < |nodes|
  {
    if nodes[p].kind.Leave? then p else p + 1
  }

  // `q` is the enter position of the region that `remote` points to.
  predicate PointsTo(net: Network, remote: Remote, q: nat) {
    && remote.rank < |net|
    && var nodes := net[remote.rank].nodes;
    && 0 < q && q + 1 < |nodes| && q % 2 == 1
    && (nodes[q].id == remote.nodeId || nodes[q + 1].id == remote.nodeId)
  }

  ghost predicate PointsBefore(net: Network, remote: Remote, time: nat) {
    exists q: nat :: PointsTo(net, remote, q) && net[remote.rank].nodes[q].time < time
  }

  function RemoteOf(remote: map<nat, Remote>, p: nat): Option<Remote> {
    if p in remote then Some(remote[p])
    else if p > 0 && p - 1 in remote then Some(remote[p - 1])
    else None
  }

  predicate BlockingLeave(g: RankGraph, p: nat) {
    p in g.blocking && p < |g.nodes| && g.nodes[p].kind.Leave?
  }

  // Every blocking leave leads to an enter that is earlier than the leave.
  ghost predicate Released(net: Network, g: RankGraph, remote: map<nat, Remote>, p: nat)
    requires p < |g.nodes|
  {
    && RemoteOf(remote, p).Some?
    && PointsBefore(net, RemoteOf(remote, p).value, g.nodes[p].time)
  }

  ghost predicate GoodNetwork(net: Network) {
    forall r :: 0 <= r < |net| ==>
      && Layout(net[r].nodes) && Ordered(net[r].nodes)
      && forall p :: BlockingLeave(net[r], p) ==> Released(net, net[r], net[r].remote, p)
  }

  // ----- One rank -----

  datatype Message = Continue(nodeId: nat) | PathFound

  datatype Envelope = Envelope(dst: nat, msg: Message)

  // The local variables of the loop. `recorded` and `processed` are the sections pushed and
  // analysed so far; `marked` are the nodes whose critical-path counter is set.
  datatype Local = Local(isMaster: bool, cur: nat, sectionEnd: Option<nat>,
                         sectionList: seq<Section>, processed: seq<Section>, recorded: seq<Section>,
                         remote: map<nat, Remote>, marked: set<nat>, done: bool)

  function PushSection(l: Local): (l': Local) {
    if l.sectionEnd.Some? && l.cur != l.sectionEnd.value then
      var s := Section(l.cur, l.sectionEnd.value);
      l.(sectionList := l.sectionList + [s], recorded := l.recorded + [s])
    else l
  }

  // Push the section that ends at a blocking leave; only then is the leave marked here.
  function CloseSection(l: Local): Local {
    if l.sectionEnd.Some? && l.cur != l.sectionEnd.value
    then PushSection(l).(marked := l.marked + {l.cur}) else l
  }

  // Continue as master at the previous node of the stream.
  function StepBack(l: Local): Local
    requires l.cur > 0
  {
    l.(marked := l.marked + {l.cur}, cur := l.cur - 1)
  }

  function HandOver(l: Local): Local {
    l.(isMaster := false, sectionEnd := None, remote := l.remote - {l.cur})
  }

  function Finish(l: Local): Local {
    PushSection(l).(marked := l.marked + {l.cur}, done := true)
  }

  predicate PathStart(k: Kind) { k.Start? || (k.Enter? && k.isInit) }

  // One iteration of the master branch: the new local state and, if the walk leaves this
  // rank, the node that continues it.
  datatype Effect = Stay | Send(remote: Remote) | Broadcast

  function MasterEffect(g: RankGraph, l: Local): Effect
    requires l.cur < |g.nodes|
  {
    var k := g.nodes[l.cur].kind;
    if k.Leave? then
      if l.cur in g.blocking && RemoteOf(l.remote, l.cur).Some?
      then Send(RemoteOf(l.remote, l.cur).value) else Stay
    else if PathStart(k) then Broadcast else Stay
  }

  function MasterNext(g: RankGraph, l: Local): Local
    requires l.cur < |g.nodes| && (l.cur == 0 ==> g.nodes[0].kind.Start?)
  {
    var k := g.nodes[l.cur].kind;
    if k.Leave? then
      if l.cur in g.blocking then
        var c := CloseSection(l);
        if RemoteOf(l.remote, l.cur).Some? then HandOver(c) else StepBack(c)
      else StepBack(l)
    else if PathStart(k) then Finish(l) else StepBack(l)
  }

  function PositionOf(nodes: seq<MpiNode>, id: nat): (p: nat)
    ensures p <= |nodes|
    ensures p < |nodes| ==> nodes[p].id == id
    ensures forall q :: 0 <= q < p ==> nodes[q].id != id
  {
    if nodes == [] || nodes[0].id == id then 0 else
      assert forall q :: 0 < q < |nodes| ==> nodes[q] == nodes[1..][q - 1];
      1 + PositionOf(nodes[1..], id)
  }

  // A waiting rank takes over the walk at the region of node `id`.
  function TakeOver(g: RankGraph, l: Local, id: nat): Local
    requires PositionOf(g.nodes, id) < |g.nodes| && LeaveOf(g.nodes, PositionOf(g.nodes, id)) > 0
  {
    var leave := LeaveOf(g.nodes, PositionOf(g.nodes, id));
    l.(isMaster := true, marked := l.marked + {leave}, cur := leave - 1, sectionEnd := Some(leave))
  }

  // A waiting rank analyses its most recently recorded section.
  function AnalyseSection(l: Local): Local
    requires l.sectionList != []
  {
    l.(sectionList := l.sectionList[..|l.sectionList| - 1],
        processed := l.processed + [l.sectionList[|l.sectionList| - 1]])
  }

  // The node belongs to a region of the rank; the program cannot continue at any other.
  predicate Known(g: RankGraph, id: nat) { 0 < PositionOf(g.nodes, id) < |g.nodes| }

  // ----- All ranks and the messages in flight -----

  datatype State = State(ranks: seq<Local>, msgs: multiset<Envelope>)

  datatype Action = Master(r: nat) | Receive(r: nat, msg: Message) | Analyse(r: nat)

  predicate Enabled(net: Network, s: State, a: Action) {
    && |s.ranks| == |net| && a.r < |net| && !s.ranks[a.r].done
    && var g := net[a.r]; var l := s.ranks[a.r];
       match a
       case Master(_) =>
         l.isMaster && l.cur < |g.nodes| && (l.cur == 0 ==> g.nodes[0].kind.Start?)
       case Receive(_, msg) =>
         && !l.isMaster && s.msgs[Envelope(a.r, msg)] > 0
         && (msg.Continue? ==> Known(g, msg.nodeId))
       case Analyse(_) => !l.isMaster && l.sectionList != []
  }

  // The stop message goes to every rank but the sender.
  function StopMessages(n: nat, sender: nat): (m: multiset<Envelope>)
    ensures forall e :: m[e] == if e.msg.PathFound? && e.dst < n && e.dst != sender then 1 else 0
  {
    multiset(set r | 0 <= r < n && r != sender :: Envelope(r, PathFound))
  }

  function Outgoing(n: nat, sender: nat, e: Effect): multiset<Envelope> {
    match e
    case Stay => multiset{}
    case Send(to) => multiset{Envelope(to.rank, Continue(to.nodeId))}
    case Broadcast => StopMessages(n, sender)
  }

  function Apply(net: Network, s: State, a: Action): State
    requires Enabled(net, s, a)
  {
    var g := net[a.r]; var l := s.ranks[a.r];
    match a
    case Master(r) =>
      State(s.ranks[r := MasterNext(g, l)], s.msgs + Outgoing(|net|, r, MasterEffect(g, l)))
    case Receive(r, msg) =>
      var l' := if msg.Continue? then TakeOver(g, l, msg.nodeId) else l.(done := true);
      State(s.ranks[r := l'], s.msgs - multiset{Envelope(r, msg)})
    case Analyse(r) => s.(ranks := s.ranks[r := AnalyseSection(l)])
  }

  function Last(g: RankGraph): nat
    requires |g.nodes| > 0
  {
    |g.nodes| - 1
  }

  // A rank starts at its last MPI leave; it is master if that leave did not have to wait.
  function InitialLocal(g: RankGraph): Local
    requires |g.nodes| > 0
  {
    var isMaster := Last(g) !in g.blocking;
    Local(isMaster, Last(g), if isMaster then Some(Last(g)) else None, [], [], [], g.remote, {}, false)
  }

  ghost predicate Initial(net: Network, s: State) {
    && |s.ranks| == |net| && s.msgs == multiset{}
    && (forall r :: 0 <= r < |net| ==> |net[r].nodes| > 0 && s.ranks[r] == InitialLocal(net[r]))
  }

  // Exactly one rank did not wait in its last MPI activity.
  ghost predicate SingleLastEnter(net: Network) {
    exists m :: 0 <= m < |net| && |net[m].nodes| > 0 && Last(net[m]) !in net[m].blocking
      && forall r :: 0 <= r < |net| && r != m ==> |net[r].nodes| > 0 && Last(net[r]) in net[r].blocking
  }

  // ----- The invariant of every reachable state -----

  // Node `p` lies in one of the sections, ends included.
  predicate Covered(sections: seq<Section>, p: nat) {
    exists i :: 0 <= i < |sections| && sections[i].start <= p <= sections[i].end
  }

  // Sections go back along the stream: each is non-empty and the next one ends no later
  // than the previous one starts.
  predicate GoingBack(sections: seq<Section>) {
    && (forall i :: 0 <= i < |sections| ==> sections[i].start < sections[i].end)
    && (forall i, j :: 0 <= i < j < |sections| ==> sections[j].end <= sections[i].start)
  }

  predicate Walking(l: Local) { l.isMaster && !l.done }

  // The walk has passed `p` since it took over and not yet put it into a section.
  predicate Open(l: Local, p: nat) {
    Walking(l) && l.sectionEnd.Some? && l.cur < p <= l.sectionEnd.value
  }

  // The earliest position on this rank that the walk has not given back.
  function Floor(l: Local): nat {
    if l.recorded == [] then l.cur else l.recorded[|l.recorded| - 1].start
  }

  predicate SectionsOk(g: RankGraph, recorded: seq<Section>) {
    && GoingBack(recorded)
    && forall i :: 0 <= i < |recorded| ==>
         recorded[i].end < |g.nodes| && g.nodes[recorded[i].end].kind.Leave?
  }

  // Every recorded section has been analysed once or still waits for it.
  ghost predicate Accounted(l: Local) {
    multiset(l.recorded) == multiset(l.processed) + multiset(l.sectionList)
  }

  // The marked nodes are exactly those in a recorded section or passed since.
  ghost predicate Marks(l: Local) {
    forall p: nat :: p in l.marked <==> Covered(l.recorded, p) || Open(l, p)
  }

  ghost predicate RemoteKept(g: RankGraph, l: Local) {
    forall p: nat :: BlockingLeave(g, p) && (p < l.cur || (Walking(l) && p == l.cur)) ==>
      RemoteOf(l.remote, p) == RemoteOf(g.remote, p)
  }

  predicate PlaceOk(g: RankGraph, l: Local) {
    && l.cur < |g.nodes|
    && if Walking(l) then
         && l.sectionEnd.Some? && l.cur <= l.sectionEnd.value < |g.nodes|
         && g.nodes[l.sectionEnd.value].kind.Leave?
         && (l.recorded != [] ==> l.sectionEnd.value <= Floor(l))
       else
         l.cur <= Floor(l) && (!l.isMaster ==> g.nodes[l.cur].kind.Leave?)
  }

  ghost predicate LocalOk(g: RankGraph, l: Local) {
    && PlaceOk(g, l) && SectionsOk(g, l.recorded) && Accounted(l) && RemoteKept(g, l)
    && Marks(l)
  }

  // The walk has left this rank for times before `t`.
  predicate Behind(g: RankGraph, l: Local, t: nat)
    requires l.cur < |g.nodes|
  {
    l.cur == Last(g) || t < g.nodes[l.cur].time
  }

  // Where the walk currently is: on a rank, in a message to a rank, or over.
  datatype Token = Held(r: nat) | Flying(r: nat, q: nat, id: nat) | Over

  ghost predicate RanksOk(net: Network, s: State) {
    && GoodNetwork(net) && |s.ranks| == |net|
    && forall r :: 0 <= r < |net| ==> LocalOk(net[r], s.ranks[r])
  }

  predicate Placed(net: Network, s: State) {
    |s.ranks| == |net| && forall r :: 0 <= r < |net| ==> s.ranks[r].cur < |net[r].nodes|
  }

  predicate Listening(net: Network, s: State, r: nat, t: nat)
    requires Placed(net, s) && r < |net|
  {
    !s.ranks[r].isMaster && !s.ranks[r].done && Behind(net[r], s.ranks[r], t)
  }

  // Rank `r` walked back to the start of the critical path.
  predicate Reached(net: Network, s: State, r: nat)
    requires Placed(net, s)
  {
    r < |net| && s.ranks[r].isMaster && s.ranks[r].done && PathStart(net[r].nodes[s.ranks[r].cur].kind)
  }

  ghost predicate TokenAt(net: Network, s: State, tok: Token)
    requires Placed(net, s)
  {
    match tok
    case Held(m) =>
      && m < |net| && Walking(s.ranks[m]) && s.msgs == multiset{}
      && forall r :: 0 <= r < |net| && r != m ==>
           Listening(net, s, r, net[m].nodes[s.ranks[m].cur].time)
    case Flying(m, q, id) =>
      && PointsTo(net, Remote(m, id), q) && s.msgs == multiset{Envelope(m, Continue(id))}
      && forall r :: 0 <= r < |net| ==> Listening(net, s, r, net[m].nodes[q].time)
    case Over =>
      && (exists r :: Reached(net, s, r))
      && (forall r :: 0 <= r < |net| ==> !Walking(s.ranks[r]))
      && forall e :: s.msgs[e] ==
           if e.msg.PathFound? && e.dst < |net| && !s.ranks[e.dst].done then 1 else 0
  }

  ghost predicate Inv(net: Network, s: State, tok: Token) {
    RanksOk(net, s) && Placed(net, s) && TokenAt(net, s, tok)
  }

  // ----- Local steps keep the local invariant -----

  lemma {:induction false} StepBackOk(g: RankGraph, l: Local)
    requires LocalOk(g, l) && Walking(l) && l.cur > 0
    ensures LocalOk(g, StepBack(l))
  {
    var b := StepBack(l);
    forall p: nat ensures p in b.marked <==> Covered(b.recorded, p) || Open(b, p) {
      assert Open(b, p) <==> Open(l, p) || p == l.cur;
    }
  }

  lemma {:induction false} RecordOk(g: RankGraph, recorded: seq<Section>, s: Section)
    requires SectionsOk(g, recorded) && s.start < s.end < |g.nodes| && g.nodes[s.end].kind.Leave?
    requires recorded != [] ==> s.end <= recorded[|recorded| - 1].start
    ensures SectionsOk(g, recorded + [s])
  {
  }

  lemma {:induction false} CoveredPush(recorded: seq<Section>, s: Section, p: nat)
    ensures Covered(recorded + [s], p) <==> Covered(recorded, p) || s.start <= p <= s.end
  {
    var pushed := recorded + [s];
    if Covered(recorded, p) {
      var i :| 0 <= i < |recorded| && recorded[i].start <= p <= recorded[i].end;
      assert pushed[i] == recorded[i];
    }
    assert pushed[|recorded|] == s;
  }

  lemma {:induction false} CloseSectionOk(g: RankGraph, l: Local)
    requires PlaceOk(g, l) && SectionsOk(g, l.recorded) && Walking(l) && Marks(l)
    ensures var c := CloseSection(l);
            && SectionsOk(g, c.recorded) && c.cur <= Floor(c)
            && forall p: nat :: p in c.marked <==> Covered(c.recorded, p)
  {
    if l.cur != l.sectionEnd.value {
      var s := Section(l.cur, l.sectionEnd.value);
      RecordOk(g, l.recorded, s);
      forall p: nat ensures p in CloseSection(l).marked <==> Covered(l.recorded + [s], p) {
        CoveredPush(l.recorded, s, p);
      }
    } else {
      forall p: nat ensures !Open(l, p) {}
    }
  }

  lemma {:induction false} CloseSectionAccounts(l: Local)
    requires Accounted(l)
    ensures Accounted(CloseSection(l))
  {
  }

  // Forgetting the remote node of a leave keeps those of all other leaves.
  lemma {:induction false} RemoteKeptBelow(g: RankGraph, l: Local)
    requires RemoteKept(g, l) && Layout(g.nodes) && l.cur < |g.nodes| && g.nodes[l.cur].kind.Leave?
    ensures forall p: nat :: BlockingLeave(g, p) && p < l.cur ==>
              RemoteOf(l.remote - {l.cur}, p) == RemoteOf(g.remote, p)
  {
    forall p: nat | BlockingLeave(g, p) && p < l.cur
      ensures RemoteOf(l.remote - {l.cur}, p) == RemoteOf(l.remote, p)
    {
      assert p % 2 == 0 && p - 1 != l.cur;
    }
  }

  lemma {:induction false} HandOverOk(g: RankGraph, l: Local)
    requires LocalOk(g, l) && Walking(l) && Layout(g.nodes) && g.nodes[l.cur].kind.Leave?
    ensures LocalOk(g, HandOver(CloseSection(l)))
  {
    CloseSectionOk(g, l);
    CloseSectionAccounts(l);
    RemoteKeptBelow(g, l);
  }

  lemma {:induction false} FinishOk(g: RankGraph, l: Local)
    requires LocalOk(g, l) && Walking(l) && Layout(g.nodes) && !g.nodes[l.cur].kind.Leave?
    ensures LocalOk(g, Finish(l))
  {
    CloseSectionOk(g, l);
    CloseSectionAccounts(l);
    assert Finish(l) == CloseSection(l).(done := true);
  }

  lemma {:induction false} PositionFound(net: Network, m: nat, q: nat, id: nat)
    requires PointsTo(net, Remote(m, id), q) && Layout(net[m].nodes) && Ordered(net[m].nodes)
    ensures var nodes := net[m].nodes; var p := PositionOf(nodes, id);
            p < |nodes| && LeaveOf(nodes, p) == q + 1
  {
    assert net[m].nodes[if net[m].nodes[q].id == id then q else q + 1].id == id;
  }

  lemma {:induction false} BehindAhead(g: RankGraph, l: Local, q: nat)
    requires Layout(g.nodes) && Ordered(g.nodes) && l.cur < |g.nodes| && q + 1 < |g.nodes| && q % 2 == 1
    requires g.nodes[l.cur].kind.Leave? && Behind(g, l, g.nodes[q].time)
    ensures q + 1 <= l.cur
  {
  }

  lemma {:induction false} TakeOverOk(g: RankGraph, l: Local, id: nat)
    requires LocalOk(g, l) && !l.isMaster && !l.done && PositionOf(g.nodes, id) < |g.nodes|
    requires 0 < LeaveOf(g.nodes, PositionOf(g.nodes, id)) <= l.cur
    requires g.nodes[LeaveOf(g.nodes, PositionOf(g.nodes, id))].kind.Leave?
    ensures LocalOk(g, TakeOver(g, l, id))
  {
    var t := TakeOver(g, l, id);
    forall p: nat ensures p in t.marked <==> Covered(t.recorded, p) || Open(t, p) {
      assert !Open(l, p);
    }
  }

  lemma {:induction false} AnalyseOk(g: RankGraph, l: Local)
    requires LocalOk(g, l) && !l.isMaster && l.sectionList != []
    ensures LocalOk(g, AnalyseSection(l))
  {
    var k := |l.sectionList| - 1;
    assert l.sectionList == l.sectionList[..k] + [l.sectionList[k]];
  }

  // ----- Every step of every schedule keeps the invariant and makes progress -----

  ghost function TokenTime(net: Network, s: State, tok: Token): nat
    requires Placed(net, s) && TokenAt(net, s, tok)
  {
    match tok
    case Held(m) => net[m].nodes[s.ranks[m].cur].time
    case Flying(m, q, _) => net[m].nodes[q].time
    case Over => 0
  }

  ghost function TokenPosition(net: Network, s: State, tok: Token): nat
    requires Placed(net, s) && TokenAt(net, s, tok)
  {
    match tok
    case Held(m) => s.ranks[m].cur
    case Flying(m, q, _) => q + 1
    case Over => |set r | 0 <= r < |net| && !s.ranks[r].done|
  }

  function Waiting(ranks: seq<Local>): nat {
    if ranks == [] then 0 else |ranks[0].sectionList| + Waiting(ranks[1..])
  }

  lemma {:induction false} WaitingUpdate(ranks: seq<Local>, r: nat, l: Local)
    requires r < |ranks|
    ensures Waiting(ranks[r := l]) == Waiting(ranks) - |ranks[r].sectionList| + |l.sectionList|
  {
    if r > 0 {
      assert ranks[r := l][1..] == ranks[1..][r - 1 := l];
      WaitingUpdate(ranks[1..], r - 1, l);
    } else {
      assert ranks[r := l][1..] == ranks[1..];
    }
  }

  // The walk is over, or it got earlier, or it is at the same time but earlier on the
  // stream, or the walk did not move and fewer sections wait for analysis.
  ghost predicate Progress(net: Network, s: State, tok: Token, s': State, tok': Token)
    requires Placed(net, s) && TokenAt(net, s, tok) && Placed(net, s') && TokenAt(net, s', tok')
  {
    var (t, t') := (TokenTime(net, s, tok), TokenTime(net, s', tok'));
    var (p, p') := (TokenPosition(net, s, tok), TokenPosition(net, s', tok'));
    || (tok'.Over? && !tok.Over?)
    || (tok'.Over? == tok.Over?
        && (t' < t || (t' == t && (p' < p || (p' == p && Waiting(s'.ranks) < Waiting(s.ranks))))))
  }

  lemma {:induction false} RanksOkUpdate(net: Network, s: State, s': State, r: nat)
    requires RanksOk(net, s) && r < |net| && |s'.ranks| == |net|
    requires s'.ranks == s.ranks[r := s'.ranks[r]] && LocalOk(net[r], s'.ranks[r])
    ensures RanksOk(net, s') && Placed(net, s')
  {
  }

  lemma {:induction false} BlockedIsReleased(net: Network, m: nat, l: Local)
    requires GoodNetwork(net) && m < |net| && LocalOk(net[m], l) && Walking(l)
    ensures BlockingLeave(net[m], l.cur) ==> RemoteOf(l.remote, l.cur).Some?
  {
    if BlockingLeave(net[m], l.cur) {
      assert Released(net, net[m], net[m].remote, l.cur);
    }
  }

  lemma {:induction false} ReleaserOf(net: Network, m: nat, l: Local) returns (q: nat)
    requires GoodNetwork(net) && m < |net| && LocalOk(net[m], l) && Walking(l)
    requires MasterEffect(net[m], l).Send?
    ensures PointsTo(net, MasterEffect(net[m], l).remote, q)
    ensures net[MasterEffect(net[m], l).remote.rank].nodes[q].time < net[m].nodes[l.cur].time
  {
    var g := net[m];
    assert BlockingLeave(g, l.cur) && Released(net, g, g.remote, l.cur);
    var to := RemoteOf(l.remote, l.cur).value;
    q :| PointsTo(net, to, q) && net[to.rank].nodes[q].time < g.nodes[l.cur].time;
  }

  // A local master step that stays on the rank goes back by one node.
  lemma {:induction false} StayIsStepBack(net: Network, m: nat, l: Local)
    requires GoodNetwork(net) && m < |net| && LocalOk(net[m], l) && Walking(l)
    requires MasterEffect(net[m], l).Stay?
    ensures l.cur > 0 && MasterNext(net[m], l) == StepBack(l) && LocalOk(net[m], StepBack(l))
    ensures net[m].nodes[l.cur - 1].time <= net[m].nodes[l.cur].time
  {
    var g := net[m];
    BlockedIsReleased(net, m, l);
    StepBackOk(g, l);
  }

  // The rank keeps the walk, one node further back.
  lemma {:induction false} TokenStepsBack(net: Network, s: State, s': State, m: nat)
    requires Placed(net, s) && TokenAt(net, s, Held(m)) && Placed(net, s')
    requires s' == s.(ranks := s.ranks[m := s'.ranks[m]]) && Walking(s'.ranks[m])
    requires s'.ranks[m].cur == s.ranks[m].cur - 1
    requires net[m].nodes[s'.ranks[m].cur].time <= net[m].nodes[s.ranks[m].cur].time
    ensures TokenAt(net, s', Held(m)) && Progress(net, s, Held(m), s', Held(m))
  {
    forall r | 0 <= r < |net| && r != m
      ensures Listening(net, s', r, net[m].nodes[s'.ranks[m].cur].time)
    {
      assert Listening(net, s, r, net[m].nodes[s.ranks[m].cur].time);
    }
  }

  // The rank sends the walk to an earlier enter.
  lemma {:induction false} TokenLeaves(net: Network, s: State, s': State, m: nat, tok': Token)
    requires Placed(net, s) && TokenAt(net, s, Held(m)) && Placed(net, s')
    requires tok'.Flying? && PointsTo(net, Remote(tok'.r, tok'.id), tok'.q)
    requires s' == State(s.ranks[m := s'.ranks[m]], multiset{Envelope(tok'.r, Continue(tok'.id))})
    requires !s'.ranks[m].isMaster && !s'.ranks[m].done && s'.ranks[m].cur == s.ranks[m].cur
    requires net[tok'.r].nodes[tok'.q].time < net[m].nodes[s.ranks[m].cur].time
    ensures TokenAt(net, s', tok') && Progress(net, s, Held(m), s', tok')
  {
    forall r | 0 <= r < |net|
      ensures Listening(net, s', r, net[tok'.r].nodes[tok'.q].time)
    {
      assert r != m ==> Listening(net, s, r, net[m].nodes[s.ranks[m].cur].time);
    }
  }

  // The receiving rank holds the walk at the enter it was sent.
  lemma {:induction false} TokenArrives(net: Network, s: State, s': State, tok: Token)
    requires Placed(net, s) && tok.Flying? && TokenAt(net, s, tok) && Placed(net, s')
    requires s' == State(s.ranks[tok.r := s'.ranks[tok.r]], multiset{})
    requires Walking(s'.ranks[tok.r]) && s'.ranks[tok.r].cur == tok.q
    ensures TokenAt(net, s', Held(tok.r)) && Progress(net, s, tok, s', Held(tok.r))
  {
    forall r | 0 <= r < |net| && r != tok.r
      ensures Listening(net, s', r, net[tok.r].nodes[tok.q].time)
    {
      assert Listening(net, s, r, net[tok.r].nodes[tok.q].time);
    }
  }

  // A rank that is told to stop leaves its loop; one message less is in flight.
  lemma {:induction false} TokenStops(net: Network, s: State, s': State, r: nat)
    requires Placed(net, s) && TokenAt(net, s, Over) && Placed(net, s')
    requires r < |net| && !s.ranks[r].done && s'.ranks[r] == s.ranks[r].(done := true)
    requires s' == State(s.ranks[r := s'.ranks[r]], s.msgs - multiset{Envelope(r, PathFound)})
    ensures TokenAt(net, s', Over) && Progress(net, s, Over, s', Over)
  {
    var m :| Reached(net, s, m);
    assert Reached(net, s', m);
    OneLess(net, s, s', r);
  }

  lemma {:induction false} OneLess(net: Network, s: State, s': State, r: nat)
    requires Placed(net, s) && Placed(net, s') && r < |net| && !s.ranks[r].done && s'.ranks[r].done
    requires s'.ranks == s.ranks[r := s'.ranks[r]]
    ensures |set x | 0 <= x < |net| && !s'.ranks[x].done| < |set x | 0 <= x < |net| && !s.ranks[x].done|
  {
    var active := set x | 0 <= x < |net| && !s.ranks[x].done;
    assert (set x | 0 <= x < |net| && !s'.ranks[x].done) == active - {r} && r in active;
  }

  // Analysing a section does not concern the walk.
  lemma {:induction false} TokenUnmoved(net: Network, s: State, s': State, tok: Token, r: nat)
    requires Placed(net, s) && TokenAt(net, s, tok) && Placed(net, s') && r < |net|
    requires s' == s.(ranks := s.ranks[r := s'.ranks[r]]) && !s.ranks[r].isMaster
    requires s'.ranks[r].isMaster == s.ranks[r].isMaster && s'.ranks[r].done == s.ranks[r].done
    requires s'.ranks[r].cur == s.ranks[r].cur && |s'.ranks[r].sectionList| < |s.ranks[r].sectionList|
    ensures TokenAt(net, s', tok) && Progress(net, s, tok, s', tok)
  {
    WaitingUpdate(s.ranks, r, s'.ranks[r]);
    match tok
    case Held(m) =>
      forall x | 0 <= x < |net| && x != m
        ensures Listening(net, s', x, net[m].nodes[s'.ranks[m].cur].time)
      {
        assert Listening(net, s, x, net[m].nodes[s.ranks[m].cur].time);
      }
    case Flying(m, q, _) =>
      forall x | 0 <= x < |net| ensures Listening(net, s', x, net[m].nodes[q].time) {
        assert Listening(net, s, x, net[m].nodes[q].time);
      }
    case Over => OverUnmoved(net, s, s', r);
  }

  lemma {:induction false} OverUnmoved(net: Network, s: State, s': State, r: nat)
    requires Placed(net, s) && TokenAt(net, s, Over) && Placed(net, s') && r < |net|
    requires s' == s.(ranks := s.ranks[r := s'.ranks[r]]) && !s.ranks[r].isMaster
    requires s'.ranks[r].isMaster == s.ranks[r].isMaster && s'.ranks[r].done == s.ranks[r].done
    ensures TokenAt(net, s', Over) && TokenPosition(net, s', Over) == TokenPosition(net, s, Over)
  {
    var m :| Reached(net, s, m);
    assert Reached(net, s', m);
    assert (set x | 0 <= x < |net| && !s'.ranks[x].done) == (set x | 0 <= x < |net| && !s.ranks[x].done);
  }

  lemma {:induction false} MasterKeeps(net: Network, s: State, m: nat) returns (tok': Token)
    requires Inv(net, s, Held(m)) && Enabled(net, s, Master(m))
    ensures Inv(net, Apply(net, s, Master(m)), tok')
    ensures Progress(net, s, Held(m), Apply(net, s, Master(m)), tok')
  {
    var g := net[m]; var l := s.ranks[m];
    var s' := Apply(net, s, Master(m));
    match MasterEffect(g, l)
    case Stay =>
      StayIsStepBack(net, m, l);
      RanksOkUpdate(net, s, s', m);
      TokenStepsBack(net, s, s', m);
      tok' := Held(m);
    case Send(to) =>
      var q := ReleaserOf(net, m, l);
      HandOverOk(g, l);
      RanksOkUpdate(net, s, s', m);
      tok' := Flying(to.rank, q, to.nodeId);
      TokenLeaves(net, s, s', m, tok');
    case Broadcast =>
      FinishOk(g, l);
      RanksOkUpdate(net, s, s', m);
      tok' := Over;
      TokenEnds(net, s, s', m);
  }

  // The walk reached the start; every other rank has a stop message on its way.
  lemma {:induction false} TokenEnds(net: Network, s: State, s': State, m: nat)
    requires Placed(net, s) && TokenAt(net, s, Held(m)) && Placed(net, s')
    requires s' == State(s.ranks[m := s'.ranks[m]], StopMessages(|net|, m)) && Reached(net, s', m)
    ensures TokenAt(net, s', Over) && Progress(net, s, Held(m), s', Over)
  {
    forall r | 0 <= r < |net| && r != m ensures !s'.ranks[r].done && !Walking(s'.ranks[r]) {
      assert Listening(net, s, r, net[m].nodes[s.ranks[m].cur].time);
    }
  }

  // A continuation can only be the one in flight.
  lemma {:induction false} ContinueIsToken(net: Network, s: State, tok: Token, r: nat, id: nat)
    requires Placed(net, s) && TokenAt(net, s, tok) && s.msgs[Envelope(r, Continue(id))] > 0
    ensures tok.Flying? && tok.r == r && tok.id == id && s.msgs - multiset{Envelope(r, Continue(id))} == multiset{}
  {
  }

  lemma {:induction false} ContinueKeeps(net: Network, s: State, tok: Token, r: nat, id: nat)
    requires Inv(net, s, tok) && Enabled(net, s, Receive(r, Continue(id)))
    ensures Inv(net, Apply(net, s, Receive(r, Continue(id))), Held(r))
    ensures Progress(net, s, tok, Apply(net, s, Receive(r, Continue(id))), Held(r))
  {
    var s' := Apply(net, s, Receive(r, Continue(id)));
    ContinueIsToken(net, s, tok, r, id);
    ContinueLocal(net, s, tok);
    RanksOkUpdate(net, s, s', r);
    TokenArrives(net, s, s', tok);
  }

  lemma {:induction false} ContinueLocal(net: Network, s: State, tok: Token)
    requires RanksOk(net, s) && Placed(net, s) && tok.Flying? && TokenAt(net, s, tok) && tok.r < |net|
    ensures PositionOf(net[tok.r].nodes, tok.id) < |net[tok.r].nodes|
    ensures var t := TakeOver(net[tok.r], s.ranks[tok.r], tok.id);
            LocalOk(net[tok.r], t) && Walking(t) && t.cur == tok.q
  {
    PositionFound(net, tok.r, tok.q, tok.id);
    assert Listening(net, s, tok.r, net[tok.r].nodes[tok.q].time);
    BehindAhead(net[tok.r], s.ranks[tok.r], tok.q);
    TakeOverOk(net[tok.r], s.ranks[tok.r], tok.id);
  }

  lemma {:induction false} StopKeeps(net: Network, s: State, tok: Token, r: nat)
    requires Inv(net, s, tok) && Enabled(net, s, Receive(r, PathFound))
    ensures Inv(net, Apply(net, s, Receive(r, PathFound)), Over)
    ensures Progress(net, s, tok, Apply(net, s, Receive(r, PathFound)), Over)
  {
    var s' := Apply(net, s, Receive(r, PathFound));
    assert s.msgs[Envelope(r, PathFound)] > 0;
    assert tok.Over?;
    StopOk(net[r], s.ranks[r]);
    RanksOkUpdate(net, s, s', r);
    TokenStops(net, s, s', r);
  }

  lemma {:induction false} StopOk(g: RankGraph, l: Local)
    requires LocalOk(g, l) && !l.isMaster
    ensures LocalOk(g, l.(done := true))
  {
    forall p: nat ensures Open(l.(done := true), p) <==> Open(l, p) {}
  }

  // Only the holder of the token walks.
  lemma {:induction false} HolderWalks(net: Network, s: State, tok: Token)
    requires Placed(net, s) && TokenAt(net, s, tok)
    ensures forall r :: 0 <= r < |net| && Walking(s.ranks[r]) ==> tok == Held(r)
  {
    forall r | 0 <= r < |net| ensures Walking(s.ranks[r]) ==> tok == Held(r) {
      match tok
      case Held(m) => if r != m { assert Listening(net, s, r, net[m].nodes[s.ranks[m].cur].time); }
      case Flying(m, q, _) => assert Listening(net, s, r, net[m].nodes[q].time);
      case Over =>
    }
  }

  lemma {:induction false} StepKeeps(net: Network, s: State, tok: Token, a: Action) returns (tok': Token)
    requires Inv(net, s, tok) && Enabled(net, s, a)
    ensures Inv(net, Apply(net, s, a), tok') && Progress(net, s, tok, Apply(net, s, a), tok')
  {
    match a
    case Master(m) =>
      HolderWalks(net, s, tok);
      tok' := MasterKeeps(net, s, m);
    case Receive(r, Continue(id)) =>
      ContinueKeeps(net, s, tok, r, id);
      tok' := Held(r);
    case Receive(r, PathFound) =>
      StopKeeps(net, s, tok, r);
      tok' := Over;
    case Analyse(r) =>
      AnalyseOk(net[r], s.ranks[r]);
      RanksOkUpdate(net, s, Apply(net, s, a), r);
      TokenUnmoved(net, s, Apply(net, s, a), tok, r);
      tok' := tok;
  }
}
