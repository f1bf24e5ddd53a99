/**
 What one walk over a rank does, said in terms of the kinds of its nodes: where it ends, whom it
 goes to, which nodes it marks and which sections it records. And where the whole path ends.
 */
module ReplayWalks {
  import opened Common
  import opened ReverseReplay
  import opened ReplayRuns
  import opened ReplaySections

  // The beginning of the critical path: the start node of the process, or the enter of MPI_Init.
  predicate BeginsPath(g: RankGraph, q: nat)
    requires q < |g.nodes|
  {
    match g.nodes[q].kind
    case Start => true
    case Enter(isInit) => isInit
    case Leave => false
  }

  // A leave that had to wait and knows for whom; the remote node is kept at the leave or the enter.
  predicate WaitedForRemote(g: RankGraph, remote: map<nat, Remote>, q: nat)
    requires q < |g.nodes|
  {
    g.nodes[q].kind == Leave && q in g.blocking && (q in remote || (q > 0 && q - 1 in remote))
  }

  // Position `q` is the first, going back from `from`, where a walk ends.
  predicate FirstEnd(g: RankGraph, remote: map<nat, Remote>, from: nat, q: nat) {
    && q <= from < |g.nodes| && EndsHere(g, remote, q)
    && forall x :: q < x <= from ==> !EndsHere(g, remote, x)
  }

  predicate EndsHere(g: RankGraph, remote: map<nat, Remote>, q: nat)
    requires q < |g.nodes|
  {
    BeginsPath(g, q) || WaitedForRemote(g, remote, q)
  }

  // The section that one iteration records, if any.
  function SectionHere(g: RankGraph, l: Local): seq<Section>
    requires l.cur < |g.nodes|
  {
    if l.sectionEnd.Some? && l.cur != l.sectionEnd.value
       && (EndsHere(g, l.remote, l.cur) || (g.nodes[l.cur].kind == Leave && l.cur in g.blocking))
    then [Section(l.cur, l.sectionEnd.value)] else []
  }

  // One iteration where the walk does not end.
  lemma {:induction false} WalkPasses(g: RankGraph, l: Local) returns (l': Local)
    requires Layout(g.nodes) && l.cur < |g.nodes| && !EndsHere(g, l.remote, l.cur)
    ensures l.cur > 0 && l' == l.(cur := l.cur - 1, marked := l.marked + {l.cur},
                                  recorded := l.recorded + SectionHere(g, l),
                                  sectionList := l.sectionList + SectionHere(g, l))
    ensures Walk(g, l) == Walk(g, l')
  {
    l' := MasterNext(g, l);
  }

  // The iteration where it ends.
  lemma {:induction false} WalkStops(g: RankGraph, l: Local)
    requires Layout(g.nodes) && l.cur < |g.nodes| && EndsHere(g, l.remote, l.cur)
    ensures var (a, e) := Walk(g, l);
            && a.cur == l.cur && a.processed == l.processed
            && a.recorded == l.recorded + SectionHere(g, l) && a.sectionList == l.sectionList + SectionHere(g, l)
            && a.marked == (if BeginsPath(g, l.cur) || (l.sectionEnd.Some? && l.cur != l.sectionEnd.value)
                            then l.marked + {l.cur} else l.marked)
            && if BeginsPath(g, l.cur) then
                 e == Broadcast && a.done && a.isMaster == l.isMaster && a.remote == l.remote
               else
                 && e == Send(if l.cur in l.remote then l.remote[l.cur] else l.remote[l.cur - 1])
                 && !a.isMaster && a.done == l.done && a.sectionEnd == None && a.remote == l.remote - {l.cur}
  {
  }

  /** The walk ends at the first beginning of the path, which it announces to all ranks, or at the
      first leave that waited for a remote node, to which it is sent; that node is forgotten. */
  lemma {:induction false} WalkEndsAt(g: RankGraph, l: Local)
    requires Layout(g.nodes) && l.cur < |g.nodes|
    ensures var (a, e) := Walk(g, l);
            && FirstEnd(g, l.remote, l.cur, a.cur)
            && if BeginsPath(g, a.cur) then
                 e == Broadcast && a.done && a.isMaster == l.isMaster && a.remote == l.remote
               else
                 && e == Send(if a.cur in l.remote then l.remote[a.cur] else l.remote[a.cur - 1])
                 && !a.isMaster && a.done == l.done && a.sectionEnd == None && a.remote == l.remote - {a.cur}
    decreases l.cur
  {
    if EndsHere(g, l.remote, l.cur) {
      WalkStops(g, l);
    } else {
      var l' := WalkPasses(g, l);
      WalkEndsAt(g, l');
    }
  }

  /** It marks every node it passed; the node where it ends too, unless it is a leave at which no
      section was recorded. */
  lemma {:induction false} WalkMarks(g: RankGraph, l: Local)
    requires Layout(g.nodes) && l.cur < |g.nodes|
    ensures var (a, e) := Walk(g, l);
            && a.cur <= l.cur && a.processed == l.processed
            && forall x: nat :: x in a.marked <==>
                 || x in l.marked || a.cur < x <= l.cur
                 || (x == a.cur && (e.Broadcast? || (l.sectionEnd.Some? && x != l.sectionEnd.value)))
    decreases l.cur
  {
    if EndsHere(g, l.remote, l.cur) {
      WalkStops(g, l);
    } else {
      var l' := WalkPasses(g, l);
      WalkMarks(g, l');
    }
  }

  // A section up to the open end begins at `x`: where the walk ends, or at a blocking leave that it
  // passed without knowing for whom that waited.
  predicate BeginsSection(g: RankGraph, q: nat, from: nat, end: nat, x: nat)
    requires q <= from < |g.nodes|
  {
    q <= x <= from && x != end && (x == q || (g.nodes[x].kind == Leave && x in g.blocking))
  }

  predicate IsBegin(sections: seq<Section>, x: nat) { exists i :: 0 <= i < |sections| && sections[i].start == x }

  // The sections recorded by one walk, latest begin first.
  ghost predicate SectionsOfWalk(g: RankGraph, q: nat, from: nat, end: nat, added: seq<Section>)
    requires q <= from < |g.nodes|
  {
    && (forall x: nat :: BeginsSection(g, q, from, end, x) <==> IsBegin(added, x))
    && (forall i :: 0 <= i < |added| ==> added[i].end == end)
    && (forall i, j :: 0 <= i < j < |added| ==> added[j].start < added[i].start)
  }

  /** It records a section up to the open end where it ends, and at every blocking leave it passed
      without knowing for whom that waited. */
  lemma {:induction false} WalkRecords(g: RankGraph, l: Local) returns (added: seq<Section>)
    requires Layout(g.nodes) && l.cur < |g.nodes|
    ensures Walk(g, l).0.cur <= l.cur
    ensures var a := Walk(g, l).0;
            && a.recorded == l.recorded + added && a.sectionList == l.sectionList + added
            && if l.sectionEnd.None? then added == []
               else SectionsOfWalk(g, a.cur, l.cur, l.sectionEnd.value, added)
    decreases l.cur
  {
    var here := SectionHere(g, l);
    if EndsHere(g, l.remote, l.cur) {
      WalkStops(g, l);
      added := here;
      if l.sectionEnd.Some? { LastSection(g, l.cur, l.sectionEnd.value, here); }
    } else {
      var l' := WalkPasses(g, l);
      var rest := WalkRecords(g, l');
      added := here + rest;
      assert l.recorded + here + rest == l.recorded + added && l.sectionList + here + rest == l.sectionList + added;
      if l.sectionEnd.Some? { OneSectionMore(g, Walk(g, l).0.cur, l.cur, l.sectionEnd.value, here, rest); }
    }
  }

  lemma {:induction false} LastSection(g: RankGraph, q: nat, end: nat, here: seq<Section>)
    requires q < |g.nodes| && here == if q != end then [Section(q, end)] else []
    ensures SectionsOfWalk(g, q, q, end, here)
  {
    if q != end { assert here[0].start == q; }
  }

  lemma {:induction false} BeginsMore(here: seq<Section>, rest: seq<Section>, x: nat)
    ensures IsBegin(here + rest, x) <==> IsBegin(here, x) || IsBegin(rest, x)
  {
    var all := here + rest;
    if i :| 0 <= i < |here| && here[i].start == x { assert all[i].start == x; }
    if i :| 0 <= i < |rest| && rest[i].start == x { assert all[|here| + i].start == x; }
  }

  lemma {:induction false} OneSectionMore(g: RankGraph, q: nat, from: nat, end: nat, here: seq<Section>,
                                          rest: seq<Section>)
    requires q < from < |g.nodes| && SectionsOfWalk(g, q, from - 1, end, rest)
    requires here == if from != end && g.nodes[from].kind == Leave && from in g.blocking then [Section(from, end)]
                     else []
    ensures SectionsOfWalk(g, q, from, end, here + rest)
  {
    if here == [] {
      assert here + rest == rest;
    } else {
      assert here[0].start == from;
      forall i | 0 <= i < |rest| ensures rest[i].start < from {
        assert IsBegin(rest, rest[i].start);
        assert BeginsSection(g, q, from - 1, end, rest[i].start);
      }
    }
    forall x: nat ensures BeginsSection(g, q, from, end, x) <==> IsBegin(here + rest, x) {
      BeginsMore(here, rest, x);
      assert BeginsSection(g, q, from - 1, end, x) <==> IsBegin(rest, x);
    }
  }

  // ----- Whole runs -----

  /** A rank takes over at the leave of the region that the node belongs to, and goes on at its
      enter. */
  lemma {:induction false} TakesOverRegion(g: RankGraph, l: Local, p: nat) returns (enter: nat)
    requires Layout(g.nodes) && 0 < p < |g.nodes| && forall x :: 0 <= x < p ==> g.nodes[x].id != g.nodes[p].id
    ensures Known(g, g.nodes[p].id) && enter <= p <= enter + 1 < |g.nodes|
    ensures g.nodes[enter].kind.Enter? && g.nodes[enter + 1].kind == Leave
    ensures TakeOver(g, l, g.nodes[p].id) ==
            l.(isMaster := true, cur := enter, sectionEnd := Some(enter + 1), marked := l.marked + {enter + 1})
  {
    assert PositionOf(g.nodes, g.nodes[p].id) == p;
    enter := if g.nodes[p].kind == Leave then p - 1 else p;
  }

  // A rank that took over has not passed the beginning of the path since; one that left its loop as
  // master stands there.
  ghost predicate Towards(g: RankGraph, l: Local) {
    l.isMaster ==>
      && l.sectionEnd.Some? && l.cur <= l.sectionEnd.value < |g.nodes|
      && (forall x :: l.cur < x <= l.sectionEnd.value ==> !BeginsPath(g, x))
      && (l.done ==> BeginsPath(g, l.cur))
  }

  lemma {:induction false} StepTowards(net: Network, s: State, a: Action)
    requires Layouts(net) && Enabled(net, s, a) && Towards(net[a.r], s.ranks[a.r])
    ensures Towards(net[a.r], Apply(net, s, a).ranks[a.r])
  {
    var (g, l) := (net[a.r], s.ranks[a.r]);
    match a
    case Master(_) =>
    case Receive(_, msg) =>
      if msg.Continue? {
        var leave := LeaveOf(g.nodes, PositionOf(g.nodes, msg.nodeId));
        assert g.nodes[leave].kind == Leave;
      }
    case Analyse(_) =>
  }

  lemma {:induction false} RunTowards(net: Network, s: State, actions: seq<Action>)
    requires Layouts(net) && Schedule(net, s, actions) && |s.ranks| == |net|
    requires forall r :: 0 <= r < |net| ==> Towards(net[r], s.ranks[r])
    ensures |Run(net, s, actions).ranks| == |net|
    ensures forall r :: 0 <= r < |net| ==> Towards(net[r], Run(net, s, actions).ranks[r])
    decreases |actions|
  {
    if actions != [] {
      StepTowards(net, s, actions[0]);
      RunTowards(net, Apply(net, s, actions[0]), actions[1..]);
    }
  }

  /** In every reachable state: the path is complete exactly if some master has left its loop, and
      that one stands at the first beginning of the path behind the place where it took over. */
  lemma {:induction false} PathBeginsThere(net: Network, s: State, actions: seq<Action>)
    requires Layouts(net) && SingleLastEnter(net) && Initial(net, s) && Schedule(net, s, actions)
    ensures var t := Run(net, s, actions);
            && |t.ranks| == |net|
            && (PathComplete(net, t) <==> exists r :: 0 <= r < |net| && t.ranks[r].isMaster && t.ranks[r].done)
            && forall r :: 0 <= r < |net| && t.ranks[r].isMaster && t.ranks[r].done ==>
                 && t.ranks[r].cur < |net[r].nodes| && BeginsPath(net[r], t.ranks[r].cur)
                 && Towards(net[r], t.ranks[r])
  {
    var w := InitialIs(net, s);
    var w' := RunMoves(net, s, w, actions);
    RunTowards(net, s, actions);
    var t := Run(net, s, actions);
    if r :| 0 <= r < |net| && t.ranks[r].isMaster && t.ranks[r].done { assert Reached(net, t, r); }
  }

  // ----- The order of the analysis -----

  lemma {:induction false} ListPushed(recorded: seq<Section>, list: seq<Section>, here: seq<Section>)
    requires |here| <= 1 && GoingBack(recorded + here) && GoingBack(list) && forall x :: x in list ==> x in recorded
    ensures GoingBack(list + here)
  {
    var all := recorded + here;
    if here != [] {
      forall i | 0 <= i < |list| ensures here[0].end <= list[i].start {
        assert list[i] in recorded;
        var k :| 0 <= k < |recorded| && recorded[k] == list[i];
        assert all[k] == list[i] && all[|recorded|] == here[0];
      }
    }
  }

  lemma {:induction false} IterationRecords(g: RankGraph, l: Local) returns (here: seq<Section>)
    requires l.cur < |g.nodes| && (l.cur == 0 ==> g.nodes[0].kind.Start?)
    ensures |here| <= 1 && MasterNext(g, l).recorded == l.recorded + here
    ensures MasterNext(g, l).sectionList == l.sectionList + here
  {
    here := if MasterNext(g, l).recorded == l.recorded then [] else [Section(l.cur, l.sectionEnd.value)];
  }

  lemma {:induction false} MasterKeepsList(g: RankGraph, l: Local)
    requires l.cur < |g.nodes| && (l.cur == 0 ==> g.nodes[0].kind.Start?)
    requires GoingBack(l.sectionList) && Accounted(l) && GoingBack(MasterNext(g, l).recorded)
    ensures GoingBack(MasterNext(g, l).sectionList)
  {
    var here := IterationRecords(g, l);
    ListsRecorded(l);
    ListPushed(l.recorded, l.sectionList, here);
  }

  lemma {:induction false} ListsRecorded(l: Local)
    requires Accounted(l)
    ensures forall x :: x in l.sectionList ==> x in l.recorded
  {
    forall x | x in l.sectionList ensures x in l.recorded { assert x in multiset(l.recorded); }
  }

  lemma {:induction false} StepKeepsList(net: Network, s: State, a: Action, r: nat)
    requires Enabled(net, s, a) && r < |net|
    requires GoingBack(s.ranks[r].sectionList) && Accounted(s.ranks[r])
    requires GoingBack(Apply(net, s, a).ranks[r].recorded)
    ensures GoingBack(Apply(net, s, a).ranks[r].sectionList)
  {
    if a == Master(r) { MasterKeepsList(net[r], s.ranks[r]); }
  }

  lemma {:induction false} ListGoesBack(net: Network, s: State, tok: Token, actions: seq<Action>, r: nat)
    requires Inv(net, s, tok) && Schedule(net, s, actions) && r < |net| && GoingBack(s.ranks[r].sectionList)
    ensures |Run(net, s, actions).ranks| == |net| && GoingBack(Run(net, s, actions).ranks[r].sectionList)
    decreases |actions|
  {
    if actions != [] {
      var tok' := StepKeeps(net, s, tok, actions[0]);
      StepKeepsList(net, s, actions[0], r);
      ListGoesBack(net, Apply(net, s, actions[0]), tok', actions[1..], r);
    }
  }

  /** If blocking leaves lead to earlier enters, a waiting rank always analyses the earliest of its
      sections. */
  lemma {:induction false} EarliestFirst(net: Network, s: State, actions: seq<Action>, r: nat)
    requires GoodNetwork(net) && SingleLastEnter(net) && Initial(net, s) && Schedule(net, s, actions)
    requires Enabled(net, Run(net, s, actions), Analyse(r))
    ensures var l := Run(net, s, actions).ranks[r]; var l' := Apply(net, Run(net, s, actions), Analyse(r)).ranks[r];
            exists x ::
              && l'.processed == l.processed + [x] && multiset(l.sectionList) == multiset(l'.sectionList) + multiset{x}
              && forall y :: y in l'.sectionList ==> x.end <= y.start
  {
    var tok := InitialKeeps(net, s);
    ListGoesBack(net, s, tok, actions, r);
    AnalysesLast(Run(net, s, actions).ranks[r]);
  }

  lemma {:induction false} AnalysesLast(l: Local)
    requires l.sectionList != [] && GoingBack(l.sectionList)
    ensures var l' := AnalyseSection(l);
            exists x ::
              && l'.processed == l.processed + [x] && multiset(l.sectionList) == multiset(l'.sectionList) + multiset{x}
              && forall y :: y in l'.sectionList ==> x.end <= y.start
  {
    var n := |l.sectionList| - 1; var l' := AnalyseSection(l);
    assert l.sectionList == l.sectionList[..n] + [l.sectionList[n]];
    assert l'.processed == l.processed + [l.sectionList[n]];
  }
}
