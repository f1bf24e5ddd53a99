/**
 The critical sections that the reverse replay records: sound on networks where every blocking
 leave leads to an earlier enter, and on any network exactly if two kinds of step do not occur.
 */
module ReplaySections {
  import opened Common
  import opened ReverseReplay
  import opened ReplayRuns

  lemma {:induction false} RunKeeps(net: Network, s: State, tok: Token, actions: seq<Action>) returns (tok': Token)
    requires Inv(net, s, tok) && Schedule(net, s, actions)
    ensures Inv(net, Run(net, s, actions), tok')
    decreases |actions|
  {
    if actions == [] {
      tok' := tok;
    } else {
      var next := StepKeeps(net, s, tok, actions[0]);
      tok' := RunKeeps(net, Apply(net, s, actions[0]), next, actions[1..]);
    }
  }

  lemma {:induction false} InitialKeeps(net: Network, s: State) returns (tok: Token)
    requires GoodNetwork(net) && SingleLastEnter(net) && Initial(net, s)
    ensures Inv(net, s, tok)
  {
    var m :| 0 <= m < |net| && |net[m].nodes| > 0 && Last(net[m]) !in net[m].blocking
      && forall r :: 0 <= r < |net| && r != m ==> |net[r].nodes| > 0 && Last(net[r]) in net[r].blocking;
    tok := Held(m);
    forall r | 0 <= r < |net| ensures LocalOk(net[r], s.ranks[r]) {
      assert s.ranks[r] == InitialLocal(net[r]);
      assert forall p: nat :: !Open(s.ranks[r], p);
    }
  }

  // Times of the sections of one rank: non-empty intervals of one stream that go back in time
  // and share at most an endpoint.
  predicate SoundSections(g: RankGraph, sections: seq<Section>) {
    && (forall i :: 0 <= i < |sections| ==>
          sections[i].start < sections[i].end < |g.nodes|
          && g.nodes[sections[i].start].time < g.nodes[sections[i].end].time)
    && (forall i, j :: 0 <= i < j < |sections| ==>
          sections[j].start < sections[j].end <= sections[i].start
          && g.nodes[sections[j].start].time < g.nodes[sections[i].start].time
          && g.nodes[sections[j].end].time <= g.nodes[sections[i].start].time)
  }

  lemma {:induction false} SectionTime(g: RankGraph, s: Section)
    requires Layout(g.nodes) && Ordered(g.nodes)
    requires s.start < s.end < |g.nodes| && g.nodes[s.end].kind.Leave?
    ensures g.nodes[s.start].time < g.nodes[s.end].time
  {
    assert s.end % 2 == 0 && s.start <= s.end - 1;
    assert s.start < s.end - 1 ==> g.nodes[s.start].time <= g.nodes[s.end - 1].time;
  }

  lemma {:induction false} SectionTimes(g: RankGraph, sections: seq<Section>)
    requires Layout(g.nodes) && Ordered(g.nodes) && SectionsOk(g, sections)
    ensures SoundSections(g, sections)
  {
    forall i | 0 <= i < |sections|
      ensures g.nodes[sections[i].start].time < g.nodes[sections[i].end].time
    {
      SectionTime(g, sections[i]);
    }
    forall i, j | 0 <= i < j < |sections|
      ensures sections[j].start < sections[j].end <= sections[i].start
      ensures g.nodes[sections[j].start].time < g.nodes[sections[i].start].time
      ensures g.nodes[sections[j].end].time <= g.nodes[sections[i].start].time
    {
      SectionTime(g, sections[j]);
    }
  }

  /** In every reachable state and on every rank: the recorded sections are sound, each has been
      analysed once or is still listed, and a node is marked critical exactly if it lies in a
      recorded section or the walk has passed it since the rank took over. */
  lemma {:induction false} SectionsSound(net: Network, s: State, actions: seq<Action>, r: nat)
    requires GoodNetwork(net) && SingleLastEnter(net) && Initial(net, s) && Schedule(net, s, actions)
    requires r < |net|
    ensures var t := Run(net, s, actions);
            && |t.ranks| == |net| && SoundSections(net[r], t.ranks[r].recorded)
            && Accounted(t.ranks[r]) && Marks(t.ranks[r])
  {
    var tok := InitialKeeps(net, s);
    var tok' := RunKeeps(net, s, tok, actions);
    SectionTimes(net[r], Run(net, s, actions).ranks[r].recorded);
  }

  // ----- The branch for a blocking leave without a remote node -----

  /** If neither node of a blocking region has a remote node, the rank walks on with its old
      section end. Sections stay disjoint from there exactly if the walk had just taken over at
      this very leave. */
  lemma {:induction false} MissingRemote(g: RankGraph, l: Local, p: nat)
    requires LocalOk(g, l) && Walking(l) && BlockingLeave(g, l.cur) && l.cur > 0
    requires RemoteOf(l.remote, l.cur).None? && p < l.cur
    ensures var l' := MasterNext(g, l);
            && Walking(l') && l'.sectionEnd.Some?
            && (GoingBack(l'.recorded + [Section(p, l'.sectionEnd.value)]) <==> l.cur == l.sectionEnd.value)
  {
    var end := l.sectionEnd.value;
    if l.cur == end {
      BackOneMore(l.recorded, Section(p, end));
    } else {
      BackOneMore(l.recorded, Section(l.cur, end));
      BackOneMore(l.recorded + [Section(l.cur, end)], Section(p, end));
    }
  }

  lemma {:induction false} BackOneMore(sections: seq<Section>, next: Section)
    requires GoingBack(sections) && next.start < next.end
    ensures GoingBack(sections + [next]) <==> (sections == [] || next.end <= sections[|sections| - 1].start)
  {
    var all := sections + [next];
    var n := |sections|;
    assert forall i :: 0 <= i < n ==> all[i] == sections[i];
    assert n > 0 && GoingBack(all) ==> all[n].end <= all[n - 1].start;
  }

  // The master branch until the walk leaves the rank or ends.
  function Walk(g: RankGraph, l: Local): (Local, Effect)
    requires Layout(g.nodes) && l.cur < |g.nodes|
    decreases l.cur
  {
    var l' := MasterNext(g, l); var e := MasterEffect(g, l);
    if e.Stay? then Walk(g, l') else (l', e)
  }

  lemma {:induction false} WalkOn(g: RankGraph, l: Local)
    requires Layout(g.nodes) && l.cur < |g.nodes| && MasterEffect(g, l).Stay?
    ensures Walk(g, l) == Walk(g, MasterNext(g, l))
  {
  }

  // The walk of a rank whose leave at position 2 blocks without a remote node.
  lemma {:induction false} WalkPastBlocked(g: RankGraph, l: Local)
    requires Layout(g.nodes) && |g.nodes| == 5 && g.blocking == {2} && l.remote == map[]
    requires l.cur == 2 && l.sectionEnd == Some(4) && l.recorded == [] && g.nodes[1].kind == Enter(false)
    ensures Walk(g, l).0.recorded == [Section(2, 4), Section(0, 4)]
  {
    WalkOn(g, l);
    var l1 := MasterNext(g, l);
    assert l1.cur == 1 && l1.sectionEnd == Some(4) && l1.recorded == [Section(2, 4)];
    WalkOn(g, l1);
    var l0 := MasterNext(g, l1);
    assert l0.cur == 0 && l0.sectionEnd == Some(4) && l0.recorded == [Section(2, 4)];
  }

  /** The overlap happens: two regions, the first one blocking but without remote node. */
  lemma {:induction false} OverlapWithoutRemote(g: RankGraph)
    requires g == RankGraph([MpiNode(1, 0, Start), MpiNode(2, 1, Enter(false)), MpiNode(3, 2, Leave),
                             MpiNode(4, 3, Enter(false)), MpiNode(5, 4, Leave)], {2}, map[])
    ensures Layout(g.nodes) && Ordered(g.nodes)
    ensures Walk(g, InitialLocal(g)).0.recorded == [Section(2, 4), Section(0, 4)]
  {
    var l := InitialLocal(g);
    WalkOn(g, l);
    var l3 := MasterNext(g, l);
    WalkOn(g, l3);
    WalkPastBlocked(g, MasterNext(g, l3));
  }

  // ----- Any network -----

  function LastStart(l: Local): nat
    requires l.recorded != []
  {
    l.recorded[|l.recorded| - 1].start
  }

  // The sections go back, and so will the one that is open.
  ghost predicate BackSoFar(l: Local) {
    && GoingBack(l.recorded)
    && (Walking(l) && l.sectionEnd.Some? && l.recorded != [] ==> l.sectionEnd.value <= LastStart(l))
  }

  // An open section is not empty, except on the first master before its first step.
  ghost predicate Shaped(l: Local) {
    Walking(l) ==>
      && l.sectionEnd.Some? && l.cur <= l.sectionEnd.value
      && (l.recorded != [] ==> l.cur < l.sectionEnd.value)
  }

  // The rank takes over no later than where it gave the walk away last, and does not record a
  // section at a blocking leave that it walks past.
  predicate StepsBack(net: Network, s: State, a: Action)
    requires Enabled(net, s, a)
  {
    var (g, l) := (net[a.r], s.ranks[a.r]);
    match a
    case Master(_) =>
      !(BlockingLeave(g, l.cur) && RemoteOf(l.remote, l.cur).None? && l.sectionEnd.Some? && l.cur != l.sectionEnd.value)
    case Receive(_, msg) =>
      msg.Continue? ==> l.recorded == [] || LeaveOf(g.nodes, PositionOf(g.nodes, msg.nodeId)) <= LastStart(l)
    case Analyse(_) => true
  }

  lemma {:induction false} PushGoesBack(l: Local)
    requires Shaped(l) && Walking(l)
    ensures GoingBack(PushSection(l).recorded) <==> BackSoFar(l)
  {
    if l.cur != l.sectionEnd.value {
      var s := Section(l.cur, l.sectionEnd.value);
      if GoingBack(l.recorded) { BackOneMore(l.recorded, s); } else { NotBackAgain(l.recorded, s); }
    }
  }

  lemma {:induction false} NotBackAgain(sections: seq<Section>, next: Section)
    requires !GoingBack(sections)
    ensures !GoingBack(sections + [next])
  {
    var all := sections + [next];
    assert forall i :: 0 <= i < |sections| ==> all[i] == sections[i];
  }

  // A section that was recorded at a leave where the walk goes on is in the way of the next.
  lemma {:induction false} PushAndGoOn(l: Local, l': Local)
    requires Shaped(l) && Walking(l) && l.cur != l.sectionEnd.value
    requires Walking(l') && l'.sectionEnd == l.sectionEnd && l'.recorded == PushSection(l).recorded
    ensures !BackSoFar(l')
  {
    assert LastStart(l') == l.cur;
  }

  lemma {:induction false} MasterBack(net: Network, s: State, m: nat)
    requires Enabled(net, s, Master(m)) && Shaped(s.ranks[m])
    ensures Shaped(Apply(net, s, Master(m)).ranks[m])
    ensures BackSoFar(Apply(net, s, Master(m)).ranks[m]) <==> BackSoFar(s.ranks[m]) && StepsBack(net, s, Master(m))
  {
    var (g, l) := (net[m], s.ranks[m]);
    PushGoesBack(l);
    var l' := MasterNext(g, l);
    if !StepsBack(net, s, Master(m)) { PushAndGoOn(l, l'); }
  }

  lemma {:induction false} OtherBack(net: Network, s: State, a: Action)
    requires Enabled(net, s, a) && !a.Master? && Shaped(s.ranks[a.r])
    ensures Shaped(Apply(net, s, a).ranks[a.r])
    ensures BackSoFar(Apply(net, s, a).ranks[a.r]) <==> BackSoFar(s.ranks[a.r]) && StepsBack(net, s, a)
  {
  }

  predicate AllStepBack(net: Network, s: State, actions: seq<Action>, r: nat)
    requires Schedule(net, s, actions)
    decreases |actions|
  {
    actions == []
    || ((actions[0].r == r ==> StepsBack(net, s, actions[0]))
         && AllStepBack(net, Apply(net, s, actions[0]), actions[1..], r))
  }

  lemma {:induction false} RunBack(net: Network, s: State, actions: seq<Action>, r: nat)
    requires Schedule(net, s, actions) && r < |net| == |s.ranks| && Shaped(s.ranks[r])
    ensures |Run(net, s, actions).ranks| == |net|
    ensures BackSoFar(Run(net, s, actions).ranks[r]) <==> BackSoFar(s.ranks[r]) && AllStepBack(net, s, actions, r)
    decreases |actions|
  {
    if actions != [] {
      var a := actions[0];
      if a.r == r {
        if a.Master? { MasterBack(net, s, r); } else { OtherBack(net, s, a); }
      }
      RunBack(net, Apply(net, s, a), actions[1..], r);
    }
  }

  /** On any network and under any schedule: the sections of a rank that does not walk go back and
      overlap in at most an endpoint exactly if the rank never took over behind the place where it
      gave the walk away last, and never recorded a section at a blocking leave it walked past. */
  lemma {:induction false} SectionsGoBackExactly(net: Network, s: State, actions: seq<Action>, r: nat)
    requires Initial(net, s) && Schedule(net, s, actions) && r < |net|
    ensures var t := Run(net, s, actions);
            |t.ranks| == |net| && (!Walking(t.ranks[r]) ==>
                (GoingBack(t.ranks[r].recorded) <==> AllStepBack(net, s, actions, r)))
  {
    assert s.ranks[r] == InitialLocal(net[r]);
    RunBack(net, s, actions, r);
  }

  // ----- A member that leaves a reduction early -----

  // Rank 0 reduces from 1 to 3, sends from 4 to 6 and is the last to enter the final collective at
  // 9. Rank 1 receives from 2 to 5, reduces from 6 to 7 and enters the final collective at 8.
  predicate EarlyReduction(g0: RankGraph, g1: RankGraph) {
    && g0 == RankGraph([MpiNode(1, 0, Start), MpiNode(2, 1, Enter(false)), MpiNode(3, 3, Leave),
                        MpiNode(4, 4, Enter(false)), MpiNode(5, 6, Leave),
                        MpiNode(6, 9, Enter(false)), MpiNode(7, 10, Leave)],
                       {2}, map[2 := Remote(1, 4)])
    && g1 == RankGraph([MpiNode(1, 0, Start), MpiNode(2, 2, Enter(false)), MpiNode(3, 5, Leave),
                        MpiNode(4, 6, Enter(false)), MpiNode(5, 7, Leave),
                        MpiNode(6, 8, Enter(false)), MpiNode(7, 10, Leave)],
                       {2, 6}, map[2 := Remote(0, 4), 6 := Remote(0, 6)])
  }

  // Node 4 is the enter of the second region on both ranks.
  lemma {:induction false} SecondRegion(g: RankGraph)
    requires |g.nodes| == 7 && forall i :: 0 <= i < 7 ==> g.nodes[i].id == i + 1
    ensures PositionOf(g.nodes, 4) == 3
  {
    assert g.nodes[3].id == 4;
  }

  // Both ranks walk from the second region to the blocking leave of the first one.
  lemma {:induction false} WalkToFirst(g: RankGraph, l: Local)
    requires Layout(g.nodes) && |g.nodes| == 7 && 2 in g.blocking && l.cur == 3 && l.sectionEnd == Some(4)
    requires g.nodes[3].kind == Enter(false) && 2 in l.remote
    ensures var (after, e) := Walk(g, l);
            && after.recorded == l.recorded + [Section(2, 4)] && e == Send(l.remote[2])
                 && after.remote == l.remote - {2}
            && !after.isMaster && after.done == l.done
  {
    WalkOn(g, l);
  }

  lemma {:induction false} WalkToStart(g: RankGraph, l: Local)
    requires Layout(g.nodes) && |g.nodes| == 7 && 2 in g.blocking && l.cur == 3 && l.sectionEnd == Some(4)
    requires g.nodes[3].kind == g.nodes[1].kind == Enter(false) && l.remote == map[]
    ensures Walk(g, l).0.recorded == l.recorded + [Section(2, 4)] + [Section(0, 4)] && Walk(g, l).1.Broadcast?
  {
    WalkOn(g, l);
    var l2 := MasterNext(g, l);
    assert l2.cur == 2 && l2.sectionEnd == Some(4) && l2.recorded == l.recorded && l2.remote == map[];
    WalkOn(g, l2);
    var l1 := MasterNext(g, l2);
    assert l1.cur == 1 && l1.sectionEnd == Some(4) && l1.recorded == l.recorded + [Section(2, 4)];
    WalkOn(g, l1);
  }

  lemma {:induction false} WalkFromEnd(g: RankGraph, l: Local)
    requires Layout(g.nodes) && |g.nodes| == 7 && g.blocking == {2} && l.cur == 6 && l.sectionEnd == Some(6)
    requires l.recorded == []
    requires g.nodes[3].kind == g.nodes[5].kind == Enter(false) && l.remote == map[2 := Remote(1, 4)]
    ensures var (after, e) := Walk(g, l);
            && after.recorded == [Section(2, 6)] && e == Send(Remote(1, 4)) && after.remote == map[]
  {
    WalkOn(g, l);
    var l5 := MasterNext(g, l);
    WalkOn(g, l5);
    var l4 := MasterNext(g, l5);
    assert l4.cur == 4 && l4.sectionEnd == Some(6) && l4.recorded == [] && l4.remote == l.remote;
    WalkOn(g, l4);
    var l3 := MasterNext(g, l4);
    WalkOn(g, l3);
    assert MasterNext(g, l3).cur == 2;
  }

  lemma {:induction false} EarlyRanks(g0: RankGraph, g1: RankGraph)
    requires EarlyReduction(g0, g1)
    ensures Layout(g0.nodes) && Layout(g1.nodes) && PositionOf(g0.nodes, 4) == PositionOf(g1.nodes, 4) == 3
  {
    SecondRegion(g0);
    SecondRegion(g1);
  }

  lemma {:induction false} FirstWalk(g0: RankGraph, g1: RankGraph)
    requires EarlyReduction(g0, g1) && Layout(g0.nodes)
    ensures var (a, e) := Walk(g0, InitialLocal(g0));
            a.recorded == [Section(2, 6)] && e == Send(Remote(1, 4)) && a.remote == map[]
  {
    WalkFromEnd(g0, InitialLocal(g0));
  }

  lemma {:induction false} SecondWalk(g0: RankGraph, g1: RankGraph)
    requires EarlyReduction(g0, g1) && Layout(g1.nodes) && PositionOf(g1.nodes, 4) == 3
    ensures Walk(g1, TakeOver(g1, InitialLocal(g1), 4)).1 == Send(Remote(0, 4))
  {
    WalkToFirst(g1, TakeOver(g1, InitialLocal(g1), 4));
  }

  /** The reduction's leave points to the later reduction of rank 1, from where the walk returns to
      rank 0 behind it. The sections of rank 0 overlap. */
  lemma {:induction false} EarlyLeaverOverlaps(g0: RankGraph, g1: RankGraph)
    requires EarlyReduction(g0, g1)
    ensures Known(g0, 4) && Known(g1, 4) && Layout(g0.nodes) && Layout(g1.nodes)
    ensures var (a, e) := Walk(g0, InitialLocal(g0));
            var (b, f) := Walk(g1, TakeOver(g1, InitialLocal(g1), 4));
            && e == Send(Remote(1, 4)) && f == Send(Remote(0, 4))
            && Walk(g0, TakeOver(g0, a, 4)).0.recorded == [Section(2, 6)] + [Section(2, 4)] + [Section(0, 4)]
  {
    EarlyRanks(g0, g1);
    FirstWalk(g0, g1);
    SecondWalk(g0, g1);
    WalkToStart(g0, TakeOver(g0, Walk(g0, InitialLocal(g0)).0, 4));
  }
}
