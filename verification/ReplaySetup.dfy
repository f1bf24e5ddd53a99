/** The forward analysis of a final global collective gives the reverse replay its single master. */
module ReplaySetup {
  import ReverseReplay
  import opened StreamBlame
  import opened WaitRules
  import opened WaitConservation
  import opened WaitOutcomes

  // What a rank has before it analyses its last collective: an edge over the region that does not
  // block.
  ghost predicate Unmarked(p: Process, r: Region) {
    && ProcessOk(p) && OnStream(p, r.enter)
    && exists k: nat :: IsEdgeOf(p.edges, r, k) && !p.edges[k].blocking
  }

  // What the replay looks at: the first edge from the enter to the leave is there and blocks.
  ghost predicate LastEdgeBlocks(edges: seq<Edge>, r: Region) {
    exists k: nat :: IsEdgeOf(edges, r, k) && edges[k].blocking
  }

  // Every rank ends with a region of one collective, to which it has applied the collective rule;
  // the last leave counts as blocking if the edge over that region does.
  ghost predicate EndsWithCollective(net: ReverseReplay.Network, before: seq<Process>, members: seq<Member>) {
    && |members| == |net| == |before|
    && forall r :: 0 <= r < |net| ==>
         && |net[r].nodes| > 0 && Unmarked(before[r], members[r].region)
         && var o := CollectiveRule(before[r], members[r].region, Gather(members));
            o.Done? && (ReverseReplay.Last(net[r]) in net[r].blocking <==>
                        LastEdgeBlocks(o.process.edges, members[r].region))
  }

  /** The rule makes the edge blocking exactly for the members that were not elected. */
  lemma {:induction false} BlocksUnlessElected(p: Process, r: Region, buffer: seq<Entry>)
    requires Unmarked(p, r) && EntryOf(r) in buffer && CollectiveRule(p, r, buffer).Done?
    ensures LastEdgeBlocks(CollectiveRule(p, r, buffer).process.edges, r) <==> !IsElected(buffer, r)
  {
    var k: nat :| IsEdgeOf(p.edges, r, k) && !p.edges[k].blocking;
    CollectiveFlag(p, r, buffer, k);
  }

  // The last leave of a rank is blocking if its member was not elected.
  ghost predicate BlockedByElection(net: ReverseReplay.Network, members: seq<Member>) {
    && |members| == |net|
    && forall r :: 0 <= r < |net| ==>
         && |net[r].nodes| > 0
         && (ReverseReplay.Last(net[r]) in net[r].blocking <==> !Elects(Gather(members), members[r]))
  }

  lemma {:induction false} OneIsElected(net: ReverseReplay.Network, members: seq<Member>)
    requires BlockedByElection(net, members) && DistinctStreams(members)
    requires exists r :: 0 <= r < |members| && members[r].region.enter.time > 0
    ensures ReverseReplay.SingleLastEnter(net)
  {
    SingleMaster(members);
    ElectedOnce(members, Gather(members));
    var m :| 0 <= m < |members| && Elects(Gather(members), members[m]);
    forall r | 0 <= r < |net| && r != m ensures !Elects(Gather(members), members[r]) {
      assert members[r].region.leave.stream != members[m].region.leave.stream;
    }
  }

  /** The replay starts with exactly one master if the collective was not entered by all ranks at
      time zero. */
  lemma {:induction false} CollectiveStartsReplay(net: ReverseReplay.Network, before: seq<Process>,
                                                  members: seq<Member>)
    requires EndsWithCollective(net, before, members) && DistinctStreams(members)
    requires exists r :: 0 <= r < |members| && members[r].region.enter.time > 0
    ensures ReverseReplay.SingleLastEnter(net)
  {
    forall r | 0 <= r < |net|
      ensures ReverseReplay.Last(net[r]) in net[r].blocking <==> !Elects(Gather(members), members[r])
    {
      BlocksUnlessElected(before[r], members[r].region, Gather(members));
    }
    OneIsElected(net, members);
  }
}
