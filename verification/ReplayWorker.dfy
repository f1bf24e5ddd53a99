/**
 One rank of the reverse replay as the imperative loop it is: the local variables are fields,
 each branch of the loop is a method. ReverseReplay and ReplayRuns prove the protocol about the
 functions these methods are verified against.
 */
module ReplayWorker {
  import opened Common
  import opened ReverseReplay
  import opened ReplaySections
  import BinarySearch

  method FindMpiNode(nodes: seq<MpiNode>, nodeId: nat) returns (at: nat)
    requires Ordered(nodes) && exists p :: 0 < p < |nodes| && nodes[p].id == nodeId
    ensures at < |nodes| && at == PositionOf(nodes, nodeId)
  {
    var ids := seq(|nodes|, i requires 0 <= i < |nodes| => nodes[i].id);
    ghost var p :| 0 < p < |nodes| && nodes[p].id == nodeId;
    assert ids[p] == nodeId;
    var found := BinarySearch.FindId(nodeId, ids);
    at := found.value;
    ghost var f := PositionOf(nodes, nodeId);
    assert ids[f] == nodeId == ids[at];
  }

  class Worker {
    const graph: RankGraph
    var isMaster: bool
    var currentNode: nat
    var sectionEndNode: Option<nat>
    var sectionList: seq<Section>
    var processed: seq<Section>
    ghost var recorded: seq<Section>
    var remoteNodes: map<nat, Remote>
    var critical: set<nat>
    var leftLoop: bool

    ghost predicate Valid()
      reads this
    {
      Layout(graph.nodes) && Ordered(graph.nodes) && currentNode < |graph.nodes|
    }

    ghost function View(): Local
      reads this
    {
      Local(isMaster, currentNode, sectionEndNode, sectionList, processed, recorded, remoteNodes, critical, leftLoop)
    }

    constructor (g: RankGraph)
      requires Layout(g.nodes) && Ordered(g.nodes)
      ensures Valid() && graph == g && View() == InitialLocal(g)
    {
      graph := g;
      isMaster := |g.nodes| - 1 !in g.blocking;
      currentNode := |g.nodes| - 1;
      sectionEndNode := if |g.nodes| - 1 !in g.blocking then Some(|g.nodes| - 1) else None;
      sectionList, processed, recorded := [], [], [];
      remoteNodes := g.remote;
      critical := {};
      leftLoop := false;
    }

    /** The master branch, repeated until the walk leaves this rank or the path is complete. */
    method WalkBack() returns (effect: Effect)
      requires Valid() && isMaster && !leftLoop
      modifies this
      ensures Valid() && (View(), effect) == Walk(graph, old(View()))
      ensures !effect.Stay?
    {
      effect := Stay;
      while effect.Stay?
        invariant Valid()
        invariant if effect.Stay? then Walk(graph, View()) == Walk(graph, old(View()))
                  else (View(), effect) == Walk(graph, old(View()))
        decreases if effect.Stay? then 1 else 0, currentNode
      {
        effect := MasterIteration();
      }
    }

    method RecordSection()
      modifies this`sectionList, this`recorded
      ensures View() == PushSection(old(View()))
    {
      if sectionEndNode.Some? && currentNode != sectionEndNode.value {
        var section := Section(currentNode, sectionEndNode.value);
        sectionList := sectionList + [section];
        recorded := recorded + [section];
      }
    }

    /** One iteration of the master branch. */
    method MasterIteration() returns (effect: Effect)
      requires Valid()
      modifies this
      ensures Valid() && View() == MasterNext(graph, old(View())) && effect == MasterEffect(graph, old(View()))
      ensures effect.Stay? ==> currentNode == old(currentNode) - 1
    {
      var kind := graph.nodes[currentNode].kind;
      if kind.Leave? {
        if currentNode in graph.blocking {
          if sectionEndNode.Some? && currentNode != sectionEndNode.value {
            RecordSection();
            critical := critical + {currentNode};
          }
          // look for a remote node at the leave, then at the enter of the region
          var remote: Option<Remote> := None;
          if currentNode in remoteNodes {
            remote := Some(remoteNodes[currentNode]);
          } else if currentNode - 1 in remoteNodes {
            remote := Some(remoteNodes[currentNode - 1]);
          }
          if remote.Some? {
            effect := Send(remote.value);
            isMaster := false;
            sectionEndNode := None;
            remoteNodes := remoteNodes - {currentNode};
            return;
          }
        }
      } else if kind.Start? || kind.isInit {
        RecordSection();
        critical := critical + {currentNode};
        leftLoop := true;
        return Broadcast;
      }
      critical := critical + {currentNode};
      currentNode := currentNode - 1;
      effect := Stay;
    }

    /** The waiting branch after a message arrived. An unknown node ID is not handled. */
    method OnMessage(msg: Message)
      requires Valid() && !isMaster && !leftLoop
      requires msg.Continue? ==> exists p :: 0 < p < |graph.nodes| && graph.nodes[p].id == msg.nodeId
      modifies this
      ensures Valid()
      ensures msg.PathFound? ==> View() == old(View()).(done := true)
      ensures msg.Continue? ==>
                && PositionOf(graph.nodes, msg.nodeId) < |graph.nodes|
                && LeaveOf(graph.nodes, PositionOf(graph.nodes, msg.nodeId)) > 0
                && View() == TakeOver(graph, old(View()), msg.nodeId)
    {
      if msg.PathFound? {
        leftLoop := true;
        return;
      }
      var at := FindMpiNode(graph.nodes, msg.nodeId);
      var leave := if graph.nodes[at].kind.Leave? then at else at + 1;
      isMaster := true;
      critical := critical + {leave};
      currentNode := leave - 1;
      sectionEndNode := Some(leave);
    }

    /** While no message has arrived: analyse the section recorded last. */
    method AnalyseLast()
      requires Valid() && !isMaster && sectionList != []
      modifies this`sectionList, this`processed
      ensures Valid() && View() == AnalyseSection(old(View()))
    {
      processed := processed + [sectionList[|sectionList| - 1]];
      sectionList := sectionList[..|sectionList| - 1];
    }
  }
}
