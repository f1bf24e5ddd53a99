/**
 Pairing of enter and leave nodes. Nodes of all streams arrive interleaved; a stack per stream
 finds the partner and the caller of each node. Nodes are named by their position in the order
 of arrival.
 */
module RegionStack {
  import opened Common
  import opened NodeOrder

  // ----- Regions, independently of any stack -----

  // Enters minus leaves of a stream among the first `k` nodes.
  function Depth(h: seq<Node>, s: nat, k: nat): int
    requires k <= |h|
  {
    if k == 0 then 0
    else Depth(h, s, k - 1) +
         if h[k - 1].stream != s then 0 else if h[k - 1].record.Enter? then 1
         else if h[k - 1].record.Leave? then -1 else 0
  }

  // The region entered at `c` is still open after the first `k` nodes.
  ghost predicate Open(h: seq<Node>, s: nat, c: nat, k: nat)
    requires k <= |h|
  {
    && c < k && h[c].stream == s && h[c].record.Enter?
    && forall m :: c < m <= k ==> Depth(h, s, m) > Depth(h, s, c)
  }

  // Nodes `i` and `j` are both ends of a region.
  ghost predicate Match(h: seq<Node>, i: nat, j: nat) {
    && i < j < |h| && h[j].stream == h[i].stream && h[j].record.Leave?
    && Open(h, h[i].stream, i, j) && Depth(h, h[i].stream, j + 1) == Depth(h, h[i].stream, i)
  }

  // The innermost region around the place of node `i`, if there is one.
  ghost predicate Encloses(h: seq<Node>, i: nat, c: Option<nat>)
    requires i < |h|
  {
    var s := h[i].stream;
    match c
    case None => forall x: nat :: !Open(h, s, x, i)
    case Some(x) => Open(h, s, x, i) && forall y: nat :: Open(h, s, y, i) ==> y <= x
  }

  lemma {:induction false} DeeperLater(h: seq<Node>, s: nat, k: nat, c: nat, d: nat)
    requires k <= |h| && Open(h, s, c, k) && Open(h, s, d, k)
    ensures c < d <==> Depth(h, s, c) < Depth(h, s, d)
    ensures c == d <==> Depth(h, s, c) == Depth(h, s, d)
  {
  }

  lemma {:induction false} EndsOnce(h: seq<Node>, i: nat, j: nat)
    requires Match(h, i, j)
    ensures forall k :: j < k <= |h| ==> !Open(h, h[i].stream, i, k)
  {
    assert Depth(h, h[i].stream, j + 1) <= Depth(h, h[i].stream, i);
  }

  lemma {:induction false} DeeperInside(h: seq<Node>, s: nat, c: nat, k: nat, m: nat)
    requires m <= |h| && k <= |h| && Open(h, s, c, k)
    ensures c < m <= k ==> Depth(h, s, m) > Depth(h, s, c)
  {
  }

  /** A leave ends at most one region, and a region ends at most once. */
  lemma {:induction false} MatchUnique(h: seq<Node>, i: nat, j: nat, x: nat, y: nat)
    requires Match(h, i, j) && Match(h, x, y) && h[i].stream == h[x].stream
    ensures i == x <==> j == y
  {
    EndsOnce(h, i, j);
    EndsOnce(h, x, y);
    if j == y { DeeperLater(h, h[i].stream, j, i, x); }
  }

  /** Two regions of a stream are nested or apart. */
  lemma {:induction false} Laminar(h: seq<Node>, i: nat, j: nat, x: nat, y: nat)
    requires Match(h, i, j) && Match(h, x, y) && h[i].stream == h[x].stream && i < x
    ensures j < x || y < j
  {
    var s := h[i].stream;
    DeeperInside(h, s, i, j, x);
    DeeperInside(h, s, x, y, j + 1);
    MatchUnique(h, i, j, x, y);
  }

  // ----- The program -----

  // Earlier and later end of a region, as a node remembers them.
  datatype Ends = Ends(first: Option<nat>, second: Option<nat>)

  datatype State = State(stacks: map<nat, seq<nat>>, pair: seq<Ends>, caller: seq<Option<nat>>)

  function StackOf(st: State, s: nat): seq<nat> { if s in st.stacks then st.stacks[s] else [] }

  function Top(stack: seq<nat>): Option<nat> { if stack == [] then None else Some(stack[|stack| - 1]) }

  // What `node` remembers once its partner is set. The comparison is strict.
  function SetPartner(h: seq<Node>, node: nat, partner: nat): Ends
    requires node < |h| && partner < |h|
  {
    if h[node].time < h[partner].time then Ends(Some(node), Some(partner)) else Ends(Some(partner), Some(node))
  }

  function GetPartner(h: seq<Node>, st: State, n: nat): Option<nat>
    requires n < |h| && n < |st.pair|
  {
    if h[n].record.Enter? then st.pair[n].second else st.pair[n].first
  }

  // Node `k` arrives; None where a leave finds no open region.
  function Step(h: seq<Node>, st: State, k: nat): Option<State>
    requires k < |h| && |st.pair| == |st.caller| == k
    requires forall s :: s in st.stacks ==> forall d :: 0 <= d < |st.stacks[s]| ==> st.stacks[s][d] < k
  {
    var s := h[k].stream;
    var stack := StackOf(st, s);
    match h[k].record
    case Enter =>
      Some(State(st.stacks[s := stack + [k]], st.pair + [Ends(Some(k), None)], st.caller + [Top(stack)]))
    case Leave =>
      if stack == [] then None
      else
        var i := stack[|stack| - 1];
        var rest := stack[..|stack| - 1];
        Some(State(st.stacks[s := rest], st.pair[i := SetPartner(h, i, k)] + [SetPartner(h, k, i)],
            st.caller + [Top(rest)]))
    case _ => Some(State(st.stacks, st.pair + [Ends(Some(k), None)], st.caller + [None]))
  }

  // ----- Invariant after `k` nodes -----

  ghost predicate StackOk(h: seq<Node>, s: nat, stack: seq<nat>, k: nat)
    requires k <= |h|
  {
    && |stack| == Depth(h, s, k)
    && forall d :: 0 <= d < |stack| ==> Open(h, s, stack[d], k) && Depth(h, s, stack[d]) == d
  }

  // A region is open and its enter has no partner, or it is closed and both ends know each other.
  ghost predicate PairOk(h: seq<Node>, st: State, k: nat, x: nat)
    requires x < k <= |h| && |st.pair| == k
  {
    match h[x].record
    case Enter =>
      || (Open(h, h[x].stream, x, k) && st.pair[x] == Ends(Some(x), None))
      || (exists j: nat :: j < k && Match(h, x, j) && st.pair[x] == SetPartner(h, x, j))
    case Leave => exists i: nat :: Match(h, i, x) && st.pair[x] == SetPartner(h, x, i)
    case _ => st.pair[x] == Ends(Some(x), None)
  }

  // The caller of an enter encloses it; the caller of a leave is that of its enter; other nodes have
  // none.
  ghost predicate CallerOk(h: seq<Node>, st: State, k: nat, x: nat)
    requires x < k <= |h| && |st.caller| == k
  {
    match h[x].record
    case Enter => Encloses(h, x, st.caller[x])
    case Leave => forall i: nat :: Match(h, i, x) ==> Encloses(h, i, st.caller[x])
    case _ => st.caller[x] == None
  }

  ghost predicate Good(h: seq<Node>, st: State, k: nat)
    requires k <= |h|
  {
    && |st.pair| == |st.caller| == k
    && (forall s: nat :: StackOk(h, s, StackOf(st, s), k))
    && (forall x: nat :: x < k ==> PairOk(h, st, k, x) && CallerOk(h, st, k, x))
  }

  lemma {:induction false} OpenIsOnStack(h: seq<Node>, s: nat, stack: seq<nat>, k: nat, c: nat)
    requires k <= |h| && StackOk(h, s, stack, k) && Open(h, s, c, k) && Depth(h, s, c) >= 0
    ensures Depth(h, s, c) < |stack| && stack[Depth(h, s, c)] == c
  {
    DeeperLater(h, s, k, c, stack[Depth(h, s, c)]);
  }

  // Depths have been non-negative so far.
  ghost predicate Balanced(h: seq<Node>, k: nat)
    requires k <= |h|
  {
    forall s: nat, m: nat :: m <= k ==> Depth(h, s, m) >= 0
  }

  lemma {:induction false} TopEncloses(h: seq<Node>, i: nat, stack: seq<nat>)
    requires i < |h| && StackOk(h, h[i].stream, stack, i) && Balanced(h, i)
    ensures Encloses(h, i, Top(stack))
  {
    forall y: nat | Open(h, h[i].stream, y, i) ensures stack != [] && y <= stack[|stack| - 1] {
      OpenIsOnStack(h, h[i].stream, stack, i, y);
      DeeperLater(h, h[i].stream, i, y, stack[|stack| - 1]);
    }
  }

  // ----- Steps -----

  lemma {:induction false} StackAfterEnter(h: seq<Node>, stack: seq<nat>, k: nat)
    requires k < |h| && h[k].record.Enter? && StackOk(h, h[k].stream, stack, k)
    ensures StackOk(h, h[k].stream, stack + [k], k + 1)
  {
    var s := h[k].stream;
    forall d | 0 <= d < |stack| ensures Open(h, s, stack[d], k + 1) {
      assert Open(h, s, stack[d], k);
    }
  }

  lemma {:induction false} StackAfterLeave(h: seq<Node>, stack: seq<nat>, k: nat)
    requires k < |h| && h[k].record.Leave? && StackOk(h, h[k].stream, stack, k) && stack != []
    ensures StackOk(h, h[k].stream, stack[..|stack| - 1], k + 1)
    ensures Match(h, stack[|stack| - 1], k)
  {
    var s := h[k].stream;
    assert Open(h, s, stack[|stack| - 1], k);
    forall d | 0 <= d < |stack| - 1 ensures Open(h, s, stack[d], k + 1) {
      assert Open(h, s, stack[d], k);
    }
  }

  lemma {:induction false} StackAfterOther(h: seq<Node>, s: nat, stack: seq<nat>, k: nat)
    requires k < |h| && StackOk(h, s, stack, k)
    requires h[k].stream != s || !(h[k].record.Enter? || h[k].record.Leave?)
    ensures StackOk(h, s, stack, k + 1)
  {
    forall d | 0 <= d < |stack| ensures Open(h, s, stack[d], k + 1) {
      assert Open(h, s, stack[d], k);
    }
  }

  // Below the region that ends lie the regions that were open when it began.
  lemma {:induction false} StackAtEnter(h: seq<Node>, stack: seq<nat>, k: nat)
    requires k < |h| && StackOk(h, h[k].stream, stack, k) && stack != []
    ensures var i := stack[|stack| - 1];
            h[i].stream == h[k].stream && StackOk(h, h[i].stream, stack[..|stack| - 1], i)
  {
    var s := h[k].stream;
    var i := stack[|stack| - 1];
    assert Open(h, s, i, k);
    forall d | 0 <= d < |stack| - 1 ensures Open(h, s, stack[d], i) {
      assert Open(h, s, stack[d], k);
      DeeperLater(h, s, k, stack[d], i);
    }
  }

  lemma {:induction false} OpenStays(h: seq<Node>, stack: seq<nat>, k: nat, x: nat)
    requires k < |h| && x < k && StackOk(h, h[k].stream, stack, k) && Balanced(h, k) && Open(h, h[x].stream, x, k)
    requires h[k].record.Leave? ==> stack != [] && x != stack[|stack| - 1]
    ensures Open(h, h[x].stream, x, k + 1)
  {
    if h[x].stream == h[k].stream { OpenIsOnStack(h, h[k].stream, stack, k, x); }
  }

  lemma {:induction false} PairAfter(h: seq<Node>, st: State, k: nat, x: nat)
    requires k < |h| && x <= k && Good(h, st, k) && Balanced(h, k) && StepFits(st, k) && Step(h, st, k).Some?
    ensures |Step(h, st, k).value.pair| == k + 1 && PairOk(h, Step(h, st, k).value, k + 1, x)
  {
    var stack := StackOf(st, h[k].stream);
    assert StackOk(h, h[k].stream, stack, k);
    if h[k].record.Leave? { StackAfterLeave(h, stack, k); }
    if x < k {
      assert PairOk(h, st, k, x);
      if h[x].record.Enter? && Open(h, h[x].stream, x, k) && !(h[k].record.Leave? && x == stack[|stack| - 1]) {
        OpenStays(h, stack, k, x);
      }
    }
  }

  // The nodes on the stacks have arrived.
  ghost predicate StepFits(st: State, k: nat) {
    && |st.pair| == |st.caller| == k
    && forall s :: s in st.stacks ==> forall d :: 0 <= d < |st.stacks[s]| ==> st.stacks[s][d] < k
  }

  lemma {:induction false} Fits(h: seq<Node>, st: State, k: nat)
    requires k <= |h| && Good(h, st, k)
    ensures StepFits(st, k)
  {
    forall s, d | s in st.stacks && 0 <= d < |st.stacks[s]| ensures st.stacks[s][d] < k {
      assert StackOk(h, s, StackOf(st, s), k);
      assert Open(h, s, StackOf(st, s)[d], k);
    }
  }

  lemma {:induction false} CallerAfter(h: seq<Node>, st: State, k: nat, x: nat)
    requires k < |h| && x <= k && Good(h, st, k) && Balanced(h, k) && StepFits(st, k) && Step(h, st, k).Some?
    ensures |Step(h, st, k).value.caller| == k + 1 && CallerOk(h, Step(h, st, k).value, k + 1, x)
  {
    var stack := StackOf(st, h[k].stream);
    assert StackOk(h, h[k].stream, stack, k);
    if x < k {
      assert CallerOk(h, st, k, x);
    } else if h[k].record.Enter? {
      TopEncloses(h, k, stack);
    } else if h[k].record.Leave? {
      StackAfterLeave(h, stack, k);
      StackAtEnter(h, stack, k);
      TopEncloses(h, stack[|stack| - 1], stack[..|stack| - 1]);
      forall i: nat | Match(h, i, k) ensures i == stack[|stack| - 1] {
        MatchUnique(h, i, k, stack[|stack| - 1], k);
      }
    }
  }

  lemma {:induction false} StacksAfter(h: seq<Node>, st: State, k: nat, s: nat)
    requires k < |h| && Good(h, st, k) && StepFits(st, k) && Step(h, st, k).Some?
    ensures StackOk(h, s, StackOf(Step(h, st, k).value, s), k + 1)
  {
    var stack := StackOf(st, s);
    assert StackOk(h, s, stack, k);
    if h[k].stream == s && h[k].record.Enter? {
      StackAfterEnter(h, stack, k);
    } else if h[k].stream == s && h[k].record.Leave? {
      StackAfterLeave(h, stack, k);
    } else {
      StackAfterOther(h, s, stack, k);
    }
  }

  // ----- Runs -----

  // The state after `k` nodes.
  ghost function Run(h: seq<Node>, k: nat): (st: Option<State>)
    requires k <= |h|
    ensures st.Some? ==> Good(h, st.value, k)
    ensures st.Some? <==> Balanced(h, k)
  {
    if k == 0 then
      Some(State(map[], [], []))
    else
      var st := Run(h, k - 1);
      if st.None? then None
      else
        Fits(h, st.value, k - 1);
        RunStep(h, st.value, k - 1);
        Step(h, st.value, k - 1)
  }

  lemma {:induction false} RunStep(h: seq<Node>, st: State, k: nat)
    requires k < |h| && Good(h, st, k) && Balanced(h, k) && StepFits(st, k)
    ensures Step(h, st, k).Some? ==> Good(h, Step(h, st, k).value, k + 1)
    ensures Step(h, st, k).Some? <==> Balanced(h, k + 1)
  {
    assert StackOk(h, h[k].stream, StackOf(st, h[k].stream), k);
    if Step(h, st, k).Some? {
      forall s: nat ensures StackOk(h, s, StackOf(Step(h, st, k).value, s), k + 1) { StacksAfter(h, st, k, s); }
      var next := Step(h, st, k).value;
      var n := k + 1;
      forall x: nat | x < n ensures |next.pair| == |next.caller| == n && PairOk(h, next, n, x)
          && CallerOk(h, next, n, x) {
        PairAfter(h, st, k, x);
        CallerAfter(h, st, k, x);
      }
      StillBalanced(h, Step(h, st, k).value, k);
    } else {
      assert Depth(h, h[k].stream, k + 1) == -1;
    }
  }

  lemma {:induction false} StillBalanced(h: seq<Node>, st: State, k: nat)
    requires k < |h| && Balanced(h, k) && forall s: nat :: StackOk(h, s, StackOf(st, s), k + 1)
    ensures Balanced(h, k + 1)
  {
    var n := k + 1;
    forall s: nat ensures Depth(h, s, n) >= 0 { assert StackOk(h, s, StackOf(st, s), n); }
  }

  /** The program gives up exactly if some leave has no enter, that is if the depth of a stream
      would fall below zero. */
  lemma {:induction false} FailsExactly(h: seq<Node>)
    ensures Run(h, |h|).None? <==> exists s: nat, m: nat :: m <= |h| && Depth(h, s, m) < 0
  {
    if Run(h, |h|).None? {
      assert !Balanced(h, |h|);
      var s: nat, m: nat :| m <= |h| && !(Depth(h, s, m) >= 0);
      assert Depth(h, s, m) < 0;
    }
  }

  /** Both ends of a region know each other, in this order, and have the innermost region around
      them as caller. The enter has the ends swapped if both times are equal. */
  lemma {:induction false} PairingIsMatching(h: seq<Node>, i: nat, j: nat)
    requires Run(h, |h|).Some? && Match(h, i, j) && h[i].time <= h[j].time
    ensures var st := Run(h, |h|).value;
            && st.pair[j] == Ends(Some(i), Some(j))
            && st.pair[i] == (if h[i].time < h[j].time then Ends(Some(i), Some(j)) else Ends(Some(j), Some(i)))
            && st.caller[i] == st.caller[j] && Encloses(h, i, st.caller[i])
  {
    var st := Run(h, |h|).value;
    assert PairOk(h, st, |h|, i) && PairOk(h, st, |h|, j) && CallerOk(h, st, |h|, i) && CallerOk(h, st, |h|, j);
    EndsOnce(h, i, j);
    forall y: nat | Match(h, i, y) ensures y == j { MatchUnique(h, i, j, i, y); }
    forall x: nat | Match(h, x, j) ensures x == i { MatchUnique(h, i, j, x, j); }
    SameCaller(h, i, st.caller[i], st.caller[j]);
  }

  lemma {:induction false} SameCaller(h: seq<Node>, i: nat, a: Option<nat>, b: Option<nat>)
    requires i < |h| && Encloses(h, i, a) && Encloses(h, i, b)
    ensures a == b
  {
  }

  /** Being partners is mutual exactly for regions of positive duration: the enter of any other
      takes itself for its partner. */
  lemma {:induction false} PartnerExactly(h: seq<Node>, i: nat, j: nat)
    requires Run(h, |h|).Some? && Match(h, i, j) && h[i].time <= h[j].time
    ensures var st := Run(h, |h|).value;
            && GetPartner(h, st, j) == Some(i)
            && (GetPartner(h, st, i) == Some(j) <==> h[i].time < h[j].time)
            && (st.pair[i] == st.pair[j] <==> h[i].time < h[j].time)
            && (h[i].time == h[j].time ==> GetPartner(h, st, i) == Some(i))
  {
    PairingIsMatching(h, i, j);
  }

  /** Every leave has a partner, and an enter has none exactly while its region is open. */
  lemma {:induction false} PartnersFound(h: seq<Node>, x: nat)
    requires Run(h, |h|).Some? && x < |h|
    ensures h[x].record.Leave? ==> exists i: nat :: Match(h, i, x)
    ensures h[x].record.Enter? ==> (Run(h, |h|).value.pair[x].second.None? <==> Open(h, h[x].stream, x, |h|))
  {
    assert PairOk(h, Run(h, |h|).value, |h|, x);
    if j: nat :| j < |h| && Match(h, x, j) { EndsOnce(h, x, j); }
  }

  // ----- In place -----

  class Pairing {
    var nodes: seq<Node>
    var pendingStacks: map<nat, seq<nat>>
    var pair: seq<Ends>
    var caller: seq<Option<nat>>

    ghost predicate Valid()
      reads this
    {
      Run(nodes, |nodes|) == Some(State(pendingStacks, pair, caller))
    }

    constructor ()
      ensures Valid() && nodes == []
    {
      nodes, pendingStacks, pair, caller := [], map[], [], [];
    }

    method AddNode(node: Node) returns (thrown: bool)
      requires Valid()
      modifies this
      ensures nodes == old(nodes) + [node] && (thrown <==> Run(nodes, |nodes|).None?) && (!thrown ==> Valid())
    {
      RunGrows(nodes, node, State(pendingStacks, pair, caller));
      nodes := nodes + [node];
      var state := Process(nodes, State(pendingStacks, pair, caller), |nodes| - 1);
      thrown := state.None?;
      if !thrown { pendingStacks, pair, caller := state.value.stacks, state.value.pair, state.value.caller; }
    }
  }

  method Process(nodes: seq<Node>, st: State, k: nat) returns (r: Option<State>)
    requires k < |nodes| && StepFits(st, k)
    ensures r == Step(nodes, st, k)
  {
    var (stacks, pair, caller) := (st.stacks, st.pair + [Ends(Some(k), None)], st.caller + [None]);
    var s := nodes[k].stream;
    var stack := if s in stacks then stacks[s] else [];
    if nodes[k].record.Leave? {
      if stack == [] { return None; }
      var i := stack[|stack| - 1];
      pair := pair[k := SetPartner(nodes, k, i)];
      pair := pair[i := SetPartner(nodes, i, k)];
      stacks := stacks[s := stack[..|stack| - 1]];
      caller := caller[k := Top(stacks[s])];
      assert pair == st.pair[i := SetPartner(nodes, i, k)] + [SetPartner(nodes, k, i)];
      assert caller == st.caller + [Top(stacks[s])];
    } else if nodes[k].record.Enter? {
      caller := caller[k := Top(stack)];
      assert caller == st.caller + [Top(stack)];
      stacks := stacks[s := stack + [k]];
    }
    return Some(State(stacks, pair, caller));
  }

  lemma {:induction false} RunGrows(h: seq<Node>, n: Node, st: State)
    requires Run(h, |h|) == Some(st)
    ensures StepFits(st, |h|) && Run(h + [n], |h| + 1) == Step(h + [n], st, |h|)
  {
    RunPrefix(h, n, |h|);
    Fits(h, st, |h|);
  }

  lemma {:induction false} RunPrefix(h: seq<Node>, n: Node, k: nat)
    requires k <= |h|
    ensures Run(h + [n], k) == Run(h, k)
  {
    if k > 0 {
      RunPrefix(h, n, k - 1);
      var st := Run(h, k - 1);
      if st.Some? {
        Fits(h, st.value, k - 1);
        StepPrefix(h, n, st.value, k - 1);
      }
    }
  }

  lemma {:induction false} StepPrefix(h: seq<Node>, n: Node, st: State, k: nat)
    requires k < |h| && StepFits(st, k)
    ensures Step(h + [n], st, k) == Step(h, st, k)
  {
    assert (h + [n])[k] == h[k];
    var stack := StackOf(st, h[k].stream);
    if stack != [] { assert (h + [n])[stack[|stack| - 1]] == h[stack[|stack| - 1]]; }
  }
}
