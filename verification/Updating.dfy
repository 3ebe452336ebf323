/** What the updater does, as a function of the nodes and of what it may change: which branch it builds, where it stops
    and why. */
module Updates {
  import opened Bytes
  import opened Transactions
  import opened Ledger
  import opened Verification
  import opened Blocks
  import opened ChainState
  import opened UtxoManagers
  import opened TreeInvariants
  import opened Building

  /** How a call of `verifyAndBuildDown` ends.  `Waiting`: the source blocks until data arrives.  `Crashed`: it
      dereferences an input that was never resolved. */
  datatype Outcome = Done | BadBlock | Waiting | Crashed

  /** What verification may change, as values. */
  datatype Snapshot =
    Snapshot(histories: map<BlockChainNode, seq<Record>>, upToDate: set<BlockChainNode>, view: View,
             head: BlockChainNode, height: nat)

  /** The same with the data that waits for a node, and with where data goes. */
  datatype Store = Store(now: Snapshot, dangling: map<Digest, Group>, leads: map<Digest, Digest>)

  /** How a call ends: what is left of the arrivals, and the nodes whose blocks were applied, in order. */
  datatype Ending = Ending(outcome: Outcome, store: Store, rest: seq<Group>, applied: seq<BlockChainNode>)

  /** What lets a group become a block after a given map. */
  ghost predicate Acceptable(blocks: seq<TransactionBlock>, m: Utxo) {
    GroupPasses(blocks) && RefsOk(m, GroupRefs(blocks))
  }

  // ---------------------------------------------------------------- the function

  /** Data that waits for `n` is given to it, and the lead to it is deleted. */
  ghost function Found(s: Store, n: BlockChainNode): Store {
    var m := n.Block.MerkleRoot;
    if n.Hash in s.now.view || m !in s.dangling then s
    else Store(s.now.(view := s.now.view[n.Hash := s.dangling[m]]), s.dangling, s.leads - {m})
  }

  /** `n` becomes the head if it is higher. */
  ghost function Headed(now: Snapshot, n: BlockChainNode): Snapshot {
    if n.Block.BlockCount > now.height then now.(head := n, height := n.Block.BlockCount) else now
  }

  /** `n` takes over the manager of `prev`, which keeps a copy every fifth time. */
  ghost function Advanced(now: Snapshot, prev: BlockChainNode, n: BlockChainNode): Snapshot
    requires prev in now.histories && n.Hash in now.view
  {
    var up := now.upToDate + {n};
    Headed(now, n).(histories := now.histories[n := now.histories[prev] + [RecordOf(n, now.view)]],
                    upToDate := if n.Block.BlockCount % 5 == 1 then up else up - {prev})
  }

  lemma AdvancedIs(a: Snapshot, prev: BlockChainNode, n: BlockChainNode, b: Snapshot)
    requires prev in a.histories && n.Hash in a.view && b.view == a.view
    requires b.histories == a.histories[n := a.histories[prev] + [RecordOf(n, a.view)]]
    requires b.upToDate == a.upToDate + {n} - if n.Block.BlockCount % 5 == 1 then {} else {prev}
    requires b.head == if n.Block.BlockCount > a.height then n else a.head
    requires b.height == if n.Block.BlockCount > a.height then n.Block.BlockCount else a.height
    ensures b == Advanced(a, prev, n)
  {
  }

  /** What happens to `n` once it has its data and the node before it is up to date. */
  ghost function Judged(now: Snapshot, prev: BlockChainNode, n: BlockChainNode): (Outcome, Snapshot)
    requires n.Hash in now.view
  {
    var blocks := RecordOf(n, now.view).blocks;
    if prev in now.histories && Acceptable(blocks, Replay(now.histories[prev])) then (Done, Advanced(now, prev, n))
    else (if GroupCrashes(blocks) then Crashed else BadBlock, now)
  }

  lemma JudgedView(now: Snapshot, prev: BlockChainNode, n: BlockChainNode)
    requires n.Hash in now.view
    ensures Judged(now, prev, n).1.view == now.view && Judged(now, prev, n).0 != Waiting
  {
    hide Acceptable, Replay, GroupCrashes;
  }

  /** The same with the wait for the data. */
  ghost function Finished(known: set<Digest>, s: Store, prev: BlockChainNode, n: BlockChainNode, arrivals: seq<Group>,
                          applied: seq<BlockChainNode>): (e: Ending)
    requires AllValid(arrivals)
    ensures AllValid(e.rest)
  {
    var (d, rest) := Waited(DataState(s.now.view, s.dangling), s.leads, known, n.Hash, arrivals);
    var t := Store(s.now.(view := d.view), d.dangling, s.leads);
    if n.Hash !in d.view then Ending(Waiting, t, rest, applied)
    else
      var (outcome, now) := Judged(t.now, prev, n);
      Ending(outcome, t.(now := now), rest, if outcome == Done then applied + [n] else applied)
  }

  lemma FinishedIs(known: set<Digest>, s: Store, prev: BlockChainNode, n: BlockChainNode, arrivals: seq<Group>,
                   applied: seq<BlockChainNode>, d: DataState, rest: seq<Group>)
    requires AllValid(arrivals)
    requires (d, rest) == Waited(DataState(s.now.view, s.dangling), s.leads, known, n.Hash, arrivals)
    ensures var t := Store(s.now.(view := d.view), d.dangling, s.leads);
            Finished(known, s, prev, n, arrivals, applied)
            == if n.Hash !in d.view then Ending(Waiting, t, rest, applied)
            else
              var (outcome, now) := Judged(t.now, prev, n);
              Ending(outcome, t.(now := now), rest, if outcome == Done then applied + [n] else applied)
  {
    hide Judged, Waited;
  }

  ghost predicate HasParent(nodes: NodeMap, n: BlockChainNode) {
    n.Block.PrevHash in nodes && nodes[n.Block.PrevHash].Block.BlockCount < n.Block.BlockCount
  }

  ghost function Parent(nodes: NodeMap, n: BlockChainNode): BlockChainNode
    requires HasParent(nodes, n)
  {
    nodes[n.Block.PrevHash]
  }

  /** Brings `n` up to date: first the node before it, then `n` itself.  The root, which alone has no parent, is up to
      date. */
  ghost function BuiltDown(nodes: NodeMap, s: Store, n: BlockChainNode, arrivals: seq<Group>): (e: Ending)
    requires AllValid(arrivals)
    ensures AllValid(e.rest)
    decreases n.Block.BlockCount
  {
    if n in s.now.upToDate then Ending(Done, s, arrivals, [])
    else if !HasParent(nodes, n) then Ending(Waiting, s, arrivals, [])
    else
      var prev := Parent(nodes, n);
      var e := BuiltDown(nodes, Found(s, n), prev, arrivals);
      if e.outcome != Done then e else Finished(nodes.Keys, e.store, prev, n, e.rest, e.applied)
  }

  // ---------------------------------------------------------------- links

  /** The node before `n`; the root is its own predecessor. */
  ghost function Before(nodes: NodeMap, n: BlockChainNode): BlockChainNode {
    if HasParent(nodes, n) then Parent(nodes, n) else n
  }

  /** Every node that is looked at is what the node before it points forward to. */
  ghost function Relinked(nodes: NodeMap, upToDate: set<BlockChainNode>, n: BlockChainNode,
                          links: map<BlockChainNode, BlockChainNode?>): map<BlockChainNode, BlockChainNode?>
    decreases n.Block.BlockCount
  {
    var prev := Before(nodes, n);
    var one := links[prev := n];
    if n in upToDate || prev in upToDate || !HasParent(nodes, n) then one else Relinked(nodes, upToDate, prev, one)
  }

  lemma RelinkedOn(nodes: NodeMap, upToDate: set<BlockChainNode>, prev: BlockChainNode, n: BlockChainNode,
                   links: map<BlockChainNode, BlockChainNode?>)
    requires prev == Before(nodes, n)
    ensures n in upToDate || prev in upToDate ==> Relinked(nodes, upToDate, n, links) == links[prev := n]
    ensures n !in upToDate && prev !in upToDate && HasParent(nodes, n) ==>
              Relinked(nodes, upToDate, n, links) == Relinked(nodes, upToDate, prev, links[prev := n])
  {
  }

  // ---------------------------------------------------------------- the path to a node

  /** The nodes from above the last node that is up to date to `n`. */
  ghost function PathTo(nodes: NodeMap, upToDate: set<BlockChainNode>, n: BlockChainNode): seq<BlockChainNode>
    decreases n.Block.BlockCount
  {
    if n in upToDate || !HasParent(nodes, n) then [] else PathTo(nodes, upToDate, Parent(nodes, n)) + [n]
  }

  /** The last node on the way to `n` that is up to date. */
  ghost function BaseOf(nodes: NodeMap, upToDate: set<BlockChainNode>, n: BlockChainNode): BlockChainNode
    decreases n.Block.BlockCount
  {
    if n in upToDate || !HasParent(nodes, n) then n else BaseOf(nodes, upToDate, Parent(nodes, n))
  }

  /** The data of the first `k` nodes is held. */
  ghost predicate HeldUpTo(view: View, path: seq<BlockChainNode>, k: nat)
    requires k <= |path|
  {
    forall i :: 0 <= i < k ==> path[i].Hash in view
  }

  /** The history of a node, and then the blocks of the first `k` nodes. */
  ghost function HistoryTo(history: seq<Record>, view: View, path: seq<BlockChainNode>, k: nat): seq<Record>
    requires k <= |path| && HeldUpTo(view, path, k)
  {
    history + seq(k, i requires 0 <= i < k => RecordOf(path[i], view))
  }

  /** The blocks up to `path[i]` are held, and both checks accept the last of them after the ones before it. */
  ghost predicate CanFollow(history: seq<Record>, view: View, path: seq<BlockChainNode>, i: nat)
    requires i < |path|
  {
    && HeldUpTo(view, path, i + 1)
    && Acceptable(RecordOf(path[i], view).blocks, Replay(HistoryTo(history, view, path, i)))
  }

  // ---------------------------------------------------------------- what is known of the nodes

  /** What holds of a verified node: its history is that of the node before it and its own block, which both checks
      accepted; and every fifth stays up to date. */
  ghost predicate VerifiedIn(nodes: NodeMap, now: Snapshot, n: BlockChainNode)
    requires n in now.histories
  {
    && (n.Block.BlockCount % 5 == 0 ==> n in now.upToDate)
    && if n.Block.BlockCount == 0 then now.histories[n] == []
       else
         && HasParent(nodes, n) && Parent(nodes, n) in now.histories && n.Hash in now.view
         && now.histories[n] == now.histories[Parent(nodes, n)] + [RecordOf(n, now.view)]
         && Acceptable(RecordOf(n, now.view).blocks, Replay(now.histories[Parent(nodes, n)]))
  }

  /** Every node but the root is one higher than the node before it; the root is up to date. */
  ghost predicate StandsIn(nodes: NodeMap, now: Snapshot, n: BlockChainNode) {
    && n.Hash in nodes && nodes[n.Hash] == n
    && if n.Block.BlockCount == 0 then n in now.upToDate
       else HasParent(nodes, n) && n.Block.BlockCount == Parent(nodes, n).Block.BlockCount + 1
  }

  ghost predicate Consistent(nodes: NodeMap, now: Snapshot) {
    && (forall n {:trigger StandsIn(nodes, now, n)} :: n in nodes.Values ==> StandsIn(nodes, now, n))
    && now.upToDate <= now.histories.Keys <= nodes.Values
    && (forall n {:trigger VerifiedIn(nodes, now, n)} :: n in now.histories ==> VerifiedIn(nodes, now, n))
    && now.head in now.upToDate && now.height == now.head.Block.BlockCount
    && forall n :: n in now.histories ==> n.Block.BlockCount <= now.height
  }

  lemma ParentStands(nodes: NodeMap, now: Snapshot, n: BlockChainNode)
    requires Consistent(nodes, now) && n in nodes.Values && n !in now.upToDate
    ensures HasParent(nodes, n) && Parent(nodes, n) in nodes.Values && Parent(nodes, n) != n
    ensures n.Block.BlockCount == Parent(nodes, n).Block.BlockCount + 1
  {
    hide VerifiedIn;
    assert StandsIn(nodes, now, n);
  }

  /** The path to `n` starts above a node that is up to date, each of its nodes is one higher than the one before it,
      none is up to date, and it ends in `n`. */
  lemma {:induction false} PathShape(nodes: NodeMap, now: Snapshot, n: BlockChainNode)
    requires Consistent(nodes, now) && n in nodes.Values
    ensures var base, path := BaseOf(nodes, now.upToDate, n), PathTo(nodes, now.upToDate, n);
            && base in now.upToDate && base in now.histories && base.Block.BlockCount + |path| == n.Block.BlockCount
            && ([base] + path)[|path|] == n
            && forall i :: 0 <= i < |path| ==>
                 && path[i] in nodes.Values && path[i] !in now.upToDate && HasParent(nodes, path[i])
                 && Parent(nodes, path[i]) == ([base] + path)[i]
                 && path[i].Block.BlockCount == base.Block.BlockCount + i + 1
    decreases n.Block.BlockCount
  {
    hide VerifiedIn;
    if n !in now.upToDate {
      ParentStands(nodes, now, n);
      PathShape(nodes, now, Parent(nodes, n));
    }
  }

  /** Afterwards one can go forward from the last node that was up to date to `n`; no other link changes. */
  lemma {:induction false} LinksLeadUp(nodes: NodeMap, now: Snapshot, n: BlockChainNode,
                                       links: map<BlockChainNode, BlockChainNode?>)
    requires Consistent(nodes, now) && n in nodes.Values && n !in now.upToDate
    ensures var base, path := BaseOf(nodes, now.upToDate, n), PathTo(nodes, now.upToDate, n);
            var links' := Relinked(nodes, now.upToDate, n, links);
            && path != [] && links.Keys <= links'.Keys
            && (forall i :: 0 <= i < |path| ==> ([base] + path)[i] in links' && links'[([base] + path)[i]] == path[i])
            && forall m :: m in links && m !in ([base] + path)[..|path|] ==> links'[m] == links[m]
    decreases n.Block.BlockCount
  {
    hide VerifiedIn;
    ParentStands(nodes, now, n);
    var prev := Parent(nodes, n);
    PathShape(nodes, now, n);
    var base, path := BaseOf(nodes, now.upToDate, prev), PathTo(nodes, now.upToDate, prev);
    PathShape(nodes, now, prev);
    var all := [base] + (path + [n]);
    assert all[|path|] == prev && all[..|path| + 1] == ([base] + path)[..|path|] + [prev];
    if prev !in now.upToDate {
      var one := links[prev := n];
      LinksLeadUp(nodes, now, prev, one);
      var links' := Relinked(nodes, now.upToDate, prev, one);
      assert links' == Relinked(nodes, now.upToDate, n, links);
      forall i | 0 <= i < |path| ensures ([base] + path)[i] == all[i] && all[i] != prev {
        assert i > 0 ==> ([base] + path)[i] == path[i - 1];
        assert path[i].Block.BlockCount == base.Block.BlockCount + i + 1;
      }
      assert prev in one && prev !in ([base] + path)[..|path|];
      assert links'[prev] == n;
    }
  }

  // ---------------------------------------------------------------- data only arrives

  lemma {:induction false} WaitedExtends(s: DataState, leads: map<Digest, Digest>, known: set<Digest>, h: Digest,
                                         arrivals: seq<Group>)
    requires AllValid(arrivals)
    ensures Extends(s.view, Waited(s, leads, known, h, arrivals).0.view)
    ensures h in s.view || arrivals == [] ==> Waited(s, leads, known, h, arrivals) == (s, arrivals)
    decreases |arrivals|
  {
    hide ResolveGroup, Group.MerkleRoot;
    if arrivals != [] && h !in s.view {
      assert arrivals[0] in arrivals && AllValid(arrivals[1..]);
      var r := ResolveGroup(s.view, arrivals[0]);
      WaitedExtends(DataPlaced(s, leads, known, r), leads, known, h, arrivals[1..]);
    }
  }

  lemma ConsistentGrows(nodes: NodeMap, now: Snapshot, view: View)
    requires Consistent(nodes, now) && Extends(now.view, view)
    ensures Consistent(nodes, now.(view := view))
  {
    hide Acceptable, Replay;
    forall n | n in nodes.Values ensures StandsIn(nodes, now.(view := view), n) {
      assert StandsIn(nodes, now, n);
    }
    forall n | n in now.histories ensures VerifiedIn(nodes, now.(view := view), n) {
      assert VerifiedIn(nodes, now, n);
    }
  }

  lemma FoundExtends(s: Store, n: BlockChainNode)
    ensures Extends(s.now.view, Found(s, n).now.view) && Found(s, n).now == s.now.(view := Found(s, n).now.view)
  {
  }

  /** What stays when the data grows. */
  lemma SameHistory(history: seq<Record>, view: View, view': View, path: seq<BlockChainNode>,
                    more: seq<BlockChainNode>, k: nat)
    requires Extends(view, view') && k <= |path| && HeldUpTo(view, path, k)
    ensures HeldUpTo(view', path + more, k)
    ensures HistoryTo(history, view', path + more, k) == HistoryTo(history, view, path, k)
  {
    assert forall i :: 0 <= i < k ==> (path + more)[i] == path[i];
  }

  lemma SameFollow(history: seq<Record>, view: View, view': View, path: seq<BlockChainNode>,
                   more: seq<BlockChainNode>, i: nat)
    requires Extends(view, view') && i < |path| && HeldUpTo(view, path, i + 1)
    ensures CanFollow(history, view, path, i) <==> CanFollow(history, view', path + more, i)
  {
    hide Acceptable, Replay, HistoryTo;
    SameHistory(history, view, view', path, more, i);
    SameHistory(history, view, view', path, more, i + 1);
  }

  // ---------------------------------------------------------------- what the function means

  /** Why nothing was done with the first node that was not applied. */
  ghost predicate Stopped(history: seq<Record>, path: seq<BlockChainNode>, e: Ending, k: nat)
    requires k < |path|
  {
    var view := e.store.now.view;
    if e.outcome == Waiting then path[k].Hash !in view && e.rest == []
    else
      && e.outcome != Done && path[k].Hash in view && !CanFollow(history, view, path, k)
      && (e.outcome == Crashed <==> GroupCrashes(RecordOf(path[k], view).blocks))
  }

  /** What was applied is the beginning of the path, each node after both checks accepted its block after the blocks
      before it; and either that is all of the path, or the next node has no data or is not accepted. */
  ghost predicate Explained(history: seq<Record>, path: seq<BlockChainNode>, e: Ending) {
    var k, view := |e.applied|, e.store.now.view;
    && k <= |path| && e.applied == path[..k] && (e.outcome == Done <==> k == |path|)
    && HeldUpTo(view, path, k) && (forall i :: 0 <= i < k ==> CanFollow(history, view, path, i))
    && (k < |path| ==> Stopped(history, path, e, k))
  }

  /** The histories of the nodes that are done. */
  ghost predicate Recorded(history: seq<Record>, base: BlockChainNode, path: seq<BlockChainNode>, now: Snapshot, k: nat)
  {
    && k <= |path| && HeldUpTo(now.view, path, k)
    && forall i :: 0 <= i <= k ==>
         var n := ([base] + path)[i];
         n in now.histories && now.histories[n] == HistoryTo(history, now.view, path, i)
  }

  /** The same nodes with one more after them. */
  lemma StillStopped(history: seq<Record>, path: seq<BlockChainNode>, n: BlockChainNode, e: Ending)
    requires Explained(history, path, e) && e.outcome != Done
    ensures Explained(history, path + [n], e)
  {
    hide Acceptable, Replay, HistoryTo, GroupCrashes;
    var longer, k, view := path + [n], |e.applied|, e.store.now.view;
    forall i | 0 <= i < k ensures CanFollow(history, view, longer, i) {
      SameFollow(history, view, view, path, [n], i);
    }
    if path[k].Hash in view {
      SameFollow(history, view, view, path, [n], k);
    }
  }

  lemma StillRecorded(history: seq<Record>, base: BlockChainNode, path: seq<BlockChainNode>, now: Snapshot,
                      now': Snapshot, n: BlockChainNode, k: nat)
    requires k <= |path| && Recorded(history, base, path, now, k) && Extends(now.view, now'.view)
    requires forall i :: 0 <= i <= k ==>
               var m := ([base] + path)[i]; m in now'.histories && now'.histories[m] == now.histories[m]
    ensures Recorded(history, base, path + [n], now', k)
  {
    hide HistoryTo;
    forall i | 0 <= i <= k
      ensures var m := ([base] + (path + [n]))[i];
              && HeldUpTo(now'.view, path + [n], i)
              && m in now'.histories && now'.histories[m] == HistoryTo(history, now'.view, path + [n], i)
    {
      SameHistory(history, now.view, now'.view, path, [n], i);
      assert ([base] + (path + [n]))[i] == ([base] + path)[i];
    }
  }

  lemma BeginningRecorded(history: seq<Record>, base: BlockChainNode, now: Snapshot)
    requires base in now.histories && now.histories[base] == history
    ensures Recorded(history, base, [], now, 0)
  {
    assert HistoryTo(history, now.view, [], 0) == history;
  }

  /** Only these nodes are verified in addition, data only arrives, and no other history changes. */
  ghost predicate KeepsHistories(a: Snapshot, b: Snapshot, applied: set<BlockChainNode>) {
    && b.histories.Keys == a.histories.Keys + applied && Extends(a.view, b.view)
    && forall m :: m in a.histories && m !in applied ==> b.histories[m] == a.histories[m]
  }

  /** `n` comes after nodes that were all applied. */
  lemma FinishedMeaning(known: set<Digest>, history: seq<Record>, base: BlockChainNode, path: seq<BlockChainNode>,
                        e: Ending, n: BlockChainNode)
    requires Explained(history, path, e) && e.outcome == Done && AllValid(e.rest)
    requires Recorded(history, base, path, e.store.now, |path|)
    requires n != base && n !in path
    ensures var e' := Finished(known, e.store, ([base] + path)[|path|], n, e.rest, e.applied);
            && Explained(history, path + [n], e') && Recorded(history, base, path + [n], e'.store.now, |e'.applied|)
            && (e'.applied == e.applied || e'.applied == e.applied + [n])
            && KeepsHistories(e.store.now, e'.store.now, if e'.applied == e.applied then {} else {n})
  {
    hide Acceptable, Replay, HistoryTo, GroupCrashes, Waited, CanFollow;
    var s, prev, k := e.store, ([base] + path)[|path|], |path|;
    var longer := path + [n];
    assert path[..k] == path && longer[..k] == path && longer[..k + 1] == longer;
    WaitedExtends(DataState(s.now.view, s.dangling), s.leads, known, n.Hash, e.rest);
    var d := Waited(DataState(s.now.view, s.dangling), s.leads, known, n.Hash, e.rest).0;
    forall i | 0 <= i < k ensures CanFollow(history, d.view, longer, i) {
      SameFollow(history, s.now.view, d.view, path, [n], i);
    }
    StillRecorded(history, base, path, s.now, s.now.(view := d.view), n, k);
    if n.Hash in d.view {
      JudgedMeaning(history, base, longer, s.now.(view := d.view), prev);
    }
  }

  /** `path` but for its last node was applied. */
  lemma JudgedMeaning(history: seq<Record>, base: BlockChainNode, path: seq<BlockChainNode>, now: Snapshot,
                      prev: BlockChainNode)
    requires path != [] && prev == ([base] + path)[|path| - 1]
    requires Recorded(history, base, path, now, |path| - 1) && path[|path| - 1].Hash in now.view
    requires path[|path| - 1] != base && path[|path| - 1] !in path[..|path| - 1]
    ensures var k, n := |path| - 1, path[|path| - 1];
            var (outcome, now') := Judged(now, prev, n);
            && (outcome == Done <==> CanFollow(history, now.view, path, k))
            && (outcome == Crashed ==> GroupCrashes(RecordOf(n, now.view).blocks))
            && (outcome == BadBlock ==> !GroupCrashes(RecordOf(n, now.view).blocks))
            && outcome != Waiting && now'.view == now.view
            && Recorded(history, base, path, now', if outcome == Done then k + 1 else k)
            && if outcome == Done then now'.histories == now.histories[n := now'.histories[n]] else now' == now
  {
    hide Acceptable, Replay, GroupCrashes;
    var k, n := |path| - 1, path[|path| - 1];
    var before := HistoryTo(history, now.view, path, k);
    assert now.histories[prev] == before;
    assert HistoryTo(history, now.view, path, k + 1) == before + [RecordOf(n, now.view)];
  }

  /** What is known of a call that had to build `path` above `base`. */
  ghost predicate RightEnding(s: Store, base: BlockChainNode, path: seq<BlockChainNode>, e: Ending) {
    && base in s.now.histories && Explained(s.now.histories[base], path, e)
    && Recorded(s.now.histories[base], base, path, e.store.now, |e.applied|)
    && KeepsHistories(s.now, e.store.now, set m | m in e.applied)
  }

  /** Every call is explained, for every tree, branch, history and arrival; nothing but the nodes it applied becomes
      verified, and no other history changes. */
  lemma {:induction false} BuildMeaning(nodes: NodeMap, s: Store, n: BlockChainNode, arrivals: seq<Group>)
    requires Consistent(nodes, s.now) && n in nodes.Values && AllValid(arrivals)
    ensures RightEnding(s, BaseOf(nodes, s.now.upToDate, n), PathTo(nodes, s.now.upToDate, n),
                        BuiltDown(nodes, s, n, arrivals))
    decreases n.Block.BlockCount
  {
    hide Consistent, Explained, Recorded, Finished, RightEnding;
    PathShape(nodes, s.now, n);
    if n in s.now.upToDate {
      NothingToDo(s, n, arrivals);
    } else {
      ParentStands(nodes, s.now, n);
      var prev, t := Parent(nodes, n), Found(s, n);
      FoundExtends(s, n);
      ConsistentGrows(nodes, s.now, t.now.view);
      PathShape(nodes, s.now, prev);
      BuildMeaning(nodes, t, prev, arrivals);
      var base, path := BaseOf(nodes, s.now.upToDate, prev), PathTo(nodes, s.now.upToDate, prev);
      OneMoreOnPath(nodes.Keys, s, t, base, path, BuiltDown(nodes, t, prev, arrivals), n);
    }
  }

  /** `path` was built after data was looked for in vain or found, and `n` is next. */
  lemma OneMoreOnPath(known: set<Digest>, s: Store, t: Store, base: BlockChainNode, path: seq<BlockChainNode>,
                      e: Ending, n: BlockChainNode)
    requires RightEnding(t, base, path, e) && AllValid(e.rest) && n !in path && n != base
    requires t.now == s.now.(view := t.now.view) && Extends(s.now.view, t.now.view)
    ensures RightEnding(s, base, path + [n], if e.outcome != Done then e else
                Finished(known, e.store, ([base] + path)[|path|], n, e.rest, e.applied))
  {
    hide Explained, Recorded, Finished, KeepsHistories;
    var history := s.now.histories[base];
    MoreDataKeeps(s.now, t.now);
    var before := set m | m in e.applied;
    KeepsOn(s.now, t.now, e.store.now, {}, before);
    assert {} + before == before;
    if e.outcome == Done {
      AllApplied(history, path, e);
      FinishedMeaning(known, history, base, path, e, n);
      var e' := Finished(known, e.store, ([base] + path)[|path|], n, e.rest, e.applied);
      KeepsOn(s.now, e.store.now, e'.store.now, before, if e'.applied == e.applied then {} else {n});
      assert (set m | m in e'.applied) == before + if e'.applied == e.applied then {} else {n};
    } else {
      StillStopped(history, path, n, e);
      RecordedOn(history, base, path, e.store.now, n, |e.applied|);
    }
  }

  lemma MoreDataKeeps(a: Snapshot, b: Snapshot)
    requires b == a.(view := b.view) && Extends(a.view, b.view)
    ensures KeepsHistories(a, b, {})
  {
  }

  lemma KeepsOn(a: Snapshot, b: Snapshot, c: Snapshot, x: set<BlockChainNode>, y: set<BlockChainNode>)
    requires KeepsHistories(a, b, x) && KeepsHistories(b, c, y)
    ensures KeepsHistories(a, c, x + y)
  {
  }

  lemma AllApplied(history: seq<Record>, path: seq<BlockChainNode>, e: Ending)
    requires Explained(history, path, e) && e.outcome == Done
    ensures |e.applied| == |path|
  {
    hide Stopped, CanFollow;
  }

  lemma NothingToDo(s: Store, n: BlockChainNode, arrivals: seq<Group>)
    requires n in s.now.histories
    ensures RightEnding(s, n, [], Ending(Done, s, arrivals, []))
  {
    BeginningRecorded(s.now.histories[n], n, s.now);
  }

  lemma RecordedOn(history: seq<Record>, base: BlockChainNode, path: seq<BlockChainNode>, now: Snapshot,
                   n: BlockChainNode, k: nat)
    requires Recorded(history, base, path, now, k)
    ensures Recorded(history, base, path + [n], now, k)
  {
    StillRecorded(history, base, path, now, now, n, k);
  }

  // ---------------------------------------------------------------- consequences

  /** A node right above one that is up to date, when its data is there and acceptable. */
  lemma BuildNext(nodes: NodeMap, s: Store, n: BlockChainNode, arrivals: seq<Group>)
    requires AllValid(arrivals) && n !in s.now.upToDate && HasParent(nodes, n) && n.Hash in s.now.view
    requires Parent(nodes, n) in s.now.upToDate && Parent(nodes, n) in s.now.histories
    requires Acceptable(RecordOf(n, s.now.view).blocks, Replay(s.now.histories[Parent(nodes, n)]))
    ensures BuiltDown(nodes, s, n, arrivals)
         == Ending(Done, s.(now := Advanced(s.now, Parent(nodes, n), n)), arrivals, [n])
  {
    hide Acceptable, Replay, GroupCrashes, Advanced;
    var prev := Parent(nodes, n);
    assert BuiltDown(nodes, s, prev, arrivals) == Ending(Done, s, arrivals, []);
    WaitedExtends(DataState(s.now.view, s.dangling), s.leads, nodes.Keys, n.Hash, arrivals);
    FinishedIs(nodes.Keys, s, prev, n, arrivals, [], DataState(s.now.view, s.dangling), arrivals);
  }

  /** A node becomes up to date exactly if, from above the last node that is up to date on, every block on the way to
      it has its data in the end and is accepted after the blocks before it. */
  lemma DoneExactly(nodes: NodeMap, s: Store, n: BlockChainNode, arrivals: seq<Group>)
    requires Consistent(nodes, s.now) && n in nodes.Values && AllValid(arrivals)
    ensures var base, path := BaseOf(nodes, s.now.upToDate, n), PathTo(nodes, s.now.upToDate, n);
            var e := BuiltDown(nodes, s, n, arrivals);
            && base in s.now.histories
            && (e.outcome == Done <==>
                  forall i :: 0 <= i < |path| ==> CanFollow(s.now.histories[base], e.store.now.view, path, i))
  {
    hide Consistent, BuiltDown, CanFollow, Recorded, KeepsHistories, Explained;
    BuildMeaning(nodes, s, n, arrivals);
    var base, path := BaseOf(nodes, s.now.upToDate, n), PathTo(nodes, s.now.upToDate, n);
    AllFollow(s.now.histories[base], path, BuiltDown(nodes, s, n, arrivals));
  }

  lemma AllFollow(history: seq<Record>, path: seq<BlockChainNode>, e: Ending)
    requires Explained(history, path, e)
    ensures e.outcome == Done <==> forall i :: 0 <= i < |path| ==> CanFollow(history, e.store.now.view, path, i)
  {
    hide Acceptable, Replay, HistoryTo, GroupCrashes;
    var k := |e.applied|;
    if k < |path| {
      assert Stopped(history, path, e, k);
      assert !CanFollow(history, e.store.now.view, path, k);
    }
  }

  /** A node that is accepted after the nodes before it were built. */
  lemma BuildOn(nodes: NodeMap, s: Store, n: BlockChainNode, arrivals: seq<Group>, e: Ending, d: DataState,
                rest: seq<Group>)
    requires AllValid(arrivals) && n !in s.now.upToDate && HasParent(nodes, n)
    requires e == BuiltDown(nodes, Found(s, n), Parent(nodes, n), arrivals) && e.outcome == Done
    requires (d, rest)
          == Waited(DataState(e.store.now.view, e.store.dangling), e.store.leads, nodes.Keys, n.Hash, e.rest)
    requires n.Hash in d.view && Parent(nodes, n) in e.store.now.histories
    requires Acceptable(RecordOf(n, d.view).blocks, Replay(e.store.now.histories[Parent(nodes, n)]))
    ensures var now := Advanced(e.store.now.(view := d.view), Parent(nodes, n), n);
            BuiltDown(nodes, s, n, arrivals)
            == Ending(Done, Store(now, d.dangling, e.store.leads), rest, e.applied + [n])
  {
    hide Acceptable, Replay, GroupCrashes, Advanced, Finished;
    FinishedIs(nodes.Keys, e.store, Parent(nodes, n), n, e.rest, e.applied, d, rest);
  }

  /** The data that waits for the nodes of a path is given to them. */
  ghost function Gathered(s: Store, path: seq<BlockChainNode>): Store
    decreases |path|
  {
    if path == [] then s else Gathered(Found(s, path[|path| - 1]), path[..|path| - 1])
  }

  ghost predicate OnPath(path: seq<BlockChainNode>, h: Digest, dangling: map<Digest, Group>) {
    exists n :: n in path && n.Hash == h && n.Block.MerkleRoot in dangling
  }

  /** Every node of the path that has no data gets what waits under its Merkle root, nothing else changes, and the leads
      to what was given away are deleted. */
  lemma {:induction false} GatheredMeaning(s: Store, path: seq<BlockChainNode>)
    requires forall m, n :: m in path && n in path && m.Hash == n.Hash ==> m == n
    ensures var t := Gathered(s, path);
            && t == Store(s.now.(view := t.now.view), s.dangling, t.leads)
            && (forall h :: h in t.now.view <==> h in s.now.view || OnPath(path, h, s.dangling))
            && (forall h :: h in s.now.view ==> t.now.view[h] == s.now.view[h])
            && (forall n :: n in path && n.Hash !in s.now.view && n.Block.MerkleRoot in s.dangling ==>
                  t.now.view[n.Hash] == s.dangling[n.Block.MerkleRoot])
            && (forall m :: m in t.leads ==> m in s.leads && t.leads[m] == s.leads[m])
            && (forall m :: m in s.leads ==>
                  (m in t.leads <==> !GivenAway(s, path, m)))
    decreases |path|
  {
    if path != [] {
      var k := |path| - 1;
      var front, n := path[..k], path[k];
      assert path == front + [n];
      var u := Found(s, n);
      GatheredMeaning(u, front);
      var t := Gathered(s, path);
      forall h ensures h in t.now.view <==> h in s.now.view || OnPath(path, h, s.dangling) {
        assert OnPath(path, h, s.dangling) <==>
               OnPath(front, h, s.dangling) || (n.Hash == h && n.Block.MerkleRoot in s.dangling);
      }
      forall m | m in s.leads ensures m in t.leads <==> !GivenAway(s, path, m) {
        assert GivenAway(s, path, m) <==> GivenAway(s, front, m) || GivenAway(s, [n], m);
      }
    }
  }

  /** The data under this root is given to a node of the path. */
  ghost predicate GivenAway(s: Store, path: seq<BlockChainNode>, m: Digest) {
    exists n :: n in path && n.Hash !in s.now.view && n.Block.MerkleRoot == m && m in s.dangling
  }

  lemma {:induction false} NothingArrives(nodes: NodeMap, s: Store, n: BlockChainNode)
    requires Consistent(nodes, s.now) && n in nodes.Values
    ensures var e, t := BuiltDown(nodes, s, n, []), Gathered(s, PathTo(nodes, s.now.upToDate, n));
            e.rest == [] && e.store.now.view == t.now.view && e.store.leads == t.leads && e.store.dangling == s.dangling
    decreases n.Block.BlockCount
  {
    hide Consistent, Judged;
    if n !in s.now.upToDate {
      ParentStands(nodes, s.now, n);
      var prev, t := Parent(nodes, n), Found(s, n);
      FoundExtends(s, n);
      ConsistentGrows(nodes, s.now, t.now.view);
      NothingArrives(nodes, t, prev);
      JudgedKeepsData(nodes.Keys, BuiltDown(nodes, t, prev, []), prev, n);
      var path := PathTo(nodes, s.now.upToDate, prev);
      assert (path + [n])[..|path|] == path;
    }
  }

  /** Before the call, when nothing arrives meanwhile.  The data afterwards is what was held and, for the nodes on the
      way without data, what waited under their Merkle roots; and the call ends in `Done` exactly if with that data
      every block on the way is there, and is accepted after the blocks before it. */
  lemma DoneExactlyNow(nodes: NodeMap, s: Store, n: BlockChainNode)
    requires Consistent(nodes, s.now) && n in nodes.Values
    ensures var base, path := BaseOf(nodes, s.now.upToDate, n), PathTo(nodes, s.now.upToDate, n);
            var e := BuiltDown(nodes, s, n, []);
            var view, view' := s.now.view, e.store.now.view;
            && base in s.now.histories
            && (forall h :: h in view' <==>
                  h in view || exists m :: m in path && m.Hash == h && m.Block.MerkleRoot in s.dangling)
            && (forall h :: h in view ==> view'[h] == view[h])
            && (forall m :: m in path && m.Hash !in view && m.Block.MerkleRoot in s.dangling ==>
                  view'[m.Hash] == s.dangling[m.Block.MerkleRoot])
            && e.store.dangling == s.dangling
            && (forall r :: r in s.leads ==> (r in e.store.leads <==>
                  !exists m :: m in path && m.Hash !in view && m.Block.MerkleRoot == r && r in s.dangling))
            && (forall r :: r in e.store.leads ==> r in s.leads && e.store.leads[r] == s.leads[r])
            && (e.outcome == Done <==>
                  forall i :: 0 <= i < |path| ==> CanFollow(s.now.histories[base], view', path, i))
  {
    hide Consistent, BuiltDown, CanFollow, Gathered;
    DoneExactly(nodes, s, n, []);
    NothingArrives(nodes, s, n);
    PathHashes(nodes, s.now, n);
    GatheredMeaning(s, PathTo(nodes, s.now.upToDate, n));
  }

  /** No two nodes of a path have the same hash. */
  lemma PathHashes(nodes: NodeMap, now: Snapshot, n: BlockChainNode)
    requires Consistent(nodes, now) && n in nodes.Values
    ensures var path := PathTo(nodes, now.upToDate, n);
            forall a, b :: a in path && b in path && a.Hash == b.Hash ==> a == b
  {
    hide VerifiedIn;
    PathShape(nodes, now, n);
    var path := PathTo(nodes, now.upToDate, n);
    forall a, b | a in path && b in path && a.Hash == b.Hash ensures a == b {
      assert StandsIn(nodes, now, a) && StandsIn(nodes, now, b);
    }
  }

  lemma JudgedKeepsData(known: set<Digest>, e: Ending, prev: BlockChainNode, n: BlockChainNode)
    requires e.rest == []
    ensures var e' := Finished(known, e.store, prev, n, [], e.applied);
            e'.rest == [] && e'.store.now.view == e.store.now.view
  {
    hide Acceptable, Replay, GroupCrashes;
  }

  /** How many blocks lie between a node and the savepoint below it. */
  function StepBound(n: BlockChainNode): int {
    (n.Block.BlockCount - 1) % 5 + 1
  }

  /** After a verified node at most five blocks have to be applied. */
  lemma {:induction false} PathIsShort(nodes: NodeMap, now: Snapshot, n: BlockChainNode)
    requires Consistent(nodes, now) && n in nodes.Values
    requires n !in now.upToDate && HasParent(nodes, n) && Parent(nodes, n) in now.histories
    ensures |PathTo(nodes, now.upToDate, n)| <= StepBound(n) <= 5
    decreases n.Block.BlockCount
  {
    hide StandsIn, Acceptable, Replay;
    ParentStands(nodes, now, n);
    var prev := Parent(nodes, n);
    assert VerifiedIn(nodes, now, prev);
    if prev !in now.upToDate {
      ParentStands(nodes, now, prev);
      PathIsShort(nodes, now, prev);
    }
  }

  /** A verified node can be built again, with the history it has. */
  lemma {:induction false} VerifiedFollows(nodes: NodeMap, now: Snapshot, view: View, n: BlockChainNode)
    requires Consistent(nodes, now) && n in now.histories && Extends(now.view, view)
    ensures var base, path := BaseOf(nodes, now.upToDate, n), PathTo(nodes, now.upToDate, n);
            && base in now.histories && HeldUpTo(view, path, |path|)
            && now.histories[n] == HistoryTo(now.histories[base], view, path, |path|)
            && forall i :: 0 <= i < |path| ==> path[i] in now.histories && CanFollow(now.histories[base], view, path, i)
    decreases n.Block.BlockCount
  {
    hide StandsIn, Acceptable, Replay;
    if n !in now.upToDate {
      ParentStands(nodes, now, n);
      var prev := Parent(nodes, n);
      assert VerifiedIn(nodes, now, n);
      VerifiedFollows(nodes, now, view, prev);
      var base, path := BaseOf(nodes, now.upToDate, prev), PathTo(nodes, now.upToDate, prev);
      var history, k := now.histories[base], |path|;
      forall i | 0 <= i < k ensures CanFollow(history, view, path + [n], i) {
        SameFollow(history, view, view, path, [n], i);
      }
      SameHistory(history, view, view, path, [n], k);
      assert HistoryTo(history, view, path + [n], k + 1)
          == HistoryTo(history, view, path + [n], k) + [RecordOf(n, view)];
    }
  }

  /** A node that was verified once never fails again. */
  lemma VerifiedAgain(nodes: NodeMap, s: Store, n: BlockChainNode, arrivals: seq<Group>)
    requires Consistent(nodes, s.now) && n in s.now.histories && AllValid(arrivals)
    ensures BuiltDown(nodes, s, n, arrivals).outcome == Done
  {
    hide BuiltDown, CanFollow, StandsIn, VerifiedIn, Explained, Recorded;
    BuildMeaning(nodes, s, n, arrivals);
    DoneExactly(nodes, s, n, arrivals);
    VerifiedFollows(nodes, s.now, BuiltDown(nodes, s, n, arrivals).store.now.view, n);
  }

  lemma FinishedMoves(known: set<Digest>, e: Ending, prev: BlockChainNode, n: BlockChainNode)
    requires AllValid(e.rest)
    ensures var now, e' := e.store.now, Finished(known, e.store, prev, n, e.rest, e.applied);
            var t := now.(view := e'.store.now.view);
            && Extends(now.view, t.view)
            && if e'.outcome != Done then e'.applied == e.applied && e'.store.now == t
               else
                 && e'.applied == e.applied + [n] && prev in now.histories && n.Hash in t.view
                 && e'.store.now == Advanced(t, prev, n)
  {
    hide Acceptable, Replay, GroupCrashes, Waited;
    WaitedExtends(DataState(e.store.now.view, e.store.dangling), e.store.leads, known, n.Hash, e.rest);
  }

  /** No history of a verified node ever changes. */
  lemma {:induction false} HistoriesStay(nodes: NodeMap, s: Store, n: BlockChainNode, arrivals: seq<Group>)
    requires Consistent(nodes, s.now) && n in nodes.Values && AllValid(arrivals)
    ensures var e := BuiltDown(nodes, s, n, arrivals);
            Grows(s.now.histories, e.store.now.histories) && Extends(s.now.view, e.store.now.view)
    decreases n.Block.BlockCount
  {
    hide StandsIn, Acceptable, Replay, Finished;
    if n !in s.now.upToDate {
      ParentStands(nodes, s.now, n);
      var prev, t := Parent(nodes, n), Found(s, n);
      FoundExtends(s, n);
      ConsistentGrows(nodes, s.now, t.now.view);
      HistoriesStay(nodes, t, prev, arrivals);
      var e := BuiltDown(nodes, t, prev, arrivals);
      assert n in s.now.histories ==> VerifiedIn(nodes, s.now, n);
      FinishedMoves(nodes.Keys, e, prev, n);
    }
  }

  /** `n` is up to date exactly after `Done`; what was applied is no higher than `n`, and only that became up to date;
      and the last of it is the head if it is higher. */
  lemma {:induction false} Movement(nodes: NodeMap, s: Store, n: BlockChainNode, arrivals: seq<Group>)
    requires AllValid(arrivals)
    ensures var e := BuiltDown(nodes, s, n, arrivals);
            && (e.outcome == Done <==> n in e.store.now.upToDate)
            && (forall m :: m in e.applied ==> m.Block.BlockCount <= n.Block.BlockCount)
            && (forall m :: m in e.store.now.upToDate ==> m in s.now.upToDate || m in e.applied)
            && HeadAfter(s.now, e.applied, e.store.now)
    decreases n.Block.BlockCount
  {
    hide Finished, HeadAfter;
    if n !in s.now.upToDate && HasParent(nodes, n) {
      var prev, t := Parent(nodes, n), Found(s, n);
      Movement(nodes, t, prev, arrivals);
      var e := BuiltDown(nodes, t, prev, arrivals);
      FinishedMoves(nodes.Keys, e, prev, n);
      HeadStays(s.now, t.now, e.applied, e.store.now);
      HeadOn(s.now, e.applied, e.store.now, BuiltDown(nodes, s, n, arrivals).store.now, n);
    } else {
      HeadStays(s.now, s.now, [], s.now);
    }
  }

  lemma HeadStays(a: Snapshot, a': Snapshot, applied: seq<BlockChainNode>, b: Snapshot)
    requires a.head == a'.head && a.height == a'.height
    ensures HeadAfter(a', applied, b) ==> HeadAfter(a, applied, b)
    ensures HeadAfter(a, [], a)
  {
  }

  lemma HeadOn(a: Snapshot, applied: seq<BlockChainNode>, b: Snapshot, c: Snapshot, n: BlockChainNode)
    requires HeadAfter(a, applied, b) && forall m :: m in applied ==> m.Block.BlockCount < n.Block.BlockCount
    ensures c.head == b.head && c.height == b.height ==> HeadAfter(a, applied, c)
    ensures c.head == Headed(b, n).head && c.height == Headed(b, n).height ==> HeadAfter(a, applied + [n], c)
  {
    if applied != [] {
      assert applied[|applied| - 1] in applied;
    }
  }

  /** Data only arrives, and every node that was applied has its data. */
  lemma {:induction false} DataStays(nodes: NodeMap, s: Store, n: BlockChainNode, arrivals: seq<Group>)
    requires AllValid(arrivals)
    ensures var e := BuiltDown(nodes, s, n, arrivals);
            && Extends(s.now.view, e.store.now.view)
            && forall m :: m in e.applied ==> m.Hash in e.store.now.view
    decreases n.Block.BlockCount
  {
    hide Finished;
    if n !in s.now.upToDate && HasParent(nodes, n) {
      var prev, t := Parent(nodes, n), Found(s, n);
      DataStays(nodes, t, prev, arrivals);
      FinishedMoves(nodes.Keys, BuiltDown(nodes, t, prev, arrivals), prev, n);
    }
  }

  ghost predicate HeadAfter(a: Snapshot, applied: seq<BlockChainNode>, b: Snapshot) {
    var c := if applied == [] then a else Headed(a, applied[|applied| - 1]);
    b.head == c.head && b.height == c.height
  }
}
