/**
 The edges of an account update: what the mutation records, the clear and add lists `sqlSave`
 builds from it, and what replaying them (clears first, then adds) does to the stored edges.
 */
module UpdateEdges {
  import opened Options

  /** The key of a group, proxy or usage log. */
  datatype ID = ID(n: int)

  /** What a mutation records about a to-many edge. */
  datatype ManyEdge = ManyEdge(added: set<ID>, removed: set<ID>, cleared: bool)

  /** The proxy edge; its column can also be cleared as a field. */
  datatype OneEdge = OneEdge(target: Option<ID>, cleared: bool, fieldCleared: bool)

  datatype Mutation = Mutation(groups: ManyEdge, proxy: OneEdge, usageLogs: ManyEdge)

  datatype Edge = GroupsEdge | ProxyEdge | UsageLogsEdge

  /** An edge specification; without targets a clear removes everything. */
  datatype EdgeSpec = EdgeSpec(edge: Edge, targets: seq<ID>)

  /** The stored edges of one account. */
  datatype Stored = Stored(groups: set<ID>, proxy: Option<ID>, usageLogs: set<ID>)

  function Elements(s: seq<ID>): set<ID> {
    set x | x in s
  }

  /** Edge specifications without the order of their targets, which Go's maps leave open. */
  datatype Change = Change(edge: Edge, targets: set<ID>)

  function Changes(specs: seq<EdgeSpec>): (cs: seq<Change>)
    ensures |cs| == |specs|
  {
    seq(|specs|, i requires 0 <= i < |specs| => Change(specs[i].edge, Elements(specs[i].targets)))
  }

  lemma ChangesAppend(specs: seq<EdgeSpec>, one: EdgeSpec)
    ensures Changes(specs + [one]) == Changes(specs) + [Change(one.edge, Elements(one.targets))]
  {
  }

  function When(condition: bool, edge: Edge, targets: set<ID>): seq<Change> {
    if condition then [Change(edge, targets)] else []
  }

  function ManyClears(m: ManyEdge, edge: Edge): seq<Change> {
    When(m.cleared, edge, {}) + When(m.removed != {} && !m.cleared, edge, m.removed)
  }

  function ManyAdds(m: ManyEdge, edge: Edge): seq<Change> {
    When(m.added != {}, edge, m.added)
  }

  function Clears(m: Mutation): seq<Change> {
    ManyClears(m.groups, GroupsEdge)
    + When(m.proxy.cleared || m.proxy.fieldCleared, ProxyEdge, {})
    + ManyClears(m.usageLogs, UsageLogsEdge)
  }

  function Adds(m: Mutation): seq<Change> {
    ManyAdds(m.groups, GroupsEdge)
    + (if m.proxy.target.Some? then [Change(ProxyEdge, {m.proxy.target.value})] else [])
    + ManyAdds(m.usageLogs, UsageLogsEdge)
  }

  /** The keys of a set, in whatever order they come. */
  method Keys(s: set<ID>) returns (ids: seq<ID>)
    ensures Elements(ids) == s
    ensures ids == [] <==> s == {}
  {
    ids := [];
    var rest := s;
    while rest != {}
      invariant rest <= s
      invariant forall x :: x in ids <==> x in s && x !in rest
    {
      var id :| id in rest;
      ids := ids + [id];
      rest := rest - {id};
    }
    if ids != [] {
      assert ids[0] in s;
    }
  }

  /** Appends the specification of a to-many edge to the two lists. */
  method ManyEdgeSpecs(m: ManyEdge, edge: Edge, clear: seq<EdgeSpec>, add: seq<EdgeSpec>)
    returns (clear': seq<EdgeSpec>, add': seq<EdgeSpec>)
    ensures Changes(clear') == Changes(clear) + ManyClears(m, edge)
    ensures Changes(add') == Changes(add) + ManyAdds(m, edge)
  {
    clear', add' := clear, add;
    if m.cleared {
      ChangesAppend(clear', EdgeSpec(edge, []));
      assert Elements([]) == {};
      clear' := clear' + [EdgeSpec(edge, [])];
    }
    var removed := Keys(m.removed);
    if |removed| > 0 && !m.cleared {
      ChangesAppend(clear', EdgeSpec(edge, removed));
      clear' := clear' + [EdgeSpec(edge, removed)];
    }
    var added := Keys(m.added);
    if |added| > 0 {
      ChangesAppend(add', EdgeSpec(edge, added));
      add' := add' + [EdgeSpec(edge, added)];
    }
  }

  /** The edge part of `sqlSave`. */
  method BuildEdges(m: Mutation) returns (clear: seq<EdgeSpec>, add: seq<EdgeSpec>)
    ensures Changes(clear) == Clears(m) && Changes(add) == Adds(m)
  {
    clear, add := ManyEdgeSpecs(m.groups, GroupsEdge, [], []);
    ghost var clears, adds := Changes(clear), Changes(add);
    if m.proxy.cleared || m.proxy.fieldCleared {
      ChangesAppend(clear, EdgeSpec(ProxyEdge, []));
      assert Elements([]) == {};
      clear := clear + [EdgeSpec(ProxyEdge, [])];
    }
    if m.proxy.target.Some? {
      ChangesAppend(add, EdgeSpec(ProxyEdge, [m.proxy.target.value]));
      assert Elements([m.proxy.target.value]) == {m.proxy.target.value};
      add := add + [EdgeSpec(ProxyEdge, [m.proxy.target.value])];
    }
    assert Changes(clear) == clears + When(m.proxy.cleared || m.proxy.fieldCleared, ProxyEdge, {});
    clear, add := ManyEdgeSpecs(m.usageLogs, UsageLogsEdge, clear, add);
  }

  // ------------------------------------------------------------------ replaying the lists

  function ClearFrom(stored: set<ID>, targets: set<ID>): set<ID> {
    if targets == {} then {} else stored - targets
  }

  function ClearOne(s: Stored, c: Change): Stored {
    match c.edge
    case GroupsEdge => s.(groups := ClearFrom(s.groups, c.targets))
    case UsageLogsEdge => s.(usageLogs := ClearFrom(s.usageLogs, c.targets))
    case ProxyEdge => s.(proxy := None)
  }

  /** A to-one edge is set to the one key it is given. */
  ghost function AddOne(s: Stored, c: Change): Stored {
    match c.edge
    case GroupsEdge => s.(groups := s.groups + c.targets)
    case UsageLogsEdge => s.(usageLogs := s.usageLogs + c.targets)
    case ProxyEdge =>
      if exists x :: c.targets == {x} then
        var x :| c.targets == {x};
        s.(proxy := Some(x))
      else s
  }

  /** All clears, then all adds. */
  ghost function Replay(s: Stored, clears: seq<Change>, adds: seq<Change>): Stored
    decreases |clears|, |adds|
  {
    if clears != [] then Replay(ClearOne(s, clears[0]), clears[1..], adds)
    else if adds != [] then Replay(AddOne(s, adds[0]), [], adds[1..])
    else s
  }

  lemma {:induction false} ReplayClears(s: Stored, a: seq<Change>, b: seq<Change>, adds: seq<Change>)
    ensures Replay(s, a + b, adds) == Replay(Replay(s, a, []), b, adds)
    decreases |a|
  {
    if a == [] {
      assert a + b == b;
    } else {
      assert (a + b)[0] == a[0] && (a + b)[1..] == a[1..] + b;
      ReplayClears(ClearOne(s, a[0]), a[1..], b, adds);
    }
  }

  lemma {:induction false} ReplayAdds(s: Stored, a: seq<Change>, b: seq<Change>)
    ensures Replay(s, [], a + b) == Replay(Replay(s, [], a), [], b)
    decreases |a|
  {
    if a == [] {
      assert a + b == b;
    } else {
      assert (a + b)[0] == a[0] && (a + b)[1..] == a[1..] + b;
      ReplayAdds(AddOne(s, a[0]), a[1..], b);
    }
  }

  /** The stored to-many edge after an update's clears. */
  function ManyCleared(stored: set<ID>, m: ManyEdge): set<ID> {
    if m.cleared then {} else stored - m.removed
  }

  /** The stored to-many edge after an update. */
  function ManyAfter(stored: set<ID>, m: ManyEdge): set<ID> {
    ManyCleared(stored, m) + m.added
  }

  function ProxyAfter(stored: Option<ID>, m: OneEdge): Option<ID> {
    if m.target.Some? then m.target else if m.cleared || m.fieldCleared then None else stored
  }

  lemma ReplayWhen(s: Stored, condition: bool, edge: Edge, targets: set<ID>)
    ensures Replay(s, When(condition, edge, targets), []) == if condition then ClearOne(s, Change(edge, targets)) else s
    ensures Replay(s, [], When(condition, edge, targets)) == if condition then AddOne(s, Change(edge, targets)) else s
  {
    var one := [Change(edge, targets)];
    var none: seq<Change> := [];
    assert one[1..] == none;
    assert Replay(AddOne(s, one[0]), none, none) == AddOne(s, one[0]);
    assert Replay(ClearOne(s, one[0]), none, none) == ClearOne(s, one[0]);
  }

  lemma ReplayManyClears(s: Stored, m: ManyEdge, edge: Edge)
    requires edge != ProxyEdge
    ensures Replay(s, ManyClears(m, edge), []) ==
            if edge.GroupsEdge? then s.(groups := if m.cleared then {} else s.groups - m.removed)
            else s.(usageLogs := if m.cleared then {} else s.usageLogs - m.removed)
  {
    var removing := m.removed != {} && !m.cleared;
    ReplayClears(s, When(m.cleared, edge, {}), When(removing, edge, m.removed), []);
    ReplayWhen(s, m.cleared, edge, {});
    ReplayWhen(Replay(s, When(m.cleared, edge, {}), []), removing, edge, m.removed);
  }

  /** The stored edges after the clear list. */
  lemma ReplayAllClears(s: Stored, m: Mutation)
    ensures Replay(s, Clears(m), []) ==
            Stored(ManyCleared(s.groups, m.groups),
                   if m.proxy.cleared || m.proxy.fieldCleared then None else s.proxy,
                   ManyCleared(s.usageLogs, m.usageLogs))
  {
    var proxyClears := When(m.proxy.cleared || m.proxy.fieldCleared, ProxyEdge, {});
    var groupClears, logClears := ManyClears(m.groups, GroupsEdge), ManyClears(m.usageLogs, UsageLogsEdge);
    var s1 := Replay(s, groupClears, []);
    var s2 := Replay(s1, proxyClears, []);
    ReplayManyClears(s, m.groups, GroupsEdge);
    ReplayWhen(s1, m.proxy.cleared || m.proxy.fieldCleared, ProxyEdge, {});
    ReplayManyClears(s2, m.usageLogs, UsageLogsEdge);
    ReplayClears(s, groupClears + proxyClears, logClears, []);
    ReplayClears(s, groupClears, proxyClears, []);
  }

  /** The stored edges after the add list. */
  lemma ReplayAllAdds(s: Stored, m: Mutation)
    ensures Replay(s, [], Adds(m)) ==
            Stored(s.groups + m.groups.added,
                   if m.proxy.target.Some? then m.proxy.target else s.proxy,
                   s.usageLogs + m.usageLogs.added)
  {
    var proxyAdds := if m.proxy.target.Some? then [Change(ProxyEdge, {m.proxy.target.value})] else [];
    var groupAdds, logAdds := ManyAdds(m.groups, GroupsEdge), ManyAdds(m.usageLogs, UsageLogsEdge);
    var s1 := Replay(s, [], groupAdds);
    var s2 := Replay(s1, [], proxyAdds);
    ReplayWhen(s, m.groups.added != {}, GroupsEdge, m.groups.added);
    if m.proxy.target.Some? {
      ReplayWhen(s1, true, ProxyEdge, {m.proxy.target.value});
    }
    ReplayWhen(s2, m.usageLogs.added != {}, UsageLogsEdge, m.usageLogs.added);
    ReplayAdds(s, groupAdds + proxyAdds, logAdds);
    ReplayAdds(s, groupAdds, proxyAdds);
  }

  /**
   Replaying an update's clear list and then its add list gives, for each to-many edge, (nothing
   if it was cleared, else the stored keys minus the removed ones) plus the added ones.
   */
  lemma ReplayMeaning(s: Stored, m: Mutation)
    ensures Replay(s, Clears(m), Adds(m)) ==
            Stored(ManyAfter(s.groups, m.groups), ProxyAfter(s.proxy, m.proxy), ManyAfter(s.usageLogs, m.usageLogs))
  {
    assert Clears(m) + [] == Clears(m);
    ReplayClears(s, Clears(m), [], Adds(m));
    ReplayAllClears(s, m);
    ReplayAllAdds(Replay(s, Clears(m), []), m);
  }

  // ------------------------------------------------------------------ sequences of edge calls

  datatype EdgeCall = Add(ids: set<ID>) | Remove(ids: set<ID>) | Clear | Reset

  class EdgeMutation {
    var added: set<ID>
    var removed: set<ID>
    var cleared: bool

    constructor ()
      ensures View() == ManyEdge({}, {}, false)
    {
      added, removed, cleared := {}, {}, false;
    }

    function View(): ManyEdge
      reads this
    {
      ManyEdge(added, removed, cleared)
    }

    method Call(c: EdgeCall)
      modifies this
      ensures View() == Recorded(old(View()), c)
    {
      match c
      case Add(ids) =>
        added := added + ids;
      case Remove(ids) =>
        added := added - ids;
        removed := removed + ids;
      case Clear =>
        cleared := true;
      case Reset =>
        added, removed, cleared := {}, {}, false;
    }
  }

  function Recorded(m: ManyEdge, c: EdgeCall): ManyEdge {
    match c
    case Add(ids) => m.(added := m.added + ids)
    case Remove(ids) => m.(added := m.added - ids, removed := m.removed + ids)
    case Clear => m.(cleared := true)
    case Reset => ManyEdge({}, {}, false)
  }

  function RecordedAll(calls: seq<EdgeCall>): ManyEdge {
    if calls == [] then ManyEdge({}, {}, false)
    else Recorded(RecordedAll(calls[..|calls| - 1]), calls[|calls| - 1])
  }

  /** The calls made one after the other on the stored edge itself. */
  function OneByOne(stored: set<ID>, calls: seq<EdgeCall>): set<ID> {
    if calls == [] then stored
    else
      var before := OneByOne(stored, calls[..|calls| - 1]);
      match calls[|calls| - 1]
      case Add(ids) => before + ids
      case Remove(ids) => before - ids
      case Clear => {}
      case Reset => stored
  }

  /** A call after which an earlier addition of the key no longer matters. */
  predicate Settles(c: EdgeCall, id: ID) {
    match c
    case Add(ids) => id in ids
    case Remove(ids) => id in ids
    case Clear => false
    case Reset => true
  }

  /** The key was added, then everything was cleared, and the key was not touched again. */
  ghost predicate OutlivesClear(calls: seq<EdgeCall>, id: ID) {
    exists i, j ::
      0 <= i < j < |calls| && calls[i].Add? && id in calls[i].ids && calls[j].Clear? &&
      forall l :: i < l < |calls| ==> !Settles(calls[l], id)
  }

  /** The last call that settles a key, if it adds it, makes it recorded as added. */
  ghost predicate AddedLast(calls: seq<EdgeCall>, id: ID) {
    exists i :: 0 <= i < |calls| && calls[i].Add? && id in calls[i].ids &&
                forall l :: i < l < |calls| ==> !Settles(calls[l], id)
  }

  lemma {:induction false} AddedMeans(calls: seq<EdgeCall>, id: ID)
    ensures id in RecordedAll(calls).added <==> AddedLast(calls, id)
    decreases |calls|
  {
    if calls != [] {
      var n := |calls| - 1;
      var rest := calls[..n];
      AddedMeans(rest, id);
      AddedLastStep(calls, id);
    }
  }

  lemma AddedLastStep(calls: seq<EdgeCall>, id: ID)
    requires calls != []
    ensures var n := |calls| - 1;
            AddedLast(calls, id) <==>
              (calls[n].Add? && id in calls[n].ids) || (!Settles(calls[n], id) && AddedLast(calls[..n], id))
  {
    var n := |calls| - 1;
    var rest := calls[..n];
    if AddedLast(calls, id) {
      var i :| 0 <= i < |calls| && calls[i].Add? && id in calls[i].ids &&
               forall l :: i < l < |calls| ==> !Settles(calls[l], id);
      if i < n {
        assert rest[i] == calls[i] && forall l :: i < l < n ==> rest[l] == calls[l];
        assert !Settles(calls[n], id);
      }
    }
    if !Settles(calls[n], id) && AddedLast(rest, id) {
      var i :| 0 <= i < n && rest[i].Add? && id in rest[i].ids && forall l :: i < l < n ==> !Settles(rest[l], id);
      assert calls[i] == rest[i] && forall l :: i < l < n ==> calls[l] == rest[l];
    }
  }

  /** The same, one call at a time. */
  lemma OutlivesStep(calls: seq<EdgeCall>, id: ID)
    requires calls != []
    ensures var n := |calls| - 1;
            OutlivesClear(calls, id) <==>
              !Settles(calls[n], id) &&
              (OutlivesClear(calls[..n], id) || (calls[n].Clear? && AddedLast(calls[..n], id)))
  {
    var n := |calls| - 1;
    if OutlivesClear(calls, id) {
      OutlivesBefore(calls, id);
    }
    if !Settles(calls[n], id) && (OutlivesClear(calls[..n], id) || (calls[n].Clear? && AddedLast(calls[..n], id))) {
      OutlivesAfter(calls, id);
    }
  }

  lemma OutlivesBefore(calls: seq<EdgeCall>, id: ID)
    requires OutlivesClear(calls, id)
    ensures var n := |calls| - 1;
            !Settles(calls[n], id) && (OutlivesClear(calls[..n], id) || (calls[n].Clear? && AddedLast(calls[..n], id)))
  {
    var n := |calls| - 1;
    var rest := calls[..n];
    var i, j :| 0 <= i < j < |calls| && calls[i].Add? && id in calls[i].ids && calls[j].Clear? &&
                forall l :: i < l < |calls| ==> !Settles(calls[l], id);
    assert rest[i] == calls[i] && forall l :: i < l < n ==> rest[l] == calls[l];
    assert j < n ==> rest[j] == calls[j];
  }

  lemma OutlivesAfter(calls: seq<EdgeCall>, id: ID)
    requires calls != [] && !Settles(calls[|calls| - 1], id)
    requires OutlivesClear(calls[..|calls| - 1], id) ||
             (calls[|calls| - 1].Clear? && AddedLast(calls[..|calls| - 1], id))
    ensures OutlivesClear(calls, id)
  {
    var n := |calls| - 1;
    var rest := calls[..n];
    if OutlivesClear(rest, id) {
      var i, j :| 0 <= i < j < n && rest[i].Add? && id in rest[i].ids && rest[j].Clear? &&
                  forall l :: i < l < n ==> !Settles(rest[l], id);
      assert calls[i] == rest[i] && calls[j] == rest[j] && forall l :: i < l < n ==> calls[l] == rest[l];
    } else {
      var i :| 0 <= i < n && rest[i].Add? && id in rest[i].ids && forall l :: i < l < n ==> !Settles(rest[l], id);
      assert calls[i] == rest[i] && forall l :: i < l < n ==> calls[l] == rest[l];
    }
  }

  /**
   For every stored edge and every sequence of calls, the update leaves a key exactly if making
   the calls one by one leaves it, or it was added before a clear and not touched since.
   */
  lemma {:induction false} UpdateKeepsExactly(stored: set<ID>, calls: seq<EdgeCall>, id: ID)
    ensures id in ManyAfter(stored, RecordedAll(calls)) <==>
              id in OneByOne(stored, calls) || OutlivesClear(calls, id)
    ensures OutlivesClear(calls, id) ==> RecordedAll(calls).cleared && id in RecordedAll(calls).added &&
                                         id !in OneByOne(stored, calls)
    decreases |calls|
  {
    if calls != [] {
      var n := |calls| - 1;
      UpdateKeepsExactly(stored, calls[..n], id);
      AddedMeans(calls[..n], id);
      OutlivesStep(calls, id);
    }
  }

  ghost predicate NoneOutlives(calls: seq<EdgeCall>) {
    forall id :: !OutlivesClear(calls, id)
  }

  /** So the update equals the calls made one by one iff no addition outlives a clear. */
  lemma UpdateIsOneByOneIff(stored: set<ID>, calls: seq<EdgeCall>)
    ensures ManyAfter(stored, RecordedAll(calls)) == OneByOne(stored, calls) <==> NoneOutlives(calls)
  {
    forall id
      ensures id in ManyAfter(stored, RecordedAll(calls)) <==>
                id in OneByOne(stored, calls) || OutlivesClear(calls, id)
      ensures OutlivesClear(calls, id) ==> id !in OneByOne(stored, calls)
    {
      UpdateKeepsExactly(stored, calls, id);
    }
    if NoneOutlives(calls) {
      assert ManyAfter(stored, RecordedAll(calls)) == OneByOne(stored, calls);
    } else {
      var id :| OutlivesClear(calls, id);
      assert id in ManyAfter(stored, RecordedAll(calls)) && id !in OneByOne(stored, calls);
    }
  }

  /** Adding and then clearing keeps the added key. */
  lemma AddThenClearKeepsKey(stored: set<ID>, id: ID)
    ensures ManyAfter(stored, RecordedAll([Add({id}), Clear])) == {id}
    ensures OneByOne(stored, [Add({id}), Clear]) == {}
  {
    var calls := [Add({id}), Clear];
    var first: seq<EdgeCall> := [Add({id})];
    assert calls[..1] == first && first[..0] == [];
    assert RecordedAll(first) == ManyEdge({id}, {}, false);
  }

  // ------------------------------------------------------------------ sequences of proxy calls

  datatype ProxyCall = SetProxy(id: ID) | ClearProxy | ClearProxyID | ResetProxy | ResetProxyID

  class ProxyMutation {
    var target: Option<ID>
    var cleared: bool
    var fieldCleared: bool

    constructor ()
      ensures View() == OneEdge(None, false, false)
    {
      target, cleared, fieldCleared := None, false, false;
    }

    function View(): OneEdge
      reads this
    {
      OneEdge(target, cleared, fieldCleared)
    }

    /** Clearing the edge keeps the target; resetting it keeps the field's clear mark. */
    method Call(c: ProxyCall)
      modifies this
      ensures View() == RecordedProxy(old(View()), c)
    {
      match c
      case SetProxy(id) =>
        target := Some(id);
      case ClearProxy =>
        cleared := true;
        fieldCleared := true;
      case ClearProxyID =>
        target := None;
        fieldCleared := true;
      case ResetProxy =>
        target := None;
        cleared := false;
      case ResetProxyID =>
        target := None;
        fieldCleared := false;
    }
  }

  function RecordedProxy(m: OneEdge, c: ProxyCall): OneEdge {
    match c
    case SetProxy(id) => m.(target := Some(id))
    case ClearProxy => m.(cleared := true, fieldCleared := true)
    case ClearProxyID => m.(target := None, fieldCleared := true)
    case ResetProxy => m.(target := None, cleared := false)
    case ResetProxyID => m.(target := None, fieldCleared := false)
  }

  function RecordedProxyAll(calls: seq<ProxyCall>): OneEdge {
    if calls == [] then OneEdge(None, false, false)
    else RecordedProxy(RecordedProxyAll(calls[..|calls| - 1]), calls[|calls| - 1])
  }

  /** The calls made one after the other on the stored key itself. */
  function ProxyOneByOne(stored: Option<ID>, calls: seq<ProxyCall>): Option<ID> {
    if calls == [] then stored
    else
      match calls[|calls| - 1]
      case SetProxy(id) => Some(id)
      case ClearProxy => None
      case ClearProxyID => None
      case ResetProxy => stored
      case ResetProxyID => stored
  }

  /** The last call cleared a proxy set before, or reset only one of two clear marks. */
  predicate ProxyCallIsLost(stored: Option<ID>, calls: seq<ProxyCall>) {
    calls != [] &&
    var before := RecordedProxyAll(calls[..|calls| - 1]);
    match calls[|calls| - 1]
    case ClearProxy => before.target.Some?
    case ResetProxy => before.fieldCleared && stored.Some?
    case ResetProxyID => before.cleared && stored.Some?
    case _ => false
  }

  /** The update leaves the proxy that the calls made one by one leave, unless its last call is lost. */
  lemma ProxyUpdateIsOneByOneIff(stored: Option<ID>, calls: seq<ProxyCall>)
    ensures ProxyAfter(stored, RecordedProxyAll(calls)) == ProxyOneByOne(stored, calls) <==>
              !ProxyCallIsLost(stored, calls)
  {
  }

  /** Resetting the edge does not undo clearing it: the stored proxy is still removed. */
  lemma ResetKeepsProxyCleared(stored: Option<ID>)
    ensures ProxyAfter(stored, RecordedProxyAll([ClearProxy, ResetProxy])) == None
  {
    var calls := [ClearProxy, ResetProxy];
    var first: seq<ProxyCall> := [ClearProxy];
    assert calls[..1] == first && first[..0] == [];
    assert RecordedProxyAll(first) == OneEdge(None, true, true);
  }
}
