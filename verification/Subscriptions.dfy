/** Subscription refresh: replacing nodes by subscription, sorting, and following the selected node. */
module Subscriptions {
  import opened Prelude
  import opened Domain
  import opened Sorting

  /** A parsed node; `details` stands for server, credentials and transport. */
  datatype Node = Node(id: string, subscription: string, name: string, details: string)

  datatype Subscription = Subscription(name: string, enabled: bool, url: string)

  /** What downloading and parsing a subscription yields; None when either fails. */
  type Feed = Subscription -> Option<seq<Node>>

  datatype RefreshError =
    | InvalidName | ListFailed | NotFound | NodesUnreadable
    | FeedFailed(name: string)
    | NodesNotWritten | StateNotWritten

  datatype Note = Silent | Reconciled | Lost

  /** Parsing stamps every node with its subscription's name. */
  ghost predicate Stamped(feed: Feed) {
    forall s, n :: feed(s).Some? && n in feed(s).value ==> n.subscription == s.name
  }

  predicate ByName(a: Node, b: Node) {
    AtMost(a.name, b.name)
  }

  predicate BySubscription(a: Subscription, b: Subscription) {
    AtMost(a.name, b.name)
  }

  function Due(requested: Option<string>): Subscription -> bool {
    (s: Subscription) => s.enabled && (requested.None? || requested.value == s.name)
  }

  function Of(subscription: string): Node -> bool {
    (n: Node) => n.subscription == subscription
  }

  function NotOf(subscription: string): Node -> bool {
    (n: Node) => n.subscription != subscription
  }

  function Named(name: string): Node -> bool {
    (n: Node) => n.name == name
  }

  /** The last due subscription of a name, whose nodes are the ones that stay. */
  function Latest(due: seq<Subscription>, name: string): (r: Option<Subscription>)
    ensures r.Some? ==> r.value in due && r.value.name == name
    ensures r.None? ==> forall s :: s in due ==> s.name != name
  {
    if due == [] then None
    else
      var last := due[|due| - 1];
      assert due == due[..|due| - 1] + [last];
      if last.name == name then Some(last) else Latest(due[..|due| - 1], name)
  }

  /** Nodes of subscriptions that are not due. */
  function Outside(due: seq<Subscription>): Node -> bool {
    (n: Node) => Latest(due, n.subscription).None?
  }

  ghost predicate Served(due: seq<Subscription>, feed: Feed) {
    forall s :: s in due ==> feed(s).Some?
  }

  /** One `retain` and `extend` for each due subscription, in order. */
  ghost function Merge(nodes: seq<Node>, due: seq<Subscription>, feed: Feed): seq<Node>
    requires Served(due, feed)
  {
    if due == [] then nodes
    else
      var last := due[|due| - 1];
      Select(Merge(nodes, due[..|due| - 1], feed), NotOf(last.name)) + feed(last).value
  }

  ghost function Refreshed(nodes: seq<Node>, due: seq<Subscription>, feed: Feed): seq<Node>
    requires Served(due, feed)
  {
    Sort(Merge(nodes, due, feed), ByName)
  }

  function FindById(nodes: seq<Node>, id: string): Option<Node> {
    if nodes == [] then None else if nodes[0].id == id then Some(nodes[0]) else FindById(nodes[1..], id)
  }

  /** `normalise` stands for trimming and lower-casing. */
  function Alike(was: Node, normalise: string -> string): Node -> bool {
    (n: Node) => n.subscription == was.subscription && normalise(n.name) == normalise(was.name)
  }

  function ReconcileSelected(was: Node, refreshed: seq<Node>, normalise: string -> string): Option<Node> {
    var exact := FindById(refreshed, was.id);
    if exact.Some? then exact
    else
      var matches := Select(refreshed, Alike(was, normalise));
      if |matches| == 1 then Some(matches[0]) else None
  }

  /** The selection after a refresh that wrote everything it had to. */
  function Reselected(selected: Option<string>, before: seq<Node>, after: seq<Node>,
                      normalise: string -> string): Option<string> {
    var was := if selected.Some? then FindById(before, selected.value) else None;
    if was.None? then selected
    else
      var replacement := ReconcileSelected(was.value, after, normalise);
      if replacement.Some? then Some(replacement.value.id) else selected
  }

  /** `ManagerService` as far as nodes.json and the selected node go; `saved` is what state.json reads as. */
  class SubscriptionService {
    const normalise: string -> string
    var nodes: seq<Node>
    var memory: ManagerState
    var saved: ManagerState

    constructor (nodes: seq<Node>, state: ManagerState, normalise: string -> string)
      ensures this.nodes == nodes && memory == state && saved == state && this.normalise == normalise
    {
      this.nodes, this.memory, this.saved, this.normalise := nodes, state, state, normalise;
    }

    /** A failed write may have replaced the file. */
    method WriteNodes(refreshed: seq<Node>) returns (ok: bool)
      modifies this`nodes
      ensures nodes == refreshed || (!ok && nodes == old(nodes))
    {
      ok := *;
      var effect: bool := *;
      if ok || effect {
        nodes := refreshed;
      }
    }

    /** Disk first, memory only after the write succeeded; a failed write may have reached the disk. */
    method WriteState(state: ManagerState) returns (ok: bool)
      modifies this`memory, this`saved
      ensures memory == if ok then state else old(memory)
      ensures saved == state || (!ok && saved == old(saved))
    {
      ok := *;
      var effect: bool := *;
      if ok || effect {
        saved := state;
      }
      if ok {
        memory := state;
      }
    }

    /** Nothing is written while feeds are fetched, so a failing feed leaves everything as it was. */
    method Fetch(subscriptions: seq<Subscription>, requested: Option<string>, feed: Feed)
      returns (r: Result<seq<Node>, RefreshError>)
      ensures r.Success? <==> Served(Select(subscriptions, Due(requested)), feed)
      ensures r.Success? ==> r.value == Merge(nodes, Select(subscriptions, Due(requested)), feed)
      ensures r.Failure? ==> r.at.FeedFailed?
    {
      var merged := nodes;
      ghost var due := [];
      for i := 0 to |subscriptions|
        invariant due == Select(subscriptions[..i], Due(requested))
        invariant Served(due, feed) && merged == Merge(nodes, due, feed)
      {
        var s := subscriptions[i];
        assert subscriptions[..i + 1] == subscriptions[..i] + [s];
        SelectOfSnoc(subscriptions[..i], s, Due(requested));
        if Due(requested)(s) {
          var parsed := feed(s);
          if parsed.None? {
            SelectMembers(subscriptions, Due(requested), s);
            return Failure(FeedFailed(s.name));
          }
          MergeOfSnoc(nodes, due, s, feed);
          due := due + [s];
          merged := Select(merged, NotOf(s.name)) + parsed.value;
        }
      }
      assert subscriptions[..|subscriptions|] == subscriptions;
      return Success(merged);
    }

    /** Follows the selected node after the node list has been replaced. */
    method Reconcile(was: Node) returns (r: Result<Note, RefreshError>)
      requires saved == memory
      modifies this`memory, this`saved
      ensures var replacement := ReconcileSelected(was, nodes, normalise);
              if replacement.Some? && replacement.value.id != was.id then
                var followed := old(memory).(selectedNode := Some(replacement.value.id));
                || (r == Success(Reconciled) && memory == saved == followed)
                || (r == Failure(StateNotWritten) && memory == old(memory)
                     && (saved == old(saved) || saved == followed))
              else
                r == Success(if replacement.None? then Lost else Silent) && memory == saved == old(memory)
    {
      var replacement := ReconcileSelected(was, nodes, normalise);
      if replacement.None? {
        return Success(Lost);
      }
      if replacement.value.id == was.id {
        return Success(Silent);
      }
      var ok := WriteState(memory.(selectedNode := Some(replacement.value.id)));
      if !ok {
        return Failure(StateNotWritten);
      }
      return Success(Reconciled);
    }

    /** What ends a refresh before anything is fetched. */
    method CheckRequest(requested: Option<string>, listing: Option<seq<Subscription>>)
      returns (refusal: Option<RefreshError>)
      ensures refusal == Some(InvalidName) <==> requested.Some? && !ValidResourceName(requested.value)
      ensures refusal == Some(ListFailed) ==> listing.None?
      ensures refusal == Some(NotFound) ==>
                listing.Some? && requested.Some? && forall s :: s in listing.value ==> s.name != requested.value
      ensures refusal.Some? ==> refusal.value in {InvalidName, ListFailed, NotFound, NodesUnreadable}
      ensures refusal.None? ==>
                listing.Some? && (requested.Some? ==> exists s :: s in listing.value && s.name == requested.value)
    {
      if requested.Some? && !ValidResourceName(requested.value) {
        return Some(InvalidName);
      }
      if listing.None? {
        return Some(ListFailed);
      }
      if requested.Some? && !(exists s :: s in listing.value && s.name == requested.value) {
        return Some(NotFound);
      }
      var readable := *;
      return if readable then None else Some(NodesUnreadable);
    }

    /**
     `listing` is what subscriptions.d holds, in directory order; None when it cannot be
     read. Nothing of the state but the selected node is ever written.
     */
    method RefreshSubscriptions(requested: Option<string>, listing: Option<seq<Subscription>>, feed: Feed)
      returns (r: Result<Note, RefreshError>, ghost due: seq<Subscription>)
      requires saved == memory
      modifies this
      ensures listing.Some? ==> AskedFor(listing.value, requested, due)
      ensures r.Success? || r == Failure(StateNotWritten) ==>
                listing.Some? && ReplacedOnly(listing.value, requested, feed, old(nodes), nodes)
      ensures r.Success? ==>
                && listing.Some? && Served(due, feed) && nodes == Refreshed(old(nodes), due, feed)
                && memory == saved == Following(old(memory), old(nodes), nodes, normalise)
                && (requested.Some? ==> exists s :: s in listing.value && s.name == requested.value)
                && (r.value == Reconciled <==> memory != old(memory))
                && (r.value == Lost <==> IsLost(old(memory).selectedNode, old(nodes), nodes, normalise))
      ensures r == Failure(StateNotWritten) ==>
                && listing.Some? && Served(due, feed) && nodes == Refreshed(old(nodes), due, feed)
                && memory == old(memory)
                && (saved == memory || saved == Following(memory, old(nodes), nodes, normalise))
      ensures r == Failure(NodesNotWritten) ==>
                && listing.Some? && Served(due, feed)
                && (nodes == old(nodes) || nodes == Refreshed(old(nodes), due, feed))
      ensures r == Failure(InvalidName) <==> requested.Some? && !ValidResourceName(requested.value)
      ensures r == Failure(ListFailed) ==> listing.None?
      ensures r == Failure(NotFound) ==>
                listing.Some? && requested.Some? && forall s :: s in listing.value ==> s.name != requested.value
      ensures r.Failure? && r.at != StateNotWritten ==> memory == saved == old(memory)
      ensures r.Failure? && r.at !in {NodesNotWritten, StateNotWritten} ==> nodes == old(nodes)
      ensures listing.Some? && !Served(due, feed) ==> r.Failure? && r.at !in {NodesNotWritten, StateNotWritten}
    {
      due := [];
      if listing.Some? {
        due := Select(Sort(listing.value, BySubscription), Due(requested));
        DueExactly(listing.value, requested);
      }
      var refusal := CheckRequest(requested, listing);
      if refusal.Some? {
        return Failure(refusal.value), due;
      }
      var subscriptions := Sort(listing.value, BySubscription);
      var oldSelected := if memory.selectedNode.Some? then FindById(nodes, memory.selectedNode.value) else None;
      if oldSelected.Some? {
        FindByIdFinds(nodes, memory.selectedNode.value);
      }
      var merged := Fetch(subscriptions, requested, feed);
      if merged.Failure? {
        return Failure(merged.at), due;
      }
      RefreshedNodes(listing.value, requested, nodes, due, feed);
      var ok := WriteNodes(Sort(merged.value, ByName));
      if !ok {
        return Failure(NodesNotWritten), due;
      }
      r := Success(Silent);
      if oldSelected.Some? {
        r := Reconcile(oldSelected.value);
        FindByIdFinds(nodes, oldSelected.value.id);
      }
    }
  }

  /** What a refresh asks for: the enabled subscriptions, or the one that was named, in the order of the names. */
  ghost predicate AskedFor(listing: seq<Subscription>, requested: Option<string>, due: seq<Subscription>) {
    && (forall s :: s in due <==> s in listing && s.enabled && (requested.None? || s.name == requested.value))
    && (forall s :: s in due ==> multiset(due)[s] == multiset(listing)[s])
    && forall i, j :: 0 <= i < j < |due| ==> AtMost(due[i].name, due[j].name)
  }

  lemma DueExactly(listing: seq<Subscription>, requested: Option<string>)
    ensures AskedFor(listing, requested, Select(Sort(listing, BySubscription), Due(requested)))
  {
    var sorted := Sort(listing, BySubscription);
    SortPermutes(listing, BySubscription);
    SameMembers(sorted, listing);
    forall s
      ensures s in Select(sorted, Due(requested)) <==> s in sorted && Due(requested)(s)
    {
      SelectMembers(sorted, Due(requested), s);
    }
    forall s | s in sorted && Due(requested)(s)
      ensures multiset(Select(sorted, Due(requested)))[s] == multiset(sorted)[s]
    {
      SelectCounts(sorted, Due(requested), s);
    }
    StringsAreOrdered();
    SortOrders(sorted, BySubscription);
    SortOrders(listing, BySubscription);
    SelectKeepsOrder(sorted, Due(requested), BySubscription);
    var due := Select(sorted, Due(requested));
    assert forall i, j :: 0 <= i < j < |due| ==> BySubscription(due[i], due[j]);
  }

  /**
   What a refresh leaves, in the order of the names: of a subscription that was not asked for the
   nodes that were there, and of one that was, and is the only one of its name, its feed.
   */
  ghost predicate ReplacedOnly(listing: seq<Subscription>, requested: Option<string>, feed: Feed,
                               before: seq<Node>, after: seq<Node>) {
    && (forall i, j :: 0 <= i < j < |after| ==> AtMost(after[i].name, after[j].name))
    && (Stamped(feed) ==> forall n: Node ::
          (forall s :: s in listing && s.name == n.subscription ==>
             !s.enabled || (requested.Some? && s.name != requested.value)) ==>
            multiset(after)[n] == multiset(before)[n])
    && (Stamped(feed) ==> forall n: Node, s ::
          s in listing && s.enabled && (requested.None? || s.name == requested.value) &&
          s.name == n.subscription && (forall t :: t in listing && t.name == s.name ==> t == s) ==>
            feed(s).Some? && multiset(after)[n] == multiset(feed(s).value)[n])
  }

  lemma CountOf(nodes: seq<Node>, due: seq<Subscription>, feed: Feed, n: Node)
    requires Served(due, feed) && Stamped(feed)
    ensures multiset(Refreshed(nodes, due, feed))[n] == multiset(Contribution(nodes, due, feed, n.subscription))[n]
  {
    RefreshReplacesBySubscription(nodes, due, feed, n.subscription);
    SelectCounts(Refreshed(nodes, due, feed), Of(n.subscription), n);
  }

  lemma CountOutside(nodes: seq<Node>, due: seq<Subscription>, feed: Feed, n: Node)
    requires Served(due, feed) && Stamped(feed) && forall s :: s in due ==> s.name != n.subscription
    ensures multiset(Refreshed(nodes, due, feed))[n] == multiset(nodes)[n]
  {
    CountOf(nodes, due, feed, n);
    assert Latest(due, n.subscription).None?;
    SelectCounts(nodes, Of(n.subscription), n);
  }

  lemma CountInside(nodes: seq<Node>, due: seq<Subscription>, feed: Feed, n: Node, s: Subscription)
    requires Served(due, feed) && Stamped(feed)
    requires s in due && s.name == n.subscription && forall t :: t in due && t.name == s.name ==> t == s
    ensures multiset(Refreshed(nodes, due, feed))[n] == multiset(feed(s).value)[n]
  {
    CountOf(nodes, due, feed, n);
    assert Latest(due, n.subscription) == Some(s);
  }

  lemma RefreshedNodes(listing: seq<Subscription>, requested: Option<string>, nodes: seq<Node>,
                       due: seq<Subscription>, feed: Feed)
    requires AskedFor(listing, requested, due) && Served(due, feed)
    ensures ReplacedOnly(listing, requested, feed, nodes, Refreshed(nodes, due, feed))
  {
    var refreshed := Refreshed(nodes, due, feed);
    NodesAreOrdered();
    SortOrders(Merge(nodes, due, feed), ByName);
    assert forall i, j :: 0 <= i < j < |refreshed| ==> ByName(refreshed[i], refreshed[j]);
    if Stamped(feed) {
      forall n: Node |
        forall s :: s in listing && s.name == n.subscription ==>
          !s.enabled || (requested.Some? && s.name != requested.value)
        ensures multiset(refreshed)[n] == multiset(nodes)[n]
      {
        CountOutside(nodes, due, feed, n);
      }
      forall n: Node, s |
        s in due && s.name == n.subscription && (forall t :: t in listing && t.name == s.name ==> t == s)
        ensures multiset(refreshed)[n] == multiset(feed(s).value)[n]
      {
        CountInside(nodes, due, feed, n, s);
      }
    }
  }

  /** Only the selected node of the state follows the node list. */
  function Following(state: ManagerState, before: seq<Node>, after: seq<Node>,
                     normalise: string -> string): ManagerState {
    state.(selectedNode := Reselected(state.selectedNode, before, after, normalise))
  }

  lemma MergeOfSnoc(nodes: seq<Node>, due: seq<Subscription>, s: Subscription, feed: Feed)
    requires Served(due, feed) && feed(s).Some?
    ensures Served(due + [s], feed)
    ensures Merge(nodes, due + [s], feed) == Select(Merge(nodes, due, feed), NotOf(s.name)) + feed(s).value
  {
    assert (due + [s])[..|due|] == due;
  }

  lemma {:induction false} FindByIdFinds(nodes: seq<Node>, id: string)
    ensures FindById(nodes, id).Some? ==> FindById(nodes, id).value in nodes && FindById(nodes, id).value.id == id
    ensures FindById(nodes, id).None? ==> forall n :: n in nodes ==> n.id != id
  {
    if nodes != [] {
      FindByIdFinds(nodes[1..], id);
    }
  }

  lemma NodesAreOrdered()
    ensures TotalPreorder(ByName)
  {
    StringsAreOrdered();
  }

  /** What one subscription contributes after a refresh: its latest feed when it was due, its old nodes otherwise. */
  ghost function Contribution(nodes: seq<Node>, due: seq<Subscription>, feed: Feed, name: string): seq<Node>
    requires Served(due, feed)
  {
    var latest := Latest(due, name);
    if latest.Some? then feed(latest.value).value else Select(nodes, Of(name))
  }

  lemma ReplaceStep(merged: seq<Node>, fetched: seq<Node>, replaced: string, name: string)
    requires forall n :: n in fetched ==> n.subscription == replaced
    ensures Select(Select(merged, NotOf(replaced)) + fetched, Of(name)) == if replaced == name then fetched
            else Select(merged, Of(name))
  {
    var kept := Select(merged, NotOf(replaced));
    SelectOfConcat(kept, fetched, Of(name));
    SelectAll(fetched, Of(name));
    if replaced == name {
      forall n | n in kept
        ensures !Of(name)(n)
      {
        SelectMembers(merged, NotOf(replaced), n);
      }
      SelectAll(kept, Of(name));
    } else {
      SelectStronger(merged, NotOf(replaced), Of(name));
    }
  }

  lemma {:induction false} MergeByName(nodes: seq<Node>, due: seq<Subscription>, feed: Feed, name: string)
    requires Served(due, feed) && Stamped(feed)
    ensures Select(Merge(nodes, due, feed), Of(name)) == Contribution(nodes, due, feed, name)
  {
    if due != [] {
      var front, last := due[..|due| - 1], due[|due| - 1];
      MergeByName(nodes, front, feed, name);
      ReplaceStep(Merge(nodes, front, feed), feed(last).value, last.name, name);
    }
  }

  /**
   The main result, for any listing: the refreshed list is sorted by name, and
   for every subscription name it holds exactly the nodes of its last due feed,
   or exactly its old nodes when it was not due.
   */
  lemma RefreshReplacesBySubscription(nodes: seq<Node>, due: seq<Subscription>, feed: Feed, name: string)
    requires Served(due, feed) && Stamped(feed)
    ensures SortedBy(Refreshed(nodes, due, feed), ByName)
    ensures multiset(Select(Refreshed(nodes, due, feed), Of(name))) == multiset(Contribution(nodes, due, feed, name))
  {
    var merged := Merge(nodes, due, feed);
    NodesAreOrdered();
    SortOrders(merged, ByName);
    SortPermutes(merged, ByName);
    SelectOfPermutation(merged, Sort(merged, ByName), Of(name));
    MergeByName(nodes, due, feed, name);
  }

  lemma OutsideStep(nodes: seq<Node>, due: seq<Subscription>)
    requires due != []
    ensures Select(Select(nodes, Outside(due[..|due| - 1])), NotOf(due[|due| - 1].name)) == Select(nodes, Outside(due))
  {
    var front, last := due[..|due| - 1], due[|due| - 1];
    SelectStronger(nodes, Outside(front), Outside(due));
    var kept := Select(nodes, Outside(front));
    forall n | n in kept
      ensures Outside(due)(n) <==> NotOf(last.name)(n)
    {
      SelectMembers(nodes, Outside(front), n);
    }
    SelectAlike(kept, Outside(due), NotOf(last.name));
  }

  lemma Associates(a: seq<Node>, b: seq<Node>, c: seq<Node>)
    ensures (a + b) + c == a + (b + c)
  {
  }

  /** A merge keeps the nodes that are not due and appends fetched ones. */
  lemma {:induction false} MergeSplits(nodes: seq<Node>, due: seq<Subscription>, feed: Feed)
    requires Served(due, feed)
    ensures Merge(nodes, due, feed) == Select(nodes, Outside(due)) + Merge([], due, feed)
  {
    if due == [] {
      SelectAll(nodes, Outside(due));
    } else {
      var front, last := due[..|due| - 1], due[|due| - 1];
      var kept, fetched := Select(nodes, Outside(front)), Merge([], front, feed);
      MergeSplits(nodes, front, feed);
      OutsideStep(nodes, due);
      SelectOfConcat(kept, fetched, NotOf(last.name));
      Associates(Select(kept, NotOf(last.name)), Select(fetched, NotOf(last.name)), feed(last).value);
    }
  }

  lemma {:induction false} FetchedAreDue(due: seq<Subscription>, feed: Feed, n: Node)
    requires Served(due, feed) && Stamped(feed) && n in Merge([], due, feed)
    ensures Latest(due, n.subscription).Some?
  {
    if due != [] {
      var front, last := due[..|due| - 1], due[|due| - 1];
      SelectMembers(Merge([], front, feed), NotOf(last.name), n);
      if n !in feed(last).value {
        FetchedAreDue(front, feed, n);
      }
    }
  }

  ghost function Concat(due: seq<Subscription>, feed: Feed): seq<Node>
    requires Served(due, feed)
  {
    if due == [] then [] else Concat(due[..|due| - 1], feed) + feed(due[|due| - 1]).value
  }

  ghost predicate UniqueNames(due: seq<Subscription>) {
    forall i, j :: 0 <= i < j < |due| ==> due[i].name != due[j].name
  }

  lemma {:induction false} UniqueMergeIsConcat(due: seq<Subscription>, feed: Feed)
    requires Served(due, feed) && Stamped(feed) && UniqueNames(due)
    ensures Merge([], due, feed) == Concat(due, feed)
  {
    if due != [] {
      var front, last := due[..|due| - 1], due[|due| - 1];
      UniqueMergeIsConcat(front, feed);
      forall n | n in Merge([], front, feed)
        ensures NotOf(last.name)(n)
      {
        FetchedAreDue(front, feed, n);
      }
      SelectAll(Merge([], front, feed), NotOf(last.name));
    }
  }

  /**
   With unique subscription names nothing fetched is lost either: old nodes of the others, plus
   every fetched node.
   */
  lemma RefreshConserves(nodes: seq<Node>, due: seq<Subscription>, feed: Feed)
    requires Served(due, feed) && Stamped(feed) && UniqueNames(due)
    ensures multiset(Refreshed(nodes, due, feed)) == multiset(Select(nodes, Outside(due))) + multiset(Concat(due, feed))
  {
    SortPermutes(Merge(nodes, due, feed), ByName);
    MergeSplits(nodes, due, feed);
    UniqueMergeIsConcat(due, feed);
  }

  lemma SameHead(xs: seq<Node>, ys: seq<Node>)
    requires SortedBy(xs, ByName) && SortedBy(ys, ByName) && xs != [] && ys != []
    requires forall name :: Select(xs, Named(name)) == Select(ys, Named(name))
    ensures xs[0] == ys[0]
  {
    StringsAreOrdered();
    SelectMembers(xs, Named(xs[0].name), xs[0]);
    SelectMembers(ys, Named(xs[0].name), xs[0]);
    SelectMembers(ys, Named(ys[0].name), ys[0]);
    SelectMembers(xs, Named(ys[0].name), ys[0]);
    assert AtMost(xs[0].name, ys[0].name) && AtMost(ys[0].name, xs[0].name);
    assert Select(xs, Named(xs[0].name))[0] == xs[0];
    assert Select(ys, Named(xs[0].name))[0] == ys[0];
  }

  lemma {:induction false} SortedIsDetermined(xs: seq<Node>, ys: seq<Node>)
    requires SortedBy(xs, ByName) && SortedBy(ys, ByName)
    requires forall name :: Select(xs, Named(name)) == Select(ys, Named(name))
    ensures xs == ys
  {
    if xs == [] || ys == [] {
      if xs != [] {
        SelectMembers(xs, Named(xs[0].name), xs[0]);
      }
      if ys != [] {
        SelectMembers(ys, Named(ys[0].name), ys[0]);
      }
    } else {
      SameHead(xs, ys);
      var x := xs[0];
      assert xs == [x] + xs[1..] && ys == [x] + ys[1..];
      forall name
        ensures Select(xs[1..], Named(name)) == Select(ys[1..], Named(name))
      {
        SelectOfCons(x, xs[1..], Named(name));
        SelectOfCons(x, ys[1..], Named(name));
        SameTail(if Named(name)(x) then [x] else [], Select(xs[1..], Named(name)), Select(ys[1..], Named(name)));
      }
      SortedIsDetermined(xs[1..], ys[1..]);
    }
  }

  lemma SameTail(head: seq<Node>, xs: seq<Node>, ys: seq<Node>)
    requires head + xs == head + ys
    ensures xs == ys
  {
    assert (head + xs)[|head|..] == xs;
    assert (head + ys)[|head|..] == ys;
  }

  lemma SortKeepsTies(nodes: seq<Node>, name: string)
    ensures Select(Sort(nodes, ByName), Named(name)) == Select(nodes, Named(name))
  {
    StringsAreOrdered();
    assert AtMost(name, name);
    SortIsStable(nodes, ByName, Named(name));
  }

  lemma KeptOnly(kept: seq<Node>, fetched: seq<Node>, out: Node -> bool)
    requires (forall n :: n in kept ==> out(n)) && (forall n :: n in fetched ==> !out(n))
    ensures Select(kept + fetched, out) == kept
  {
    SelectOfConcat(kept, fetched, out);
    SelectAll(kept, out);
    SelectAll(fetched, out);
  }

  /** Replacing the fetched part of a list that already has it, seen through any further selection. */
  lemma ReplaceAgain(kept: seq<Node>, fetched: seq<Node>, sorted: seq<Node>, out: Node -> bool, p: Node -> bool)
    requires (forall n :: n in kept ==> out(n)) && (forall n :: n in fetched ==> !out(n))
    requires Select(sorted, p) == Select(kept + fetched, p)
    ensures Select(Select(sorted, out) + fetched, p) == Select(kept + fetched, p)
  {
    calc {
      Select(Select(sorted, out) + fetched, p);
      { SelectOfConcat(Select(sorted, out), fetched, p); }
      Select(Select(sorted, out), p) + Select(fetched, p);
      { SelectTwice(sorted, out, p); }
      Select(Select(kept + fetched, p), out) + Select(fetched, p);
      { SelectTwice(kept + fetched, p, out); }
      Select(Select(kept + fetched, out), p) + Select(fetched, p);
      { KeptOnly(kept, fetched, out); }
      Select(kept, p) + Select(fetched, p);
      { SelectOfConcat(kept, fetched, p); }
      Select(kept + fetched, p);
    }
  }

  lemma MergeAgain(nodes: seq<Node>, due: seq<Subscription>, feed: Feed, name: string)
    requires Served(due, feed) && Stamped(feed)
    ensures Select(Merge(Refreshed(nodes, due, feed), due, feed), Named(name)) ==
            Select(Merge(nodes, due, feed), Named(name))
  {
    var fetched, sorted := Merge([], due, feed), Refreshed(nodes, due, feed);
    var kept := Select(nodes, Outside(due));
    MergeSplits(nodes, due, feed);
    MergeSplits(sorted, due, feed);
    SortKeepsTies(Merge(nodes, due, feed), name);
    forall n | n in kept
      ensures Outside(due)(n)
    {
      SelectMembers(nodes, Outside(due), n);
    }
    forall n | n in fetched
      ensures !Outside(due)(n)
    {
      FetchedAreDue(due, feed, n);
    }
    ReplaceAgain(kept, fetched, sorted, Outside(due), Named(name));
  }

  /** Refreshing again from unchanged feeds changes nothing, not even the order of nodes with equal names. */
  lemma RefreshIsIdempotent(nodes: seq<Node>, due: seq<Subscription>, feed: Feed)
    requires Served(due, feed) && Stamped(feed)
    ensures Refreshed(Refreshed(nodes, due, feed), due, feed) == Refreshed(nodes, due, feed)
  {
    var once := Refreshed(nodes, due, feed);
    var twice := Refreshed(once, due, feed);
    NodesAreOrdered();
    SortOrders(Merge(nodes, due, feed), ByName);
    SortOrders(Merge(once, due, feed), ByName);
    forall name
      ensures Select(twice, Named(name)) == Select(once, Named(name))
    {
      SortKeepsTies(Merge(once, due, feed), name);
      SortKeepsTies(Merge(nodes, due, feed), name);
      MergeAgain(nodes, due, feed, name);
    }
    SortedIsDetermined(twice, once);
  }

  /** Exactly one node of the list is like the given one. */
  ghost predicate UniqueMatch(was: Node, nodes: seq<Node>, normalise: string -> string, i: nat) {
    && i < |nodes|
    && nodes[i].subscription == was.subscription && normalise(nodes[i].name) == normalise(was.name)
    && forall j :: 0 <= j < |nodes| && j != i ==>
         nodes[j].subscription != was.subscription || normalise(nodes[j].name) != normalise(was.name)
  }

  lemma OnlyMatch(was: Node, nodes: seq<Node>, normalise: string -> string, i: nat)
    requires UniqueMatch(was, nodes, normalise, i)
    ensures Select(nodes, Alike(was, normalise)) == [nodes[i]]
  {
    var p := Alike(was, normalise);
    assert nodes == nodes[..i] + ([nodes[i]] + nodes[i + 1..]);
    SelectOfConcat(nodes[..i], [nodes[i]] + nodes[i + 1..], p);
    SelectOfCons(nodes[i], nodes[i + 1..], p);
    SelectAll(nodes[..i], p);
    SelectAll(nodes[i + 1..], p);
  }

  lemma {:induction false} SingleMatch(was: Node, nodes: seq<Node>, normalise: string -> string)
    requires |Select(nodes, Alike(was, normalise))| == 1
    ensures exists i: nat :: UniqueMatch(was, nodes, normalise, i)
  {
    var p := Alike(was, normalise);
    if p(nodes[0]) {
      forall j | 0 < j < |nodes|
        ensures !p(nodes[j])
      {
        SelectMembers(nodes[1..], p, nodes[j]);
        assert nodes[1..][j - 1] == nodes[j];
      }
      assert UniqueMatch(was, nodes, normalise, 0);
    } else {
      assert Select(nodes, p) == Select(nodes[1..], p);
      SingleMatch(was, nodes[1..], normalise);
      var i: nat :| UniqueMatch(was, nodes[1..], normalise, i);
      assert forall j :: 1 <= j < |nodes| ==> nodes[j] == nodes[1..][j - 1];
      assert UniqueMatch(was, nodes, normalise, i + 1);
    }
  }

  predicate IsLost(selected: Option<string>, before: seq<Node>, after: seq<Node>, normalise: string -> string) {
    && selected.Some? && FindById(before, selected.value).Some?
    && ReconcileSelected(FindById(before, selected.value).value, after, normalise).None?
  }

  /** The selection is reported lost exactly when its node vanished and not exactly one node is like it. */
  lemma LostIff(selected: Option<string>, before: seq<Node>, after: seq<Node>, normalise: string -> string)
    ensures IsLost(selected, before, after, normalise) <==>
              && Vanished(selected, before, after)
              && !exists i: nat :: UniqueMatch(FindById(before, selected.value).value, after, normalise, i)
  {
    if selected.Some? && FindById(before, selected.value).Some? {
      var was := FindById(before, selected.value).value;
      FindByIdFinds(before, selected.value);
      FindByIdFinds(after, was.id);
      if i: nat :| UniqueMatch(was, after, normalise, i) {
        OnlyMatch(was, after, normalise, i);
      }
      if |Select(after, Alike(was, normalise))| == 1 {
        SingleMatch(was, after, normalise);
      }
    }
  }

  /** The saved selection named a node, and no node of the new list has its id. */
  predicate Vanished(selected: Option<string>, before: seq<Node>, after: seq<Node>) {
    selected.Some? && FindById(before, selected.value).Some? && forall n :: n in after ==> n.id != selected.value
  }

  /**
   The selection changes only when its node vanished and exactly one node of the
   new list has the same subscription and normalised name, and then to that node.
   */
  lemma ReselectionIsExact(selected: Option<string>, before: seq<Node>, after: seq<Node>, normalise: string -> string)
    ensures !Vanished(selected, before, after) ==> Reselected(selected, before, after, normalise) == selected
    ensures Vanished(selected, before, after) ==>
              var was := FindById(before, selected.value).value;
              if exists i: nat :: UniqueMatch(was, after, normalise, i) then
                exists i: nat :: UniqueMatch(was, after, normalise, i)
                  && Reselected(selected, before, after, normalise) == Some(after[i].id)
              else Reselected(selected, before, after, normalise) == selected
  {
    if selected.Some? && FindById(before, selected.value).Some? {
      var was := FindById(before, selected.value).value;
      FindByIdFinds(before, selected.value);
      FindByIdFinds(after, was.id);
      if Vanished(selected, before, after) {
        if i: nat :| UniqueMatch(was, after, normalise, i) {
          OnlyMatch(was, after, normalise, i);
        }
        if |Select(after, Alike(was, normalise))| == 1 {
          SingleMatch(was, after, normalise);
        }
      }
    }
  }

  /** Refreshing other subscriptions never moves the selection. */
  lemma OthersKeepTheSelection(nodes: seq<Node>, due: seq<Subscription>, feed: Feed, selected: string,
                               normalise: string -> string)
    requires Served(due, feed) && Stamped(feed)
    requires FindById(nodes, selected).Some? && Latest(due, FindById(nodes, selected).value.subscription).None?
    ensures Reselected(Some(selected), nodes, Refreshed(nodes, due, feed), normalise) == Some(selected)
  {
    var was := FindById(nodes, selected).value;
    FindByIdFinds(nodes, selected);
    var merged := Merge(nodes, due, feed);
    MergeSplits(nodes, due, feed);
    SelectMembers(nodes, Outside(due), was);
    SortPermutes(merged, ByName);
    SameMembers(merged, Refreshed(nodes, due, feed));
    FindByIdFinds(Refreshed(nodes, due, feed), selected);
  }
}
