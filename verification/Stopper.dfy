/** The tree of contexts that waits for its goroutines before it is cancelled (stopper.Context). */
module Stopper {
  import opened Wrappers

  datatype Cause = ErrStopped | ErrGracePeriodExpired | Other

  // The errors of the goroutines of a context: all in the order in which they were
  // returned, those about to be recorded, those recorded in order, how many of
  // the latter have not been counted off yet, and what Wait will return.
  datatype Tally = Tally(failed: seq<string>, broken: multiset<string>, recorded: seq<string>, noted: int,
                         err: Option<string>)

  // A context: the one it is nested in, or -1 for the background, the number of
  // goroutines it waits for, its own reason to be cancelled, whether a grace
  // period is running, how many goroutines it was itself asked to run, and their
  // errors.
  datatype Node = Node(parent: int, count: int, stopping: bool, own: Option<Cause>, grace: bool, live: int,
                       tally: Tally)

  const NO_ERRORS := Tally([], multiset{}, [], 0, None)

  type Nodes = seq<Node>

  ghost predicate Tree(ns: Nodes) {
    forall i | 0 <= i < |ns| :: -1 <= ns[i].parent < i
  }

  // j is i or one of the contexts that i is nested in.
  predicate OnChain(ns: Nodes, i: nat, j: nat)
    requires Tree(ns) && i < |ns|
    decreases i
  {
    i == j || (ns[i].parent >= 0 && OnChain(ns, ns[i].parent, j))
  }

  // Some context from i up to the root is stopping.
  predicate Refuses(ns: Nodes, i: nat)
    requires Tree(ns) && i < |ns|
    decreases i
  {
    ns[i].stopping || (ns[i].parent >= 0 && Refuses(ns, ns[i].parent))
  }

  // A context is cancelled for its own reason or for that of one it is nested in.
  function CauseOf(ns: Nodes, i: nat): Option<Cause>
    requires Tree(ns) && i < |ns|
    decreases i
  {
    if ns[i].own.Some? || ns[i].parent < 0 then ns[i].own else CauseOf(ns, ns[i].parent)
  }

  ghost predicate SameTree(a: Nodes, b: Nodes) {
    |a| == |b| && forall i | 0 <= i < |a| :: a[i].parent == b[i].parent
  }

  // The first cause wins.
  function CancelOn(ns: Nodes, i: nat, cause: Cause): (r: Nodes)
    requires Tree(ns) && i < |ns|
    ensures Tree(r) && SameTree(ns, r)
  {
    if CauseOf(ns, i).Some? then ns else ns[i := ns[i].(own := Some(cause))]
  }

  // apply: up the chain first, and nothing at all if any context there refuses.
  function ApplyOn(ns: Nodes, i: nat, delta: int): (r: (bool, Nodes))
    requires Tree(ns) && i < |ns|
    ensures Tree(r.1) && SameTree(ns, r.1)
    decreases i
  {
    if ns[i].stopping && delta >= 0 then (false, ns) else
    var (ok, up) := if ns[i].parent < 0 then (true, ns) else ApplyOn(ns, ns[i].parent, delta);
    if !ok then (false, ns) else
    (true, CountAt(up, i, delta))
  }

  function StopOn(ns: Nodes, i: nat, grace: bool): (r: Nodes)
    requires Tree(ns) && i < |ns|
    ensures Tree(r) && SameTree(ns, r)
  {
    if ns[i].stopping then ns else
    var stopped := ns[i := ns[i].(stopping := true)];
    if ns[i].count == 0 then CancelOn(stopped, i, ErrStopped)
    else if grace then stopped[i := stopped[i].(grace := true)]
    else stopped
  }

  datatype Event =
    | WithContext(parent: int)
    | Go(i: nat)
    | Fail(i: nat, e: string)      // a goroutine has an error, and stops the context
    | Record(i: nat, e: string)    // it records its error
    | Exit(i: nat, erred: bool)    // a goroutine is counted off, after an error or without
    | StopCall(i: nat, grace: bool)
    | Expire(i: nat)               // the grace period is over
    | External(i: nat)             // the context it was made from is cancelled
    | Propagate(i: nat)            // its helper has noticed a stop or a cancellation

  // How many goroutines have not failed.
  function Sound(n: Node): int {
    n.live - n.tally.noted - |n.tally.broken|
  }

  function Failed(t: Tally, e: string): Tally {
    t.(failed := t.failed + [e], broken := t.broken + multiset{e})
  }

  // The first error recorded stays.
  function Recorded(t: Tally, e: string): Tally {
    t.(broken := t.broken - multiset{e}, recorded := t.recorded + [e], noted := t.noted + 1,
       err := if t.err.Some? then t.err else Some(e))
  }

  // A goroutine is counted in or off.
  function Moved(n: Node, delta: int, noted: nat): Node {
    n.(live := n.live + delta, tally := n.tally.(noted := n.tally.noted - noted))
  }

  predicate Enabled(ns: Nodes, e: Event)
    requires Tree(ns)
  {
    match e
    case WithContext(parent) => -1 <= parent < |ns|
    case Go(i) => i < |ns|
    case Fail(i, _) => i < |ns| && Sound(ns[i]) > 0
    case Record(i, e) => i < |ns| && e in ns[i].tally.broken
    case Exit(i, erred) => i < |ns| && if erred then ns[i].tally.noted > 0 else Sound(ns[i]) > 0
    case StopCall(i, _) => i < |ns|
    case Expire(i) => i < |ns| && ns[i].grace
    case External(i) => i < |ns|
    case Propagate(i) => i < |ns| && ((ns[i].parent >= 0 && ns[ns[i].parent].stopping) || CauseOf(ns, i).Some?)
  }

  function Note(ns: Nodes, i: nat, tally: Tally): (r: Nodes)
    requires Tree(ns) && i < |ns|
    ensures Tree(r) && SameTree(ns, r)
  {
    ns[i := ns[i].(tally := tally)]
  }

  function ExitOn(ns: Nodes, i: nat, noted: nat): (r: Nodes)
    requires Tree(ns) && i < |ns|
    ensures Tree(r) && SameTree(ns, r)
  {
    var up := ApplyOn(ns, i, -1).1;
    up[i := Moved(up[i], -1, noted)]
  }

  function Step(ns: Nodes, e: Event): (r: Nodes)
    requires Tree(ns) && Enabled(ns, e)
    ensures Tree(r)
  {
    match e
    case WithContext(parent) => ns + [Node(parent, 0, false, None, false, 0, NO_ERRORS)]
    case Go(i) => var (ok, up) := ApplyOn(ns, i, 1); if ok then up[i := Moved(up[i], 1, 0)] else up
    case Fail(i, e) => var stopped := StopOn(ns, i, false); Note(stopped, i, Failed(stopped[i].tally, e))
    case Record(i, e) => Note(ns, i, Recorded(ns[i].tally, e))
    case Exit(i, erred) => ExitOn(ns, i, if erred then 1 else 0)
    case StopCall(i, grace) => StopOn(ns, i, grace)
    case Expire(i) => CancelOn(ns, i, ErrGracePeriodExpired)
    case External(i) => CancelOn(ns, i, Other)
    case Propagate(i) => StopOn(ns, i, false)
  }

  // Runs: the events that are not possible are skipped.
  function Run(events: seq<Event>): (ns: Nodes)
    ensures Tree(ns)
  {
    if events == [] then [] else
    var ns := Run(events[..|events| - 1]);
    var e := events[|events| - 1];
    if Enabled(ns, e) then Step(ns, e) else ns
  }

  function ChildSum(ns: Nodes, j: int, n: nat): int
    requires n <= |ns|
  {
    if n == 0 then 0 else ChildSum(ns, j, n - 1) + if ns[n - 1].parent == j then ns[n - 1].count else 0
  }

  // Every count is what the context runs itself and the counts nested in it.
  ghost predicate Balanced(ns: Nodes) {
    forall j | 0 <= j < |ns| :: ns[j].live >= 0 && ns[j].count == ns[j].live + ChildSum(ns, j, |ns|)
  }

  // A context is cancelled with ErrStopped only once it is stopping and idle,
  // and then it is cancelled.
  ghost predicate StoppedIdle(ns: Nodes)
    requires Tree(ns)
  {
    forall j: nat | j < |ns| ::
      && (ns[j].own == Some(ErrStopped) ==> ns[j].stopping && ns[j].count == 0)
      && (ns[j].stopping && ns[j].count == 0 ==> CauseOf(ns, j).Some?)
  }

  // Every error is about to be recorded or is recorded, the first of these is
  // what Wait returns, and no goroutine with an error is counted off before.
  ghost predicate Accounted(n: Node) {
    && multiset(n.tally.failed) == n.tally.broken + multiset(n.tally.recorded)
    && n.tally.err == (if n.tally.recorded == [] then None else Some(n.tally.recorded[0]))
    && n.tally.noted >= 0 && Sound(n) >= 0
  }

  ghost predicate AllAccounted(ns: Nodes) {
    forall j: nat | j < |ns| :: Accounted(ns[j])
  }

  ghost predicate Valid(ns: Nodes) {
    Tree(ns) && Balanced(ns) && StoppedIdle(ns) && AllAccounted(ns)
  }

  lemma {:induction false} ChainBelow(ns: Nodes, i: nat, j: nat)
    requires Tree(ns) && i < |ns| && OnChain(ns, i, j)
    ensures j <= i
    decreases i
  {
    if i != j {
      ChainBelow(ns, ns[i].parent, j);
    }
  }

  lemma {:induction false} ChainSame(a: Nodes, b: Nodes, i: nat, j: nat)
    requires Tree(a) && Tree(b) && SameTree(a, b) && i < |a|
    ensures OnChain(a, i, j) == OnChain(b, i, j)
    decreases i
  {
    if a[i].parent >= 0 {
      ChainSame(a, b, a[i].parent, j);
    }
  }

  // An accepted delta is added to every count on the chain and to no other.
  lemma {:induction false} ApplyAdds(ns: Nodes, i: nat, delta: int)
    requires Tree(ns) && i < |ns|
    ensures ApplyOn(ns, i, delta).0 <==> !(delta >= 0 && Refuses(ns, i))
    ensures !ApplyOn(ns, i, delta).0 ==> ApplyOn(ns, i, delta).1 == ns
    ensures var (ok, after) := ApplyOn(ns, i, delta);
            ok ==> forall j: nat | j < |ns| ::
                && after[j].count == ns[j].count + (if OnChain(ns, i, j) then delta else 0)
                && after[j] == ns[j].(count := after[j].count, own := after[j].own)
    decreases i
  {
    if ns[i].parent >= 0 {
      ApplyAdds(ns, ns[i].parent, delta);
    }
    forall j: nat | j < |ns| && ns[i].parent >= 0 && OnChain(ns, ns[i].parent, j) ensures j < i {
      ChainBelow(ns, ns[i].parent, j);
    }
  }

  // Causes, once given, stay.
  ghost predicate CausesKept(a: Nodes, b: Nodes)
    requires Tree(a) && Tree(b)
  {
    |a| <= |b| && forall j: nat | j < |a| && CauseOf(a, j).Some? :: CauseOf(b, j) == CauseOf(a, j)
  }

  // Only contexts without a cause were given one.
  ghost predicate OnlyNewCauses(a: Nodes, b: Nodes)
    requires Tree(a)
  {
    SameTree(a, b) && forall j: nat | j < |a| && b[j].own != a[j].own :: CauseOf(a, j).None?
  }

  lemma {:induction false} NewCausesKeep(a: Nodes, b: Nodes, j: nat)
    requires Tree(a) && Tree(b) && OnlyNewCauses(a, b) && j < |a|
    ensures CauseOf(a, j).Some? ==> CauseOf(b, j) == CauseOf(a, j)
    decreases j
  {
    if a[j].parent >= 0 {
      NewCausesKeep(a, b, a[j].parent);
    }
  }

  // What a delta does to the causes: it cancels the idle stopping contexts.
  lemma {:induction false} ApplyCancels(ns: Nodes, i: nat, delta: int)
    requires Tree(ns) && i < |ns|
    ensures var after := ApplyOn(ns, i, delta).1;
            && OnlyNewCauses(ns, after)
            && (forall j: nat | j < |ns| && after[j].own != ns[j].own ::
                  OnChain(ns, i, j) && after[j].own == Some(ErrStopped) && after[j].stopping && after[j].count == 0)
            && (forall j: nat |
                  && j < |ns| && ApplyOn(ns, i, delta).0 && OnChain(ns, i, j)
                  && after[j].stopping && after[j].count == 0 ::
                  CauseOf(after, j).Some?)
    decreases i
  {
    var (ok, after) := ApplyOn(ns, i, delta);
    if ok {
      var p := ns[i].parent;
      var up := if p < 0 then ns else ApplyOn(ns, p, delta).1;
      if p >= 0 {
        ApplyAdds(ns, p, delta);
        ApplyCancels(ns, p, delta);
      }
      CountsLast(up, i, delta);
      forall j: nat | j < |ns| && p >= 0 && OnChain(ns, p, j) ensures j < i {
        ChainBelow(ns, p, j);
      }
      NewCausesKeep(ns, up, i);
    }
  }

  function CountAt(up: Nodes, i: nat, delta: int): (r: Nodes)
    requires Tree(up) && i < |up|
    ensures Tree(r) && SameTree(up, r)
  {
    var counted := up[i := up[i].(count := up[i].count + delta)];
    if counted[i].count == 0 && counted[i].stopping then CancelOn(counted, i, ErrStopped) else counted
  }

  // The last thing apply does, once the chain above has accepted the delta.
  lemma CountsLast(up: Nodes, i: nat, delta: int)
    requires Tree(up) && i < |up|
    ensures var after := CountAt(up, i, delta);
            && OnlyNewCauses(up, after) && (forall j: nat | j < |up| && j != i :: after[j] == up[j])
            && (after[i].own != up[i].own ==>
                  after[i].own == Some(ErrStopped) && after[i].stopping && after[i].count == 0)
            && (after[i].stopping && after[i].count == 0 ==> CauseOf(after, i).Some?)
            && (forall j: nat | j < |up| && CauseOf(up, j).Some? :: CauseOf(after, j).Some?)
  {
    var counted, after := up[i := up[i].(count := up[i].count + delta)], CountAt(up, i, delta);
    NewCausesKeep(up, counted, i);
    NewCausesKeep(counted, up, i);
    forall j: nat | j < |up| && CauseOf(up, j).Some? ensures CauseOf(after, j).Some? {
      NewCausesKeep(up, after, j);
    }
  }

  // The context nested directly in j on the way up from i, or -1.
  function Via(ns: Nodes, i: nat, j: nat): int
    requires Tree(ns) && i < |ns|
    decreases i
  {
    if ns[i].parent == j then i else if ns[i].parent < 0 then -1 else Via(ns, ns[i].parent, j)
  }

  lemma {:induction false} ViaIsChild(ns: Nodes, i: nat, j: nat, k: nat)
    requires Tree(ns) && i < |ns| && k < |ns|
    ensures k == Via(ns, i, j) <==> OnChain(ns, i, k) && ns[k].parent == j
    ensures Via(ns, i, j) >= 0 <==> OnChain(ns, i, j) && i != j
    decreases i
  {
    var p := ns[i].parent;
    if p >= 0 {
      ViaIsChild(ns, p, j, k);
      if OnChain(ns, p, k) {
        ChainBelow(ns, p, k);
      }
      if OnChain(ns, p, j) {
        ChainBelow(ns, p, j);
      }
    }
  }

  lemma {:induction false} ChildSumAdds(a: Nodes, b: Nodes, i: nat, j: nat, delta: int, n: nat)
    requires Tree(a) && SameTree(a, b) && i < |a| && n <= |a|
    requires forall k: nat | k < |a| :: b[k].count == a[k].count + if OnChain(a, i, k) then delta else 0
    ensures ChildSum(b, j, n) == ChildSum(a, j, n) + if 0 <= Via(a, i, j) < n then delta else 0
  {
    if n > 0 {
      ChildSumAdds(a, b, i, j, delta, n - 1);
      ViaIsChild(a, i, j, n - 1);
    }
  }

  // A delta keeps the balance if the context runs that much more itself.
  lemma AddingBalances(a: Nodes, b: Nodes, i: nat, delta: int)
    requires Tree(a) && SameTree(a, b) && i < |a| && Balanced(a) && a[i].live + delta >= 0
    requires forall k: nat | k < |a| :: b[k].count == a[k].count + if OnChain(a, i, k) then delta else 0
    requires forall k: nat | k < |a| :: b[k].live == a[k].live + if k == i then delta else 0
    ensures Balanced(b)
  {
    forall j: nat | j < |b| ensures b[j].count == b[j].live + ChildSum(b, j, |b|) {
      ChildSumAdds(a, b, i, j, delta, |a|);
      ViaIsChild(a, i, j, j);
      assert Via(a, i, j) < |a| by {
        ViaBelow(a, i, j);
      }
    }
  }

  lemma {:induction false} ViaBelow(ns: Nodes, i: nat, j: nat)
    requires Tree(ns) && i < |ns|
    ensures Via(ns, i, j) <= i
    decreases i
  {
    if ns[i].parent >= 0 {
      ViaBelow(ns, ns[i].parent, j);
    }
  }

  // Counts are never negative, and a context counts whatever is nested in it.
  lemma {:induction false} CountsCover(ns: Nodes, j: nat)
    requires Tree(ns) && Balanced(ns) && j < |ns|
    ensures ns[j].count >= ns[j].live >= 0
    decreases |ns| - j
  {
    ChildSumCovers(ns, j, |ns|);
  }

  lemma {:induction false} ChildSumCovers(ns: Nodes, j: nat, n: nat)
    requires Tree(ns) && Balanced(ns) && j < |ns| && n <= |ns|
    ensures ChildSum(ns, j, n) >= 0
    ensures forall k | 0 <= k < n && ns[k].parent == j :: ChildSum(ns, j, n) >= ns[k].count
    decreases |ns| - j, n
  {
    if n > 0 {
      ChildSumCovers(ns, j, n - 1);
      if ns[n - 1].parent == j {
        ChildSumCovers(ns, n - 1, |ns|);
      }
    }
  }

  lemma {:induction false} ChainCovers(ns: Nodes, i: nat, j: nat)
    requires Tree(ns) && Balanced(ns) && i < |ns| && j < |ns| && OnChain(ns, i, j)
    ensures ns[j].count >= ns[i].count >= ns[i].live >= 0
    decreases i
  {
    CountsCover(ns, i);
    var p := ns[i].parent;
    if i != j {
      ChildSumCovers(ns, p, |ns|);
      CountsCover(ns, p);
      ChainCovers(ns, p, j);
    }
  }

  // A goroutine that returns is counted everywhere: no count is over-released.
  lemma ExitNeverOverReleases(ns: Nodes, i: nat, j: nat)
    requires Valid(ns) && i < |ns| && ns[i].live > 0 && j < |ns|
    ensures ApplyOn(ns, i, -1).0 && ApplyOn(ns, i, -1).1[j].count >= 0
  {
    ApplyAdds(ns, i, -1);
    CountsCover(ns, j);
    if OnChain(ns, i, j) {
      ChainCovers(ns, i, j);
    }
  }

  // The steps keep the invariant.

  lemma GoKeepsValid(ns: Nodes, i: nat)
    requires Valid(ns) && i < |ns|
    ensures Valid(Step(ns, Go(i))) && CausesKept(ns, Step(ns, Go(i)))
  {
    var (ok, up) := ApplyOn(ns, i, 1);
    var after := Step(ns, Go(i));
    ApplyAdds(ns, i, 1);
    ApplyCancels(ns, i, 1);
    if ok {
      AddingBalances(ns, after, i, 1);
      forall j: nat | j < |ns|
        ensures after[j].own == Some(ErrStopped) ==> after[j].stopping && after[j].count == 0
        ensures after[j].stopping && after[j].count == 0 ==> CauseOf(after, j).Some?
        ensures CauseOf(ns, j).Some? ==> CauseOf(after, j) == CauseOf(ns, j)
      {
        ChainStops(ns, i, j);
        NewCausesKeep(ns, up, j);
        NewCausesKeep(up, after, j);
      }
    }
  }

  lemma {:induction false} ChainStops(ns: Nodes, i: nat, j: nat)
    requires Tree(ns) && i < |ns| && j < |ns|
    ensures OnChain(ns, i, j) && ns[j].stopping ==> Refuses(ns, i)
    decreases i
  {
    if ns[i].parent >= 0 {
      ChainStops(ns, ns[i].parent, j);
    }
  }

  lemma LiveToExit(ns: Nodes, i: nat, noted: nat)
    requires Valid(ns) && i < |ns| && noted <= 1
    requires if noted == 1 then ns[i].tally.noted > 0 else Sound(ns[i]) > 0
    ensures ns[i].live > 0
  {
    assert Accounted(ns[i]);
  }

  lemma ExitFrame(ns: Nodes, i: nat, noted: nat)
    requires Tree(ns) && i < |ns|
    ensures var up, after := ApplyOn(ns, i, -1).1, ExitOn(ns, i, noted);
            && (forall j: nat | j < |ns| ::
                  && after[j].count == up[j].count == ns[j].count + (if OnChain(ns, i, j) then -1 else 0)
                  && after[j].own == up[j].own && after[j].stopping == up[j].stopping == ns[j].stopping)
            && (forall j: nat | j < |ns| && j != i :: after[j].live == ns[j].live && after[j].tally == ns[j].tally)
            && after[i].live == ns[i].live - 1
            && after[i].tally == ns[i].tally.(noted := ns[i].tally.noted - noted)
  {
    hide ApplyOn;
    ApplyAdds(ns, i, -1);
  }

  lemma ExitAccounted(ns: Nodes, i: nat, noted: nat)
    requires Valid(ns) && i < |ns| && noted <= 1
    requires if noted == 1 then ns[i].tally.noted > 0 else Sound(ns[i]) > 0
    ensures AllAccounted(ExitOn(ns, i, noted))
  {
    var after := ExitOn(ns, i, noted);
    ExitFrame(ns, i, noted);
    hide ExitOn, ApplyOn, Balanced, StoppedIdle;
    forall j: nat | j < |after| ensures Accounted(after[j]) {
      assert Accounted(ns[j]);
    }
  }

  lemma ExitKeepsValid(ns: Nodes, i: nat, noted: nat)
    requires Valid(ns) && i < |ns| && noted <= 1
    requires if noted == 1 then ns[i].tally.noted > 0 else Sound(ns[i]) > 0
    ensures Valid(ExitOn(ns, i, noted)) && CausesKept(ns, ExitOn(ns, i, noted))
  {
    var up := ApplyOn(ns, i, -1).1;
    var after := ExitOn(ns, i, noted);
    ExitAccounted(ns, i, noted);
    LiveToExit(ns, i, noted);
    ExitFrame(ns, i, noted);
    ApplyAdds(ns, i, -1);
    ApplyCancels(ns, i, -1);
    hide ExitOn, ApplyOn, AllAccounted;
    AddingBalances(ns, after, i, -1);
    forall j: nat | j < |ns|
      ensures after[j].own == Some(ErrStopped) ==> after[j].stopping && after[j].count == 0
      ensures after[j].stopping && after[j].count == 0 ==> CauseOf(after, j).Some?
      ensures CauseOf(ns, j).Some? ==> CauseOf(after, j) == CauseOf(ns, j)
    {
      NewCausesKeep(ns, up, j);
      NewCausesKeep(up, after, j);
      if OnChain(ns, i, j) {
        ChainCovers(ns, i, j);
      }
    }
  }

  lemma AccountedSame(a: Nodes, b: Nodes)
    requires AllAccounted(a) && |a| == |b|
    requires forall j: nat | j < |a| :: b[j].tally == a[j].tally && b[j].live == a[j].live
    ensures AllAccounted(b)
  {
    hide Accounted;
    forall j: nat | j < |b| ensures Accounted(b[j]) {
      assert Accounted(a[j]);
      AccountedBy(a[j], b[j]);
    }
  }

  lemma AccountedBy(a: Node, b: Node)
    requires Accounted(a) && b.tally == a.tally && b.live == a.live
    ensures Accounted(b)
  {
  }

  lemma NoteKeepsValid(ns: Nodes, i: nat, tally: Tally)
    requires Valid(ns) && i < |ns| && Accounted(ns[i].(tally := tally))
    ensures Valid(Note(ns, i, tally)) && CausesKept(ns, Note(ns, i, tally))
  {
    var after := Note(ns, i, tally);
    AddingBalances(ns, after, i, 0);
    forall j: nat | j < |ns| ensures CauseOf(after, j) == CauseOf(ns, j) {
      NewCausesKeep(ns, after, j);
      NewCausesKeep(after, ns, j);
    }
  }

  lemma FailedAccounted(n: Node, e: string)
    requires Accounted(n) && Sound(n) > 0
    ensures Accounted(n.(tally := Failed(n.tally, e)))
  {
  }

  lemma CausesKeptTrans(a: Nodes, b: Nodes, c: Nodes)
    requires Tree(a) && Tree(b) && Tree(c) && CausesKept(a, b) && CausesKept(b, c)
    ensures CausesKept(a, c)
  {
    hide CauseOf;
  }

  lemma FailKeepsValid(ns: Nodes, i: nat, e: string)
    requires Valid(ns) && i < |ns| && Sound(ns[i]) > 0
    ensures Valid(Step(ns, Fail(i, e))) && CausesKept(ns, Step(ns, Fail(i, e)))
  {
    var stopped := StopOn(ns, i, false);
    var tally := Failed(stopped[i].tally, e);
    StopFrame(ns, i, false);
    StopKeepsValid(ns, i, false);
    hide StopOn, Accounted, Balanced, StoppedIdle, CauseOf, CausesKept, Note, Failed;
    assert Accounted(stopped[i]);
    FailedAccounted(stopped[i], e);
    NoteKeepsValid(stopped, i, tally);
    CausesKeptTrans(ns, stopped, Note(stopped, i, tally));
  }

  lemma RecordKeepsValid(ns: Nodes, i: nat, e: string)
    requires Valid(ns) && i < |ns| && e in ns[i].tally.broken
    ensures Valid(Step(ns, Record(i, e))) && CausesKept(ns, Step(ns, Record(i, e)))
  {
    assert Accounted(ns[i]);
    NoteKeepsValid(ns, i, Recorded(ns[i].tally, e));
  }

  lemma StopKeepsValid(ns: Nodes, i: nat, grace: bool)
    requires Valid(ns) && i < |ns|
    ensures Valid(StopOn(ns, i, grace)) && CausesKept(ns, StopOn(ns, i, grace))
  {
    var after := StopOn(ns, i, grace);
    StopFrame(ns, i, grace);
    AccountedSame(ns, after);
    hide StopOn, AllAccounted;
    AddingBalances(ns, after, i, 0);
    forall j: nat | j < |ns|
      ensures after[j].own == Some(ErrStopped) ==> after[j].stopping && after[j].count == 0
      ensures after[j].stopping && after[j].count == 0 ==> CauseOf(after, j).Some?
      ensures CauseOf(ns, j).Some? ==> CauseOf(after, j) == CauseOf(ns, j)
    {
      NewCausesKeep(ns, after, j);
    }
  }

  // What a stop does and does not change.
  lemma StopFrame(ns: Nodes, i: nat, grace: bool)
    requires Tree(ns) && i < |ns|
    ensures var after := StopOn(ns, i, grace);
            && OnlyNewCauses(ns, after)
            && (forall j: nat | j < |ns| :: after[j] == ns[j].(own := after[j].own, stopping := after[j].stopping,
                                                              grace := after[j].grace))
            && (forall j: nat | j < |ns| && j != i :: after[j] == ns[j])
            && (after[i].own != ns[i].own ==> after[i].own == Some(ErrStopped) && after[i].count == 0)
            && after[i].stopping && (!ns[i].stopping && ns[i].count == 0 ==> CauseOf(after, i).Some?)
  {
    var after := StopOn(ns, i, grace);
    var stopped := ns[i := ns[i].(stopping := true)];
    NewCausesKeep(ns, stopped, i);
    NewCausesKeep(stopped, ns, i);
  }

  lemma CancelKeepsValid(ns: Nodes, i: nat, cause: Cause)
    requires Valid(ns) && i < |ns| && cause != ErrStopped
    ensures Valid(CancelOn(ns, i, cause)) && CausesKept(ns, CancelOn(ns, i, cause))
  {
    var after := CancelOn(ns, i, cause);
    AddingBalances(ns, after, i, 0);
    forall j: nat | j < |ns|
      ensures after[j].own == Some(ErrStopped) ==> after[j].stopping && after[j].count == 0
      ensures after[j].stopping && after[j].count == 0 ==> CauseOf(after, j).Some?
      ensures CauseOf(ns, j).Some? ==> CauseOf(after, j) == CauseOf(ns, j)
    {
      NewCausesKeep(ns, after, j);
    }
    AccountedSame(ns, after);
  }

  lemma {:induction false} ChildSumPrefix(ns: Nodes, node: Node, j: int, n: nat)
    requires n <= |ns|
    ensures ChildSum(ns + [node], j, n) == ChildSum(ns, j, n)
  {
    if n > 0 {
      ChildSumPrefix(ns, node, j, n - 1);
    }
  }

  lemma {:induction false} PrefixSame(ns: Nodes, node: Node, i: nat, j: nat)
    requires Tree(ns) && Tree(ns + [node]) && i < |ns|
    ensures CauseOf(ns + [node], i) == CauseOf(ns, i) && OnChain(ns + [node], i, j) == OnChain(ns, i, j)
    decreases i
  {
    if ns[i].parent >= 0 {
      PrefixSame(ns, node, ns[i].parent, j);
    }
  }

  lemma {:induction false} NoChildSum(ns: Nodes, j: nat, n: nat)
    requires Tree(ns) && n <= |ns| && n <= j
    ensures ChildSum(ns, j, n) == 0
  {
    if n > 0 {
      NoChildSum(ns, j, n - 1);
    }
  }

  lemma NewKeepsValid(ns: Nodes, parent: int)
    requires Valid(ns) && -1 <= parent < |ns|
    ensures Valid(Step(ns, WithContext(parent))) && CausesKept(ns, Step(ns, WithContext(parent)))
  {
    var node := Node(parent, 0, false, None, false, 0, NO_ERRORS);
    var after := ns + [node];
    forall j: nat | j < |after| ensures after[j].count == after[j].live + ChildSum(after, j, |after|) {
      ChildSumPrefix(ns, node, j, |ns|);
      if j == |ns| {
        NoChildSum(ns, j, |ns|);
      }
    }
    forall j: nat | j < |ns| ensures CauseOf(after, j) == CauseOf(ns, j) {
      PrefixSame(ns, node, j, j);
    }
  }

  lemma StepKeepsValid(ns: Nodes, e: Event)
    requires Valid(ns) && Enabled(ns, e)
    ensures Valid(Step(ns, e)) && CausesKept(ns, Step(ns, e))
  {
    hide Valid, CausesKept;
    match e
    case WithContext(parent) => NewKeepsValid(ns, parent);
    case Go(i) => GoKeepsValid(ns, i);
    case Fail(i, x) => FailKeepsValid(ns, i, x);
    case Record(i, x) => RecordKeepsValid(ns, i, x);
    case Exit(i, erred) => ExitKeepsValid(ns, i, if erred then 1 else 0);
    case StopCall(i, grace) => StopKeepsValid(ns, i, grace);
    case Expire(i) => CancelKeepsValid(ns, i, ErrGracePeriodExpired);
    case External(i) => CancelKeepsValid(ns, i, Other);
    case Propagate(i) => StopKeepsValid(ns, i, false);
  }

  // In every run, every count is balanced and nothing is stopped while it runs.
  lemma {:induction false} RunIsValid(events: seq<Event>)
    ensures Valid(Run(events))
  {
    if events != [] {
      var n := |events| - 1;
      RunIsValid(events[..n]);
      if Enabled(Run(events[..n]), events[n]) {
        StepKeepsValid(Run(events[..n]), events[n]);
      }
    }
  }

  // A goroutine starts exactly if no context from this one up is stopping, and
  // a refusal changes nothing anywhere.
  lemma GoStartsIff(ns: Nodes, i: nat)
    requires Tree(ns) && i < |ns|
    ensures Step(ns, Go(i))[i].live == ns[i].live + 1 <==> !Refuses(ns, i)
    ensures Refuses(ns, i) ==> Step(ns, Go(i)) == ns
  {
    ApplyAdds(ns, i, 1);
  }

  // A context cancelled with ErrStopped has nothing running in its whole
  // subtree, and nothing can start there.
  lemma {:induction false} StoppedIsIdle(ns: Nodes, i: nat, j: nat)
    requires Valid(ns) && i < |ns| && j < |ns| && OnChain(ns, i, j) && CauseOf(ns, j) == Some(ErrStopped)
    ensures ns[i].count == 0 && ns[i].live == 0 && Refuses(ns, i)
    decreases j
  {
    if ns[j].own.Some? {
      ChainCovers(ns, i, j);
      ChainStops(ns, i, j);
    } else {
      ChainBelow(ns, i, j);
      ChainTrans(ns, i, j, ns[j].parent);
      StoppedIsIdle(ns, i, ns[j].parent);
    }
  }

  lemma {:induction false} ChainTrans(ns: Nodes, i: nat, j: nat, k: nat)
    requires Tree(ns) && i < |ns| && j < |ns| && OnChain(ns, i, j) && OnChain(ns, j, k)
    ensures OnChain(ns, i, k)
    decreases i
  {
    if i != j {
      ChainTrans(ns, ns[i].parent, j, k);
    }
  }

  lemma {:induction false} RunKeepsCauses(events: seq<Event>, more: seq<Event>)
    ensures CausesKept(Run(events), Run(events + more))
  {
    if more == [] {
      assert events + more == events;
    } else {
      var n := |more| - 1;
      var all := events + more;
      assert all[..|all| - 1] == events + more[..n] && all[|all| - 1] == more[n];
      RunKeepsCauses(events, more[..n]);
      RunIsValid(events + more[..n]);
      var before := Run(events + more[..n]);
      if Enabled(before, more[n]) {
        StepKeepsValid(before, more[n]);
      }
    }
  }

  // Once cancelled with ErrStopped, a context and all that is ever nested in it
  // run nothing for the rest of any run.
  lemma StoppedForEver(events: seq<Event>, more: seq<Event>, i: nat, j: nat)
    requires j < |Run(events)| && CauseOf(Run(events), j) == Some(ErrStopped)
    requires i < |Run(events + more)| && OnChain(Run(events + more), i, j)
    ensures Run(events + more)[i].live == 0 && Refuses(Run(events + more), i)
  {
    RunKeepsCauses(events, more);
    RunIsValid(events + more);
    StoppedIsIdle(Run(events + more), i, j);
  }

  // What a call of Stop does: the first one makes the context stop, for good. If it
  // is idle it is cancelled, otherwise a grace period may start.
  lemma StopDoes(ns: Nodes, i: nat, grace: bool)
    requires Tree(ns) && i < |ns|
    ensures var after := StopOn(ns, i, grace);
            && after[i].stopping
            && (after[i].grace <==> ns[i].grace || (grace && !ns[i].stopping && ns[i].count != 0))
            && CauseOf(after, i) == (if CauseOf(ns, i).None? && !ns[i].stopping && ns[i].count == 0
                                     then Some(ErrStopped) else CauseOf(ns, i))
            && (after[i].live, after[i].count, after[i].tally) == (ns[i].live, ns[i].count, ns[i].tally)
            && forall j: nat | j < |ns| && j != i :: after[j] == ns[j]
  {
    var stopped := ns[i := ns[i].(stopping := true)];
    NewCausesKeep(ns, stopped, i);
    NewCausesKeep(stopped, ns, i);
    if !ns[i].stopping && ns[i].count == 0 {
      CancelDoes(stopped, i, ErrStopped);
    } else {
      NewCausesKeep(ns, StopOn(ns, i, grace), i);
      NewCausesKeep(StopOn(ns, i, grace), ns, i);
    }
  }

  // A stop reaches all that is nested: the helpers alone make it so.
  lemma {:induction false} StopReaches(events: seq<Event>, i: nat, j: nat) returns (more: seq<Event>)
    requires i < |Run(events)| && OnChain(Run(events), i, j) && j < |Run(events)| && Run(events)[j].stopping
    ensures forall k | 0 <= k < |more| :: more[k].Propagate?
    ensures SameTree(Run(events), Run(events + more)) && Run(events + more)[i].stopping
    decreases i
  {
    if i == j {
      more := [];
      assert events + more == events;
    } else {
      hide Run;
      var p := Run(events)[i].parent;
      var most := StopReaches(events, p, j);
      more := most + [Propagate(i)];
      assert events + more == (events + most) + [Propagate(i)];
      PropagateReaches(events + most, i);
    }
  }

  lemma PropagateReaches(events: seq<Event>, i: nat)
    requires i < |Run(events)| && Run(events)[i].parent >= 0 && Run(events)[Run(events)[i].parent].stopping
    ensures SameTree(Run(events), Run(events + [Propagate(i)])) && Run(events + [Propagate(i)])[i].stopping
  {
    RunLast(events, Propagate(i));
    StopDoes(Run(events), i, false);
    hide Run, StopOn, CauseOf;
  }

  lemma RunLast(events: seq<Event>, e: Event)
    ensures Run(events + [e]) == if Enabled(Run(events), e) then Step(Run(events), e) else Run(events)
  {
    hide Enabled, Step;
    assert (events + [e])[..|events|] == events;
  }

  // The end of a grace period, and of the context that this one was made from: the
  // context has a cause from then on, and it is this one if there was none.
  lemma CancelDoes(ns: Nodes, i: nat, cause: Cause)
    requires Tree(ns) && i < |ns|
    ensures var after := CancelOn(ns, i, cause);
            && CauseOf(after, i) == (if CauseOf(ns, i).Some? then CauseOf(ns, i) else Some(cause))
            && after == ns[i := ns[i].(own := after[i].own)]
  {
  }

  lemma ExpireCancels(ns: Nodes, i: nat)
    requires Tree(ns) && Enabled(ns, Expire(i))
    ensures CauseOf(Step(ns, Expire(i)), i) ==
            if CauseOf(ns, i).Some? then CauseOf(ns, i) else Some(ErrGracePeriodExpired)
  {
    CancelDoes(ns, i, ErrGracePeriodExpired);
  }

  lemma ExternalCancels(ns: Nodes, i: nat)
    requires Tree(ns) && i < |ns|
    ensures CauseOf(Step(ns, External(i)), i) == if CauseOf(ns, i).Some? then CauseOf(ns, i) else Some(Other)
  {
    CancelDoes(ns, i, Other);
  }

  // The k-th event of a run starts a grace period for context i: it is asked to stop
  // with one while it is busy, for the first time.
  predicate GracedAt(events: seq<Event>, i: nat, k: nat)
    requires k < |events|
  {
    var before := Run(events[..k]);
    events[k] == StopCall(i, true) && i < |before| && !before[i].stopping && before[i].count != 0
  }

  lemma StepGraces(ns: Nodes, e: Event, j: nat)
    requires Tree(ns) && Enabled(ns, e) && j < |Step(ns, e)|
    ensures Step(ns, e)[j].grace <==>
            j < |ns| && (ns[j].grace || (e == StopCall(j, true) && !ns[j].stopping && ns[j].count != 0))
  {
    hide ApplyOn, StopOn, ExitOn, CauseOf, Refuses, OnChain;
    match e {
      case Go(i) => ApplyAdds(ns, i, 1);
      case Exit(i, erred) => ExitKeepsGrace(ns, i, if erred then 1 else 0, j);
      case Fail(i, _) => StopDoes(ns, i, false);
      case StopCall(i, grace) => StopDoes(ns, i, grace);
      case Propagate(i) => StopDoes(ns, i, false);
      case _ =>
    }
  }

  lemma ExitKeepsGrace(ns: Nodes, i: nat, noted: nat, j: nat)
    requires Tree(ns) && i < |ns| && j < |ns|
    ensures ExitOn(ns, i, noted)[j].grace == ns[j].grace
  {
    hide ApplyOn;
    ApplyAdds(ns, i, -1);
  }

  lemma GracedBefore(events: seq<Event>, i: nat, k: nat)
    requires k < |events| - 1
    ensures GracedAt(events, i, k) <==> GracedAt(events[..|events| - 1], i, k)
  {
    assert events[..|events| - 1][..k] == events[..k];
  }

  // Contexts do not go away, so one that is yet to come has no grace period.
  lemma {:induction false} NeverGraced(events: seq<Event>, j: nat)
    requires j >= |Run(events)|
    ensures forall k: nat | k < |events| :: !GracedAt(events, j, k)
  {
    if events != [] {
      var n := |events| - 1;
      var before, e := Run(events[..n]), events[n];
      assert Enabled(before, e) ==> |Step(before, e)| >= |before|;
      NeverGraced(events[..n], j);
      forall k: nat | k < |events| ensures !GracedAt(events, j, k) {
        if k < n {
          GracedBefore(events, j, k);
        }
      }
    }
  }

  // A grace period can run out exactly if there is one.
  lemma {:induction false} ExpiresIff(events: seq<Event>, i: nat)
    requires i < |Run(events)|
    ensures Enabled(Run(events), Expire(i)) <==> exists k: nat | k < |events| :: GracedAt(events, i, k)
  {
    hide StopOn, ApplyOn, ExitOn, CauseOf;
    var n := |events| - 1;
    var before, e := Run(events[..n]), events[n];
    assert GracedAt(events, i, n) <==>
           e == StopCall(i, true) && i < |before| && !before[i].stopping && before[i].count != 0;
    assert e == StopCall(i, true) && i < |before| ==> Enabled(before, e);
    assert Enabled(Run(events), Expire(i)) <==> Run(events)[i].grace;
    hide GracedAt;
    if i < |before| {
      ExpiresIff(events[..n], i);
    } else {
      NeverGraced(events[..n], i);
    }
    if Enabled(before, e) {
      StepGraces(before, e, i);
    }
    hide Run, Step, Enabled;
    forall k: nat | k < n ensures GracedAt(events, i, k) <==> GracedAt(events[..n], i, k) {
      GracedBefore(events, i, k);
    }
  }

  // Once cancelled with ErrStopped, what Wait returns is the first error recorded,
  // and there is one exactly if a goroutine of this context has failed.
  lemma ErrorIffFailed(ns: Nodes, j: nat)
    requires Valid(ns) && j < |ns| && CauseOf(ns, j) == Some(ErrStopped)
    ensures var t := ns[j].tally;
            && multiset(t.recorded) == multiset(t.failed)
            && (t.err.Some? <==> t.failed != [])
            && (t.err.Some? ==> t.recorded != [] && t.err.value == t.recorded[0])
  {
    StoppedIsIdle(ns, j, j);
    var t := ns[j].tally;
    assert Accounted(ns[j]);
    assert |t.broken| == 0 && |t.failed| == |multiset(t.failed)| && |t.recorded| == |multiset(t.recorded)|;
  }

  // The k-th event of a run is a failure of a goroutine of context j.
  predicate FailsAt(events: seq<Event>, j: nat, k: nat)
    requires k < |events|
  {
    events[k].Fail? && events[k].i == j && Enabled(Run(events[..k]), events[k])
  }

  lemma StepFails(ns: Nodes, e: Event, j: nat)
    requires Tree(ns) && Enabled(ns, e) && j < |Step(ns, e)|
    ensures Step(ns, e)[j].tally.failed ==
            if j == |ns| then [] else if e.Fail? && e.i == j then ns[j].tally.failed + [e.e] else ns[j].tally.failed
  {
    hide ApplyOn, StopOn, ExitOn, CauseOf, Refuses, OnChain;
    match e {
      case Go(i) => CountingKeepsErrors(ns, i, 1, 0, j);
      case Exit(i, erred) => CountingKeepsErrors(ns, i, -1, if erred then 1 else 0, j);
      case Fail(i, _) => StopDoes(ns, i, false);
      case StopCall(i, grace) => StopDoes(ns, i, grace);
      case Propagate(i) => StopDoes(ns, i, false);
      case _ =>
    }
  }

  lemma CountingKeepsErrors(ns: Nodes, i: nat, delta: int, noted: nat, j: nat)
    requires Tree(ns) && i < |ns| && j < |ns|
    ensures var up := ApplyOn(ns, i, delta).1; up[j].tally == ns[j].tally
    ensures ExitOn(ns, i, noted)[j].tally.failed == ns[j].tally.failed
  {
    ApplyAdds(ns, i, delta);
    ExitFrame(ns, i, noted);
    hide ApplyOn, ExitOn;
  }

  // Contexts do not go away, so one that is yet to come has not failed.
  lemma {:induction false} NeverFailed(events: seq<Event>, j: nat)
    requires j >= |Run(events)|
    ensures forall k: nat | k < |events| :: !FailsAt(events, j, k)
  {
    if events != [] {
      var n := |events| - 1;
      var before, e := Run(events[..n]), events[n];
      assert Enabled(before, e) ==> |Step(before, e)| >= |before|;
      NeverFailed(events[..n], j);
      forall k: nat | k < |events| ensures !FailsAt(events, j, k) {
        if k < n {
          assert events[..n][..k] == events[..k] && !FailsAt(events[..n], j, k);
        }
      }
    }
  }

  lemma FailsBefore(events: seq<Event>, j: nat, k: nat)
    requires k < |events| - 1
    ensures FailsAt(events, j, k) <==> FailsAt(events[..|events| - 1], j, k)
  {
    assert events[..|events| - 1][..k] == events[..k];
  }

  lemma {:induction false} FailedInRun(events: seq<Event>, j: nat)
    requires j < |Run(events)|
    ensures Run(events)[j].tally.failed != [] <==> exists k: nat | k < |events| :: FailsAt(events, j, k)
  {
    var n := |events| - 1;
    var before, e := Run(events[..n]), events[n];
    assert FailsAt(events, j, n) <==> e.Fail? && e.i == j && Enabled(before, e);
    hide Enabled, Step;
    if j < |before| {
      FailedInRun(events[..n], j);
    } else {
      NeverFailed(events[..n], j);
    }
    if Enabled(before, e) {
      StepFails(before, e, j);
    }
    hide FailsAt, Run;
    forall k: nat | k < n ensures FailsAt(events, j, k) <==> FailsAt(events[..n], j, k) {
      FailsBefore(events, j, k);
    }
  }

  // Wait returns an error exactly if a goroutine started on this very context
  // has failed in the run before.
  lemma WaitErrorIff(events: seq<Event>, j: nat)
    requires j < |Run(events)| && CauseOf(Run(events), j) == Some(ErrStopped)
    ensures Run(events)[j].tally.err.Some? <==> exists k: nat | k < |events| :: FailsAt(events, j, k)
  {
    RunIsValid(events);
    ErrorIffFailed(Run(events), j);
    FailedInRun(events, j);
  }

  // A stopping context is cancelled as soon as nothing runs in its subtree.
  lemma IdleIsCancelled(events: seq<Event>, j: nat)
    requires j < |Run(events)| && Run(events)[j].stopping
    ensures Run(events)[j].count == 0 ==> CauseOf(Run(events), j).Some?
    ensures Run(events)[j].count > 0 ==>
              exists i: nat | i < |Run(events)| :: OnChain(Run(events), i, j) && Run(events)[i].live > 0
  {
    var ns := Run(events);
    RunIsValid(events);
    if ns[j].count > 0 {
      var i := SomeoneRuns(ns, j);
    }
  }

  lemma {:induction false} SomeoneRuns(ns: Nodes, j: nat) returns (i: nat)
    requires Tree(ns) && Balanced(ns) && j < |ns| && ns[j].count > 0
    ensures i < |ns| && OnChain(ns, i, j) && ns[i].live > 0
    decreases |ns| - j
  {
    if ns[j].live > 0 {
      return j;
    }
    var k := ChildWithCount(ns, j, |ns|);
    i := SomeoneRuns(ns, k);
    ChainTrans(ns, i, k, j);
  }

  lemma {:induction false} ChildWithCount(ns: Nodes, j: nat, n: nat) returns (k: nat)
    requires Tree(ns) && j < |ns| && n <= |ns| && ChildSum(ns, j, n) > 0
    ensures k < n && ns[k].parent == j && ns[k].count > 0
  {
    if ns[n - 1].parent == j && ns[n - 1].count > 0 {
      return n - 1;
    }
    k := ChildWithCount(ns, j, n - 1);
  }

  // The program's objects, tied to the tree above.

  class Context {
    // null stands for the background, which never stops.
    const parent: Context?
    ghost const id: nat
    var count: int
    var stopping: bool
    var err: Option<string>
    var cause: Option<Cause>
    var grace: bool
    ghost var live: int
    ghost var failed: seq<string>
    ghost var broken: multiset<string>
    ghost var recorded: seq<string>
    ghost var noted: int

    // WithContext
    constructor (parent: Context?, ghost all: seq<Context>)
      requires Family(all) && (parent == null || parent in all)
      ensures Family(all + [this]) && fresh(this)
      ensures Snap(all + [this])
           == Step(Snap(all), Event.WithContext(if parent == null then -1 else parent.id))
    {
      this.parent, id := parent, |all|;
      count, stopping, err, cause, grace, live := 0, false, None, None, false, 0;
      failed, broken, recorded, noted := [], multiset{}, [], 0;
      new;
      hide Snap, Family, Tree;
      FamilyIsTree(all);
      FamilyGrows(all, this);
      SnapAppended(all, this);
      assert NodeOf(this) == Node(if parent == null then -1 else parent.id, 0, false, None, false, 0, NO_ERRORS);
    }

    ghost predicate In(all: seq<Context>) {
      Family(all) && id < |all| && all[id] == this
    }

    method Cause(ghost all: seq<Context>) returns (r: Option<Cause>)
      requires In(all)
      ensures Tree(Snap(all)) && r == CauseOf(Snap(all), id)
      decreases id
    {
      FamilyIsTree(all);
      if cause.Some? || parent == null {
        return cause;
      }
      r := parent.Cause(all);
    }

    method Cancel(reason: Cause, ghost all: seq<Context>)
      requires In(all)
      modifies `cause
      ensures Tree(old(Snap(all))) && Snap(all) == CancelOn(old(Snap(all)), id, reason)
    {
      var already := Cause(all);
      if already.None? {
        cause := Some(reason);
      }
    }

    method Add(delta: int, ghost all: seq<Context>)
      requires In(all)
      modifies `count
      ensures Snap(all) == old(Snap(all))[id := NodeOf(this)]
      ensures count == old(count) + delta
    {
      ghost var before := Snap(all);
      count := count + delta;
      SnapUpdated(before, all, this);
    }

    method Count(delta: int, ghost all: seq<Context>)
      requires In(all) && count + delta >= 0
      modifies `count, `cause
      ensures Tree(old(Snap(all))) && Snap(all) == CountAt(old(Snap(all)), id, delta)
    {
      hide CauseOf, Snap, CancelOn, SameTree;
      FamilyIsTree(all);
      Add(delta, all);
      assert count >= 0;
      if count == 0 && stopping {
        Cancel(ErrStopped, all);
      }
    }

    // apply; a negative count would make the program panic.
    method Apply(delta: int, ghost all: seq<Context>) returns (ok: bool)
      requires In(all) && Tree(Snap(all)) && (delta == 1 || delta == -1)
      requires forall j: nat | j < |all| && OnChain(Snap(all), id, j) :: Snap(all)[j].count + delta >= 0
      modifies (set c | c in all)`count, (set c | c in all)`cause
      ensures Tree(old(Snap(all))) && (ok, Snap(all)) == ApplyOn(old(Snap(all)), id, delta)
      decreases id
    {
      hide Snap, CauseOf, Refuses, CountAt, SameTree;
      FamilyIsTree(all);
      if stopping && delta >= 0 {
        return false;
      }
      ghost var before := Snap(all);
      ok := true;
      if parent != null {
        ok := parent.Apply(delta, all);
        ApplyAdds(before, parent.id, delta);
        if OnChain(before, parent.id, id) {
          ChainBelow(before, parent.id, id);
        }
      }
      if !ok {
        return;
      }
      Count(delta, all);
    }

    // Stop
    method Stop(grace: bool, ghost all: seq<Context>)
      requires In(all)
      modifies this`stopping, this`cause, this`grace
      ensures Tree(old(Snap(all))) && Snap(all) == StopOn(old(Snap(all)), id, grace)
      ensures stopping
      ensures this.grace <==> old(this.grace) || (grace && !old(stopping) && old(count) != 0)
    {
      hide CauseOf, Snap, CancelOn;
      FamilyIsTree(all);
      if stopping {
        return;
      }
      ghost var before := Snap(all);
      stopping := true;
      SnapUpdated(before, all, this);
      assert Snap(all) == before[id := before[id].(stopping := true)];
      if count == 0 {
        Cancel(ErrStopped, all);
      } else if grace {
        ghost var unmarked := Snap(all);
        this.grace := true;
        SnapUpdated(unmarked, all, this);
      }
    }

    ghost method Move(delta: int, released: nat, all: seq<Context>)
      requires In(all)
      modifies `live, `noted
      ensures Snap(all) == old(Snap(all))[id := Moved(old(NodeOf(this)), delta, released)]
    {
      hide Snap;
      ghost var before, n := Snap(all), NodeOf(this);
      live, noted := live + delta, noted - released;
      assert NodeOf(this) == Moved(n, delta, released);
      SnapUpdated(before, all, this);
    }

    // Go, up to the start of the goroutine.
    method Go(ghost all: seq<Context>) returns (accepted: bool)
      requires In(all) && Valid(Snap(all))
      modifies all
      ensures Valid(Snap(all)) && Snap(all) == Step(old(Snap(all)), Event.Go(id))
      ensures accepted <==> !Refuses(old(Snap(all)), id)
    {
      hide Snap, NodeOf, CauseOf, Refuses, SameTree, OnChain, Valid, Balanced, StoppedIdle, AllAccounted, ApplyOn, Step,
           Moved;
      ghost var before := Snap(all);
      FamilyIsTree(all);
      AllCountsCover(before);
      GoIs(before, id);
      accepted := Apply(1, all);
      if accepted {
        assert Snap(all)[id] == NodeOf(this);
        Move(1, 0, all);
      }
    }

    // What a goroutine does with an error: it stops the context, and then records
    // the error unless there is one already.
    method Fail(e: string, ghost all: seq<Context>)
      requires In(all) && Valid(Snap(all)) && Enabled(Snap(all), Event.Fail(id, e))
      modifies this
      ensures Valid(Snap(all)) && Snap(all) == Step(old(Snap(all)), Event.Fail(id, e))
      ensures stopping
    {
      hide Snap, CauseOf, SameTree, Valid;
      ghost var before := Snap(all);
      FailKeepsValid(before, id, e);
      Stop(false, all);
      ghost var stopped := Snap(all);
      failed, broken := failed + [e], broken + multiset{e};
      SnapUpdated(stopped, all, this);
      assert Snap(all) == Note(stopped, id, Failed(stopped[id].tally, e));
    }

    method Keep(e: string, ghost all: seq<Context>)
      requires In(all)
      modifies `err, `broken, `recorded, `noted
      ensures Snap(all) == Note(old(Snap(all)), id, Recorded(old(NodeOf(this)).tally, e))
      ensures recorded == old(recorded) + [e] && err == if old(err).Some? then old(err) else Some(e)
    {
      hide Snap;
      ghost var before, n := Snap(all), NodeOf(this);
      if err.None? {
        err := Some(e);
      }
      broken, recorded, noted := broken - multiset{e}, recorded + [e], noted + 1;
      assert NodeOf(this) == n.(tally := Recorded(n.tally, e));
      SnapUpdated(before, all, this);
    }

    method Record(e: string, ghost all: seq<Context>)
      requires In(all) && Valid(Snap(all)) && Enabled(Snap(all), Event.Record(id, e))
      modifies `err, `broken, `recorded, `noted
      ensures Valid(Snap(all)) && Snap(all) == Step(old(Snap(all)), Event.Record(id, e))
      ensures recorded == old(recorded) + [e] && err == Some(recorded[0])
    {
      hide Snap, CauseOf, SameTree, Valid, Note, Recorded;
      ghost var before := Snap(all);
      RecordKeepsValid(before, id, e);
      FirstStays(before, id);
      Keep(e, all);
    }

    // The end of a goroutine.
    method Exit(ghost erred: bool, ghost all: seq<Context>)
      requires In(all) && Valid(Snap(all)) && Enabled(Snap(all), Event.Exit(id, erred))
      modifies all
      ensures Valid(Snap(all)) && Snap(all) == Step(old(Snap(all)), Event.Exit(id, erred))
    {
      hide Snap, NodeOf, CauseOf, Refuses, SameTree, OnChain, Valid, Balanced, StoppedIdle, AllAccounted, ApplyOn,
           Moved;
      ghost var before := Snap(all);
      ghost var n := if erred then 1 else 0;
      FamilyIsTree(all);
      AllChainCovers(before, id);
      LiveToExit(before, id, n);
      ExitKeepsValid(before, id, n);
      var ok := Apply(-1, all);
      assert Snap(all)[id] == NodeOf(this);
      Move(-1, n, all);
    }

    // Wait, once the context is done: the first error recorded, and after a clean
    // stop there is one exactly if a goroutine of this context has failed.
    method Wait(ghost all: seq<Context>) returns (r: Option<string>)
      requires In(all) && Valid(Snap(all)) && CauseOf(Snap(all), id).Some?
      ensures r == if recorded == [] then None else Some(recorded[0])
      ensures r.Some? ==> r.value in failed
      ensures CauseOf(Snap(all), id) == Some(ErrStopped) ==>
                live == 0 && count == 0 && multiset(recorded) == multiset(failed) && (r.Some? <==> failed != [])
    {
      hide Snap, CauseOf;
      ghost var ns := Snap(all);
      assert Accounted(ns[id]) && ns[id] == NodeOf(this);
      if recorded != [] {
        assert recorded[0] in multiset(failed);
      }
      if CauseOf(ns, id) == Some(ErrStopped) {
        StoppedIsIdle(ns, id, id);
        ErrorIffFailed(ns, id);
      }
      return err;
    }
  }

  lemma FirstStays(ns: Nodes, i: nat)
    requires Valid(ns) && i < |ns|
    ensures var t := ns[i].tally; t.err == if t.recorded == [] then None else Some(t.recorded[0])
  {
    assert Accounted(ns[i]);
  }

  lemma GoIs(ns: Nodes, i: nat)
    requires Valid(ns) && i < |ns|
    ensures var (ok, up) := ApplyOn(ns, i, 1);
            && Step(ns, Event.Go(i)) == (if ok then up[i := Moved(up[i], 1, 0)] else up)
            && Valid(Step(ns, Event.Go(i))) && (ok <==> !Refuses(ns, i))
  {
    GoKeepsValid(ns, i);
    ApplyAdds(ns, i, 1);
  }

  lemma AllCountsCover(ns: Nodes)
    requires Valid(ns)
    ensures forall j: nat | j < |ns| :: ns[j].count >= 0
  {
    forall j: nat | j < |ns| ensures ns[j].count >= 0 {
      CountsCover(ns, j);
    }
  }

  lemma AllChainCovers(ns: Nodes, i: nat)
    requires Valid(ns) && i < |ns|
    ensures forall j: nat | j < |ns| && OnChain(ns, i, j) :: ns[j].count >= ns[i].live
  {
    forall j: nat | j < |ns| && OnChain(ns, i, j) ensures ns[j].count >= ns[i].live {
      ChainCovers(ns, i, j);
    }
  }

  ghost function NodeOf(c: Context): Node
    reads c
  {
    Node(if c.parent == null then -1 else c.parent.id, c.count, c.stopping, c.cause, c.grace, c.live,
         Tally(c.failed, c.broken, c.recorded, c.noted, c.err))
  }

  lemma FamilyGrows(all: seq<Context>, c: Context)
    requires Family(all) && c.id == |all| && (c.parent == null || c.parent in all)
    ensures Family(all + [c])
  {
  }

  lemma SnapAppended(all: seq<Context>, c: Context)
    ensures Snap(all + [c]) == Snap(all) + [NodeOf(c)]
  {
    hide NodeOf;
    assert (all + [c])[..|all|] == all;
  }

  // One context has changed.
  lemma SnapUpdated(before: Nodes, all: seq<Context>, c: Context)
    requires c.In(all) && |before| == |all|
    requires forall i | 0 <= i < |all| && i != c.id :: before[i] == NodeOf(all[i])
    ensures Snap(all) == before[c.id := NodeOf(c)]
  {
    hide NodeOf;
  }

  ghost function Snap(all: seq<Context>): (ns: Nodes)
    reads all
    ensures |ns| == |all| && forall i | 0 <= i < |all| :: ns[i] == NodeOf(all[i])
  {
    if all == [] then [] else Snap(all[..|all| - 1]) + [NodeOf(all[|all| - 1])]
  }

  // All contexts, each after the one it is nested in.
  ghost predicate Family(all: seq<Context>) {
    forall i | 0 <= i < |all| ::
      all[i].id == i && (all[i].parent == null || (all[i].parent.id < i && all[all[i].parent.id] == all[i].parent))
  }

  lemma FamilyIsTree(all: seq<Context>)
    requires Family(all)
    ensures Tree(Snap(all))
  {
  }
}
