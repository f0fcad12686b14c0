/** The install order of modules: Kahn's algorithm, the ready module of least (priority, id) first.
    Ids stand for the source's strings, numbered in their order. */
module KahnSort {
  datatype Module = Module(id: nat, priority: int, needs: seq<nat>)

  function IdSet(mods: seq<Module>): set<nat> {
    set i | 0 <= i < |mods| :: mods[i].id
  }

  function IdList(mods: seq<Module>): (r: seq<nat>)
    ensures |r| == |mods| && forall i :: 0 <= i < |r| ==> r[i] == mods[i].id
  {
    seq(|mods|, i requires 0 <= i < |mods| => mods[i].id)
  }

  predicate Distinct(s: seq<nat>) {
    forall i, j :: 0 <= i < j < |s| ==> s[i] != s[j]
  }

  /** The module of that id. */
  function Of(mods: seq<Module>, id: nat): (m: Module)
    requires id in IdSet(mods)
    ensures m.id == id && m in mods
  {
    if mods[0].id == id then mods[0] else Of(mods[1..], id)
  }

  predicate Before(mods: seq<Module>, a: nat, b: nat)
    requires a in IdSet(mods) && b in IdSet(mods)
  {
    var p, q := Of(mods, a).priority, Of(mods, b).priority;
    if p != q then p < q else a < b
  }

  /** A module that comes next: not yet placed, all its needs are. */
  /** The lower priority number goes first, and of equal ones the lower id. */
  lemma BeforeIs(mods: seq<Module>, m: Module, n: Module)
    requires Unique(mods) && m in mods && n in mods
    ensures m.id in IdSet(mods) && n.id in IdSet(mods)
    ensures Before(mods, m.id, n.id) <==> m.priority < n.priority || (m.priority == n.priority && m.id < n.id)
  {
    OfIs(mods, m);
    OfIs(mods, n);
    hide Of;
  }

  lemma OfIs(mods: seq<Module>, m: Module)
    requires Unique(mods) && m in mods
    ensures m.id in IdSet(mods) && Of(mods, m.id) == m
  {
    var i :| 0 <= i < |mods| && mods[i] == m;
    assert mods[i].id in IdSet(mods);
    var o := Of(mods, m.id);
    assert o.id == m.id && o in mods;
    var k :| 0 <= k < |mods| && mods[k] == o;
    assert mods[k].id == mods[i].id;
  }

  predicate Ready(mods: seq<Module>, placed: set<nat>, id: nat) {
    id in IdSet(mods) && id !in placed && forall r :: r in Of(mods, id).needs ==> r in placed
  }

  function Elements(s: seq<nat>): set<nat> {
    set x | x in s
  }

  /** Every module once, each after all its needs. */
  predicate IsOrder(mods: seq<Module>, q: seq<nat>) {
    && Distinct(q) && Elements(q) == IdSet(mods)
    && forall i :: 0 <= i < |q| ==> Ready(mods, Elements(q[..i]), q[i])
  }

  /** Of the modules that could come at each place, the least one did. */
  ghost predicate Greedy(mods: seq<Module>, q: seq<nat>) {
    forall i :: 0 <= i < |q| ==>
      && Ready(mods, Elements(q[..i]), q[i])
      && forall x :: Ready(mods, Elements(q[..i]), x) ==> !Before(mods, x, q[i])
  }

  /** a comes before b in the lexicographic order, or is b. */
  predicate NotAfter(mods: seq<Module>, a: seq<nat>, b: seq<nat>) {
    a == b || exists i :: 0 <= i < |a| && i < |b| && a[..i] == b[..i] && DiffersAt(mods, a, b, i)
  }

  predicate DiffersAt(mods: seq<Module>, a: seq<nat>, b: seq<nat>, i: nat)
    requires i < |a| && i < |b|
  {
    a[i] in IdSet(mods) && b[i] in IdSet(mods) && Before(mods, a[i], b[i])
  }

  lemma OneSize(s: seq<nat>)
    requires Distinct(s)
    ensures |Elements(s)| == |s|
  {
    if s != [] {
      OneSize(s[1..]);
      assert Elements(s) == Elements(s[1..]) + {s[0]};
    }
  }

  /** Greedy choices make the least of all the orders. */
  lemma GreedyIsLeast(mods: seq<Module>, a: seq<nat>, b: seq<nat>)
    requires IsOrder(mods, a) && Greedy(mods, a) && IsOrder(mods, b)
    ensures NotAfter(mods, a, b)
  {
    OneSize(a);
    OneSize(b);
    if a != b {
      var i := FirstDifference(a, b);
      assert Ready(mods, Elements(a[..i]), b[i]);
      assert !Before(mods, b[i], a[i]);
      assert DiffersAt(mods, a, b, i);
    }
  }

  lemma {:induction false} FirstDifference(a: seq<nat>, b: seq<nat>) returns (i: nat)
    requires |a| == |b| && a != b
    ensures i < |a| && a[..i] == b[..i] && a[i] != b[i]
  {
    assert a == [a[0]] + a[1..] && b == [b[0]] + b[1..];
    i := 0;
    if a[0] == b[0] {
      i := FirstDifference(a[1..], b[1..]);
      assert a[..i + 1] == [a[0]] + a[1..][..i] && b[..i + 1] == [b[0]] + b[1..][..i];
      i := i + 1;
    }
  }

  /** Any order goes on from what is placed. */
  lemma SomethingIsReady(mods: seq<Module>, placed: set<nat>, q: seq<nat>) returns (x: nat)
    requires placed < IdSet(mods) && IsOrder(mods, q)
    ensures Ready(mods, placed, x)
  {
    var y :| y in IdSet(mods) && y !in placed;
    assert y in Elements(q);
    var i := 0;
    while q[i] in placed
      invariant 0 <= i < |q| && (forall j :: 0 <= j < i ==> q[j] in placed) && exists j :: i <= j < |q| && q[j] == y
      decreases |q| - i
    {
      i := i + 1;
    }
    x := q[i];
    assert Ready(mods, Elements(q[..i]), x);
  }

  /** Nothing is ready, yet not all is placed: then there is no order at all. */
  lemma StuckMeansNoOrder(mods: seq<Module>, placed: set<nat>, q: seq<nat>)
    requires placed < IdSet(mods) && (forall x :: !Ready(mods, placed, x))
    ensures !IsOrder(mods, q)
  {
    if IsOrder(mods, q) {
      var x := SomethingIsReady(mods, placed, q);
      assert false;
    }
  }

  // ---- cycles

  ghost predicate Installed(mods: seq<Module>) {
    forall m, r :: m in mods && r in m.needs ==> r in IdSet(mods)
  }

  /** Each module of the path needs the next. */
  ghost predicate Path(mods: seq<Module>, p: seq<nat>) {
    && (forall i :: 0 <= i < |p| ==> p[i] in IdSet(mods))
    && (forall i :: 0 <= i < |p| - 1 ==> p[i + 1] in Of(mods, p[i]).needs)
  }

  ghost predicate Cycle(mods: seq<Module>, p: seq<nat>) {
    |p| > 1 && Path(mods, p) && p[0] == p[|p| - 1]
  }

  lemma {:induction false} OrderForbidsPath(mods: seq<Module>, q: seq<nat>, p: seq<nat>, k: nat) returns (j: nat)
    requires IsOrder(mods, q) && Path(mods, p) && |p| > 1 && k < |q| && q[k] == p[0]
    ensures j < k && q[j] == p[|p| - 1]
    decreases |p|
  {
    assert p[1] in Of(mods, p[0]).needs;
    assert Ready(mods, Elements(q[..k]), q[k]);
    var i :| 0 <= i < k && q[i] == p[1];
    if |p| == 2 {
      j := i;
    } else {
      var rest := p[1..];
      assert forall n :: 0 <= n < |rest| ==> rest[n] == p[n + 1];
      j := OrderForbidsPath(mods, q, rest, i);
    }
  }

  lemma OrderMeansNoCycle(mods: seq<Module>, q: seq<nat>, p: seq<nat>)
    requires IsOrder(mods, q)
    ensures !Cycle(mods, p)
  {
    if Cycle(mods, p) {
      assert p[0] in Elements(q);
      var k :| 0 <= k < |q| && q[k] == p[0];
      var j := OrderForbidsPath(mods, q, p, k);
      assert false;
    }
  }

  /** A path of n steps among the modules left. */
  lemma {:induction false} Walk(mods: seq<Module>, placed: set<nat>, n: nat) returns (p: seq<nat>)
    requires Installed(mods) && placed < IdSet(mods) && forall x :: !Ready(mods, placed, x)
    ensures |p| == n + 1 && Path(mods, p) && forall i :: 0 <= i < |p| ==> p[i] !in placed
  {
    if n == 0 {
      var x :| x in IdSet(mods) && x !in placed;
      p := [x];
    } else {
      var w := Walk(mods, placed, n - 1);
      var last := w[n - 1];
      assert !Ready(mods, placed, last);
      var r :| r in Of(mods, last).needs && r !in placed;
      p := w + [r];
    }
  }

  /** Nothing is ready, yet not all is placed: some modules need each other in a circle. */
  lemma StuckMeansCycle(mods: seq<Module>, placed: set<nat>) returns (p: seq<nat>)
    requires Installed(mods) && placed < IdSet(mods) && forall x :: !Ready(mods, placed, x)
    ensures Cycle(mods, p)
  {
    var w := Walk(mods, placed, |IdSet(mods)|);
    if Distinct(w) {
      OneSize(w);
      assert Elements(w) <= IdSet(mods);
      Subset(Elements(w), IdSet(mods));
      assert false;
    }
    var i, j :| 0 <= i < j < |w| && w[i] == w[j];
    p := w[i..j + 1];
  }

  lemma Subset(a: set<nat>, b: set<nat>)
    requires a <= b
    ensures |a| <= |b|
  {
    assert b == a + (b - a);
  }

  // ---- counting

  function Count(s: seq<nat>, x: nat): nat {
    if s == [] then 0 else (if s[0] == x then 1 else 0) + Count(s[1..], x)
  }

  /** How many entries of needs are not placed. */
  function Unmet(needs: seq<nat>, placed: set<nat>): nat {
    if needs == [] then 0 else (if needs[0] in placed then 0 else 1) + Unmet(needs[1..], placed)
  }

  lemma UnmetDrops(needs: seq<nat>, placed: set<nat>, r: nat)
    requires r !in placed
    ensures Unmet(needs, placed + {r}) + Count(needs, r) == Unmet(needs, placed)
  {
  }

  lemma UnmetZero(needs: seq<nat>, placed: set<nat>)
    ensures Unmet(needs, placed) == 0 <==> forall r :: r in needs ==> r in placed
  {
  }

  lemma UnmetAll(needs: seq<nat>)
    ensures Unmet(needs, {}) == |needs|
  {
  }

  lemma {:induction false} CountMore(s: seq<nat>, y: nat, x: nat)
    ensures Count(s + [y], x) == Count(s, x) + if x == y then 1 else 0
  {
    if s == [] {
      assert [y][1..] == [];
    } else {
      assert (s + [y])[1..] == s[1..] + [y];
      CountMore(s[1..], y, x);
    }
  }

  lemma CountIn(s: seq<nat>, x: nat)
    ensures Count(s, x) > 0 <==> x in s
  {
  }

  // ---- the sort of the ready ones

  predicate AllIn(mods: seq<Module>, s: seq<nat>) {
    forall i :: 0 <= i < |s| ==> s[i] in IdSet(mods)
  }

  predicate Ascending(mods: seq<Module>, s: seq<nat>)
    requires AllIn(mods, s)
  {
    forall i, j :: 0 <= i < j < |s| ==> !Before(mods, s[j], s[i])
  }

  function Insert(mods: seq<Module>, s: seq<nat>, x: nat): (r: seq<nat>)
    requires AllIn(mods, s) && x in IdSet(mods)
    ensures AllIn(mods, r) && multiset(r) == multiset(s) + multiset{x}
  {
    if s == [] || Before(mods, x, s[0]) then [x] + s
    else
      assert s == [s[0]] + s[1..];
      [s[0]] + Insert(mods, s[1..], x)
  }

  /** std::sort by (priority, id). */
  function Sort(mods: seq<Module>, s: seq<nat>): (r: seq<nat>)
    requires AllIn(mods, s)
    ensures AllIn(mods, r) && multiset(r) == multiset(s)
  {
    if s == [] then []
    else
      assert s == [s[0]] + s[1..];
      Insert(mods, Sort(mods, s[1..]), s[0])
  }

  lemma SameElements(a: seq<nat>, b: seq<nat>)
    requires multiset(a) == multiset(b)
    ensures Elements(a) == Elements(b) && |a| == |b| && (Distinct(a) ==> Distinct(b))
  {
    assert |multiset(a)| == |a| && |multiset(b)| == |b|;
    forall x ensures x in a <==> x in b {
      assert x in multiset(a) <==> x in multiset(b);
    }
    if Distinct(a) {
      forall i, j | 0 <= i < j < |b| ensures b[i] != b[j] {
        DistinctCounts(a, b[i]);
        if b[i] == b[j] { TwiceCounts(b, i, j); }
      }
    }
  }

  lemma {:induction false} DistinctCounts(a: seq<nat>, x: nat)
    requires Distinct(a)
    ensures multiset(a)[x] <= 1
  {
    if a != [] {
      assert a == [a[0]] + a[1..];
      DistinctCounts(a[1..], x);
      if a[0] == x { assert x !in a[1..]; }
    }
  }

  lemma TwiceCounts(b: seq<nat>, i: nat, j: nat)
    requires i < j < |b| && b[i] == b[j]
    ensures multiset(b)[b[i]] >= 2
  {
    assert b == b[..i] + [b[i]] + b[i + 1..j] + [b[j]] + b[j + 1..];
  }

  lemma {:induction false} InsertAscends(mods: seq<Module>, s: seq<nat>, x: nat)
    requires AllIn(mods, s) && x in IdSet(mods) && Ascending(mods, s)
    ensures Ascending(mods, Insert(mods, s, x))
  {
    if s != [] && !Before(mods, x, s[0]) {
      InsertAscends(mods, s[1..], x);
      var r := Insert(mods, s[1..], x);
      forall k | 0 <= k < |r| ensures !Before(mods, r[k], s[0]) {
        assert r[k] in multiset(s[1..]) + multiset{x};
      }
    }
  }

  lemma {:induction false} SortAscends(mods: seq<Module>, s: seq<nat>)
    requires AllIn(mods, s)
    ensures Ascending(mods, Sort(mods, s))
  {
    if s != [] {
      SortAscends(mods, s[1..]);
      InsertAscends(mods, Sort(mods, s[1..]), s[0]);
    }
  }

  // ---- the algorithm

  predicate Unique(mods: seq<Module>) {
    forall i, j :: 0 <= i < j < |mods| ==> mods[i].id != mods[j].id
  }

  lemma {:induction false} OfAt(mods: seq<Module>, i: nat)
    requires Unique(mods) && i < |mods|
    ensures mods[i].id in IdSet(mods) && Of(mods, mods[i].id) == mods[i]
  {
    if i > 0 {
      assert mods[0].id != mods[i].id;
      OfAt(mods[1..], i - 1);
    }
  }

  function Dependents(d: map<nat, seq<nat>>, r: nat): seq<nat> {
    if r in d then d[r] else []
  }

  /** How often the first k modules have r among their needs, counted for x alone. */
  function Needs(mods: seq<Module>, k: nat, x: nat, r: nat): nat
    requires k <= |mods|
  {
    if k == 0 then 0 else Needs(mods, k - 1, x, r) + if mods[k - 1].id == x then Count(mods[k - 1].needs, r) else 0
  }

  lemma {:induction false} NeedsOf(mods: seq<Module>, k: nat, x: nat, r: nat)
    requires Unique(mods) && k <= |mods|
    ensures Needs(mods, k, x, r) ==
      if exists i :: 0 <= i < k && mods[i].id == x then Count(Of(mods, x).needs, r) else 0
  {
    if k > 0 {
      NeedsOf(mods, k - 1, x, r);
      OfAt(mods, k - 1);
    }
  }

  /** The two maps say the graph. */
  ghost predicate Graph(mods: seq<Module>, inDegree: map<nat, int>, dependents: map<nat, seq<nat>>) {
    && inDegree.Keys == IdSet(mods)
    && (forall x :: x in inDegree ==> inDegree[x] == |Of(mods, x).needs|)
    && (forall r, x :: Count(Dependents(dependents, r), x) ==
          if x in IdSet(mods) then Count(Of(mods, x).needs, r) else 0)
  }

  /** One more dependent. */
  lemma AddDependent(d: map<nat, seq<nat>>, r: nat, id: nat)
    ensures var e := d[r := Dependents(d, r) + [id]];
      forall q, x :: Count(Dependents(e, q), x) == Count(Dependents(d, q), x) + if q == r && x == id then 1 else 0
  {
    forall x ensures Count(Dependents(d, r) + [id], x) == Count(Dependents(d, r), x) + if x == id then 1 else 0 {
      CountMore(Dependents(d, r), id, x);
    }
  }

  /** e is d with a module's needs added. */
  ghost predicate Extends(d: map<nat, seq<nat>>, e: map<nat, seq<nat>>, id: nat, needs: seq<nat>) {
    forall q, x ::
      Count(Dependents(e, q), x) == Count(Dependents(d, q), x) + (if x == id then Count(needs, q) else 0)
  }

  method AddNeeds(m: Module, dependents: map<nat, seq<nat>>) returns (d: map<nat, seq<nat>>)
    ensures Extends(dependents, d, m.id, m.needs)
  {
    d := dependents;
    var j := 0;
    assert m.needs[..0] == [] && forall q :: Count([], q) == 0;
    while j < |m.needs|
      invariant 0 <= j <= |m.needs|
      invariant Extends(dependents, d, m.id, m.needs[..j])
    {
      var r := m.needs[j];
      AddDependent(d, r, m.id);
      assert m.needs[..j + 1] == m.needs[..j] + [r];
      forall q ensures Count(m.needs[..j + 1], q) == Count(m.needs[..j], q) + if q == r then 1 else 0 {
        CountMore(m.needs[..j], r, q);
      }
      d := d[r := Dependents(d, r) + [m.id]];
      j := j + 1;
    }
    assert m.needs[..j] == m.needs;
  }

  method BuildGraph(mods: seq<Module>) returns (inDegree: map<nat, int>, dependents: map<nat, seq<nat>>)
    requires Unique(mods)
    ensures Graph(mods, inDegree, dependents)
  {
    inDegree, dependents := map[], map[];
    var i := 0;
    while i < |mods|
      invariant 0 <= i <= |mods|
      invariant inDegree.Keys == IdSet(mods[..i])
      invariant forall k :: 0 <= k < i ==> inDegree[mods[k].id] == |mods[k].needs|
      invariant forall r, x :: Count(Dependents(dependents, r), x) == Needs(mods, i, x, r)
    {
      inDegree := inDegree[mods[i].id := |mods[i].needs|];
      dependents := AddNeeds(mods[i], dependents);
      assert mods[..i + 1] == mods[..i] + [mods[i]];
      i := i + 1;
    }
    assert mods[..i] == mods;
    forall r, x ensures Needs(mods, i, x, r) == if x in IdSet(mods) then Count(Of(mods, x).needs, r) else 0 {
      NeedsOf(mods, i, x, r);
    }
    forall x | x in inDegree ensures inDegree[x] == |Of(mods, x).needs| {
      var k :| 0 <= k < |mods| && mods[k].id == x;
      OfAt(mods, k);
    }
  }

  /** The modules placed so far, what is ready, and how many needs each module still waits for. */
  ghost predicate Underway(mods: seq<Module>, inDegree: map<nat, int>, ready: seq<nat>, order: seq<nat>) {
    && inDegree.Keys == IdSet(mods) && Distinct(order) && Elements(order) <= IdSet(mods)
    && Distinct(ready) && (forall x :: x in ready <==> Ready(mods, Elements(order), x))
    && (forall x :: x in IdSet(mods) ==> inDegree[x] == Unmet(Of(mods, x).needs, Elements(order)))
    && Greedy(mods, order)
  }

  /** next is placed; the dependents still to be told, each as often as it needs next, wait for it too. */
  ghost predicate Telling(mods: seq<Module>, inDegree: map<nat, int>, ready: seq<nat>,
                          placed: set<nat>, left: seq<nat>) {
    && inDegree.Keys == IdSet(mods) && Distinct(ready)
    && (forall x :: x in IdSet(mods) ==> inDegree[x] == Unmet(Of(mods, x).needs, placed) + Count(left, x))
    && (forall x :: x in ready <==> x in IdSet(mods) && x !in placed && inDegree[x] == 0)
  }

  /** Tells next's dependents. */
  method Tell(mods: seq<Module>, inDegree: map<nat, int>, ready: seq<nat>, ghost placed: set<nat>, deps: seq<nat>)
    returns (degrees: map<nat, int>, more: seq<nat>)
    requires Telling(mods, inDegree, ready, placed, deps)
    requires forall x :: x in deps ==> x in IdSet(mods) && x !in placed
    ensures Telling(mods, degrees, more, placed, [])
  {
    degrees, more := inDegree, ready;
    var k := 0;
    while k < |deps|
      invariant 0 <= k <= |deps|
      invariant Telling(mods, degrees, more, placed, deps[k..])
    {
      var dep := deps[k];
      assert dep in deps && deps[k..][1..] == deps[k + 1..] && deps[k..][0] == dep;
      degrees := degrees[dep := degrees[dep] - 1];
      if degrees[dep] == 0 { more := more + [dep]; }
      k := k + 1;
    }
    assert deps[k..] == [];
  }

  lemma PlacedAreMet(mods: seq<Module>, order: seq<nat>, x: nat)
    requires Greedy(mods, order) && x in order
    ensures x in IdSet(mods) && forall r :: r in Of(mods, x).needs ==> r in Elements(order)
  {
    var i :| 0 <= i < |order| && order[i] == x;
    assert Ready(mods, Elements(order[..i]), order[i]);
  }

  /** The front of the sorted ready list is placed. */
  lemma PlaceNext(mods: seq<Module>, inDegree: map<nat, int>, dependents: map<nat, seq<nat>>,
                  sorted: seq<nat>, order: seq<nat>)
    requires Underway(mods, inDegree, sorted, order) && sorted != []
    requires forall r, x ::
      Count(Dependents(dependents, r), x) == if x in IdSet(mods) then Count(Of(mods, x).needs, r) else 0
    ensures var next, placed := sorted[0], Elements(order) + {sorted[0]};
      && Telling(mods, inDegree, sorted[1..], placed, Dependents(dependents, next))
      && forall x :: x in Dependents(dependents, next) ==> x in IdSet(mods) && x !in placed
  {
    var next, placed := sorted[0], Elements(order);
    var deps := Dependents(dependents, next);
    assert next in sorted && Ready(mods, placed, next);
    forall x | x in IdSet(mods) ensures inDegree[x] == Unmet(Of(mods, x).needs, placed + {next}) + Count(deps, x) {
      UnmetDrops(Of(mods, x).needs, placed, next);
    }
    forall x ensures x in sorted[1..] <==> x in IdSet(mods) && x !in placed + {next} && inDegree[x] == 0 {
      assert x in sorted <==> x == next || x in sorted[1..] by { assert sorted == [next] + sorted[1..]; }
      if x in IdSet(mods) { UnmetZero(Of(mods, x).needs, placed); }
    }
    forall x | x in deps ensures x in IdSet(mods) && x !in placed + {next} {
      CountIn(deps, x);
      CountIn(Of(mods, x).needs, next);
      if x in placed { PlacedAreMet(mods, order, x); }
    }
  }

  /** All its dependents told: the state with next in place. */
  lemma NextPlaced(mods: seq<Module>, degrees: map<nat, int>, more: seq<nat>, sorted: seq<nat>, order: seq<nat>)
    requires Greedy(mods, order) && Distinct(order) && Elements(order) <= IdSet(mods) && sorted != []
    requires (forall x :: x in sorted <==> Ready(mods, Elements(order), x)) &&
      AllIn(mods, sorted) && Ascending(mods, sorted)
    requires Telling(mods, degrees, more, Elements(order) + {sorted[0]}, [])
    ensures Underway(mods, degrees, more, order + [sorted[0]])
  {
    var next, q := sorted[0], order + [sorted[0]];
    assert Elements(q) == Elements(order) + {next} && next in sorted;
    forall x ensures x in more <==> Ready(mods, Elements(q), x) {
      if x in IdSet(mods) { UnmetZero(Of(mods, x).needs, Elements(q)); }
    }
    forall i | 0 <= i < |q|
      ensures Ready(mods, Elements(q[..i]), q[i]) &&
        forall x :: Ready(mods, Elements(q[..i]), x) ==> !Before(mods, x, q[i])
    {
      if i < |order| {
        assert q[..i] == order[..i] && q[i] == order[i];
      } else {
        assert q[..i] == order;
      }
    }
  }

  /** The modules without needs. */
  method FindReady(mods: seq<Module>, inDegree: map<nat, int>) returns (ready: seq<nat>)
    requires Unique(mods) && inDegree.Keys == IdSet(mods)
    ensures Distinct(ready) && forall x :: x in ready <==> x in IdSet(mods) && inDegree[x] == 0
  {
    ready := [];
    var i := 0;
    while i < |mods|
      invariant 0 <= i <= |mods| && Distinct(ready)
      invariant forall x :: x in ready <==> x in IdSet(mods[..i]) && inDegree[x] == 0
    {
      var id := mods[i].id;
      assert mods[..i + 1] == mods[..i] + [mods[i]] && id in inDegree;
      assert id !in IdSet(mods[..i]);
      if inDegree[id] == 0 { ready := ready + [id]; }
      i := i + 1;
    }
    assert mods[..i] == mods;
  }

  lemma NothingPlaced(mods: seq<Module>, inDegree: map<nat, int>, ready: seq<nat>)
    requires inDegree.Keys == IdSet(mods) && (forall x :: x in inDegree ==> inDegree[x] == |Of(mods, x).needs|)
    requires Distinct(ready) && forall x :: x in ready <==> x in IdSet(mods) && inDegree[x] == 0
    ensures Underway(mods, inDegree, ready, [])
  {
    assert Elements([]) == {};
    forall x | x in IdSet(mods) ensures |Of(mods, x).needs| == Unmet(Of(mods, x).needs, {}) {
      UnmetAll(Of(mods, x).needs);
    }
    forall x ensures x in ready <==> Ready(mods, {}, x) {
      if x in IdSet(mods) { UnmetZero(Of(mods, x).needs, {}); }
    }
  }

  lemma AllPlaced(mods: seq<Module>, order: seq<nat>)
    requires Unique(mods) && Distinct(order) && Elements(order) <= IdSet(mods)
    ensures |order| == |mods| <==> Elements(order) == IdSet(mods)
  {
    OneSize(order);
    OneSize(IdList(mods));
    assert Elements(IdList(mods)) == IdSet(mods);
    if |order| == |mods| { SameSize(Elements(order), IdSet(mods)); }
  }

  lemma GreedyIsAnOrder(mods: seq<Module>, order: seq<nat>)
    requires Distinct(order) && Elements(order) == IdSet(mods) && Greedy(mods, order)
    ensures IsOrder(mods, order)
  {
  }

  /** All is placed, or nothing ever will be. */
  lemma NothingReady(mods: seq<Module>, inDegree: map<nat, int>, order: seq<nat>)
    requires Unique(mods) && Underway(mods, inDegree, [], order)
    ensures |order| == |mods| ==> IsOrder(mods, order) && forall q :: IsOrder(mods, q) ==> NotAfter(mods, order, q)
    ensures |order| != |mods| ==> forall q :: !IsOrder(mods, q)
  {
    AllPlaced(mods, order);
    assert forall x :: !Ready(mods, Elements(order), x);
    hide Ready, Distinct, Greedy, IsOrder, NotAfter, Unique, Elements, IdSet;
    if |order| == |mods| {
      GreedyIsAnOrder(mods, order);
      forall q | IsOrder(mods, q) ensures NotAfter(mods, order, q) { GreedyIsLeast(mods, order, q); }
    } else {
      forall q ensures !IsOrder(mods, q) { StuckMeansNoOrder(mods, Elements(order), q); }
    }
  }

  lemma SameSize(a: set<nat>, b: set<nat>)
    requires a <= b && |a| == |b|
    ensures a == b
  {
    assert b == a + (b - a);
  }

  lemma SortedReady(mods: seq<Module>, inDegree: map<nat, int>, ready: seq<nat>, order: seq<nat>)
    requires Underway(mods, inDegree, ready, order)
    ensures AllIn(mods, ready)
    ensures Underway(mods, inDegree, Sort(mods, ready), order) && Ascending(mods, Sort(mods, ready))
    ensures |Sort(mods, ready)| == |ready|
  {
    forall i | 0 <= i < |ready| ensures ready[i] in IdSet(mods) { assert ready[i] in ready; }
    SortAscends(mods, ready);
    SameElements(ready, Sort(mods, ready));
    assert forall x ::
      (x in ready <==> x in Elements(ready)) && (x in Sort(mods, ready) <==> x in Elements(Sort(mods, ready)));
    hide Ready, Greedy, IdSet;
  }

  /** The least ready module goes in. */
  method PlaceOne(mods: seq<Module>, inDegree: map<nat, int>, dependents: map<nat, seq<nat>>,
                  ready: seq<nat>, ghost order: seq<nat>)
    returns (next: nat, degrees: map<nat, int>, more: seq<nat>)
    requires Underway(mods, inDegree, ready, order) && ready != []
    requires forall r, x ::
      Count(Dependents(dependents, r), x) == if x in IdSet(mods) then Count(Of(mods, x).needs, r) else 0
    ensures Underway(mods, degrees, more, order + [next]) && next !in Elements(order)
  {
    SortedReady(mods, inDegree, ready, order);
    var sorted := Sort(mods, ready);
    next := sorted[0];
    assert next in sorted;
    PlaceNext(mods, inDegree, dependents, sorted, order);
    degrees, more := Tell(mods, inDegree, sorted[1..], Elements(order) + {next}, Dependents(dependents, next));
    NextPlaced(mods, degrees, more, sorted, order);
  }

  lemma OneFewer(mods: seq<Module>, order: seq<nat>, next: nat)
    requires next !in Elements(order) && Elements(order + [next]) <= IdSet(mods)
    ensures IdSet(mods) - Elements(order + [next]) < IdSet(mods) - Elements(order)
  {
    assert Elements(order + [next]) == Elements(order) + {next};
  }

  /** The install order: refused just when there is none; else the least there is. */
  method BuildOrder(mods: seq<Module>) returns (order: seq<nat>, refused: bool)
    requires Unique(mods)
    ensures refused <==> forall q :: !IsOrder(mods, q)
    ensures !refused ==> IsOrder(mods, order) && forall q :: IsOrder(mods, q) ==> NotAfter(mods, order, q)
    ensures refused ==> order == IdList(mods)
  {
    var inDegree, dependents := BuildGraph(mods);
    var ready := FindReady(mods, inDegree);
    order := [];
    NothingPlaced(mods, inDegree, ready);
    hide Elements, Ready, Greedy, IsOrder, NotAfter, IdSet, Distinct;
    while ready != []
      invariant Underway(mods, inDegree, ready, order)
      decreases IdSet(mods) - Elements(order)
    {
      var next;
      next, inDegree, ready := PlaceOne(mods, inDegree, dependents, ready, order);
      OneFewer(mods, order, next);
      order := order + [next];
    }
    NothingReady(mods, inDegree, order);
    refused := |order| != |mods|;
    if refused { order := IdList(mods); }
  }

  lemma {:induction false} OrderOrCycle(mods: seq<Module>, q: seq<nat>)
    requires Installed(mods) && Distinct(q) && Elements(q) <= IdSet(mods)
    requires forall i :: 0 <= i < |q| ==> Ready(mods, Elements(q[..i]), q[i])
    ensures (exists p :: Cycle(mods, p)) || exists r :: IsOrder(mods, r)
    decreases IdSet(mods) - Elements(q)
  {
    if x :| Ready(mods, Elements(q), x) {
      var r := q + [x];
      assert Elements(r) == Elements(q) + {x};
      assert forall i :: 0 <= i < |q| ==> r[..i] == q[..i];
      assert r[..|q|] == q;
      OrderOrCycle(mods, r);
    } else if Elements(q) == IdSet(mods) {
      assert IsOrder(mods, q);
    } else {
      var p := StuckMeansCycle(mods, Elements(q));
    }
  }

  /** With every need installed, an order there is unless some modules need each other in a circle. */
  lemma NoOrderIffCycle(mods: seq<Module>)
    requires Installed(mods)
    ensures (forall q :: !IsOrder(mods, q)) <==> exists p :: Cycle(mods, p)
  {
    if p :| Cycle(mods, p) {
      forall q ensures !IsOrder(mods, q) {
        if IsOrder(mods, q) { OrderMeansNoCycle(mods, q, p); }
      }
    } else {
      assert Elements([]) == {};
      OrderOrCycle(mods, []);
    }
  }
}
