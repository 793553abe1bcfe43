/** Resolution of union types (crates/radlr-ascript/build_db.rs:63-116): every union is flattened in place to
    the scalars it reaches, then unions with equal members elect a representative. */
module Unions {
  import opened Scalars

  /** A union: the key of the non-terminal it was made for, its members, and the unions convertible into it. */
  datatype Union = Union(owner: nat, members: set<Scalar>, converts: set<nat>)

  // ----- reachability -----

  /** Every member that is a union names one of the table. */
  ghost predicate InTable(o: seq<Union>) {
    forall k, m: nat :: 0 <= k < |o| && Multi(m) in o[k].members ==> m < |o|
  }

  /** A path from union to member union. */
  ghost predicate Path(o: seq<Union>, p: seq<nat>) {
    && p != [] && (forall t :: 0 <= t < |p| ==> p[t] < |o|)
    && (forall t :: 0 <= t < |p| - 1 ==> Multi(p[t + 1]) in o[p[t]].members)
  }

  /** The scalar is a member of the last union of the path. */
  ghost predicate Reaches(o: seq<Union>, p: seq<nat>, s: Scalar) {
    Path(o, p) && s in o[p[|p| - 1]].members
  }

  /** What a union stands for: the scalars, unions excepted, that it reaches through its member unions. */
  ghost predicate Stands(o: seq<Union>, i: nat, s: Scalar) {
    i < |o| && !s.Multi? && exists p :: Reaches(o, p, s) && p[0] == i
  }

  lemma {:induction false} OwnMember(o: seq<Union>, i: nat, s: Scalar)
    requires i < |o| && s in o[i].members && !s.Multi?
    ensures Stands(o, i, s)
  {
    assert Reaches(o, [i], s) && [i][0] == i;
  }

  lemma {:induction false} ThroughMember(o: seq<Union>, i: nat, m: nat, s: Scalar)
    requires i < |o| && Multi(m) in o[i].members && Stands(o, m, s)
    ensures Stands(o, i, s)
  {
    var p :| Reaches(o, p, s) && p[0] == m;
    var q := [i] + p;
    assert forall t :: 0 <= t < |p| ==> q[t + 1] == p[t];
    forall t | 0 <= t < |q| - 1
      ensures Multi(q[t + 1]) in o[q[t]].members
    {
      if t > 0 {
        assert q[t] == p[t - 1] && q[t + 1] == p[t];
      }
    }
    assert q[|q| - 1] == p[|p| - 1];
    assert Reaches(o, q, s) && q[0] == i;
  }

  // ----- conversions -----

  /** A path from `i` to another union, or back to it, that ends as soon as it meets a union before `i`. */
  ghost predicate Leads(o: seq<Union>, i: nat, p: seq<nat>, j: nat) {
    && Path(o, p) && |p| >= 2 && p[0] == i && p[|p| - 1] == j
    && forall t :: 0 <= t < |p| - 1 ==> p[t] >= i
  }

  ghost predicate LeadsTo(o: seq<Union>, i: nat, j: nat) {
    exists p :: Leads(o, i, p, j)
  }

  lemma {:induction false} LeadsToMember(o: seq<Union>, i: nat, j: nat)
    requires i < |o| && j < |o| && Multi(j) in o[i].members
    ensures LeadsTo(o, i, j)
  {
    assert Leads(o, i, [i, j], j);
  }

  lemma {:induction false} LeadsFurther(o: seq<Union>, i: nat, k: nat, j: nat)
    requires LeadsTo(o, i, k) && i <= k && j < |o| && Multi(j) in o[k].members
    ensures LeadsTo(o, i, j)
  {
    var p :| Leads(o, i, p, k);
    var q := p + [j];
    forall t | 0 <= t < |q| - 1
      ensures q[t] >= i && Multi(q[t + 1]) in o[q[t]].members
    {
      assert q[t] == p[t] && (t < |p| - 1 ==> q[t + 1] == p[t + 1]);
    }
    assert Leads(o, i, q, j);
  }

  // ----- one union -----

  /** Unions before `i` are flattened, the others are as they were. */
  ghost predicate FlatBelow(o: seq<Union>, c: seq<Union>, i: nat) {
    && |c| == |o| && i <= |o|
    && (forall k :: 0 <= k < |c| ==> c[k].owner == o[k].owner)
    && (forall k :: i <= k < |c| ==> c[k].members == o[k].members)
    && (forall k, s :: 0 <= k < i ==> (s in c[k].members <==> Stands(o, k, s)))
  }

  /** Every scalar that `k` holds now stands in `i` already. */
  ghost predicate Within(o: seq<Union>, k: nat, i: nat) {
    forall s :: Stands(o, k, s) ==> Stands(o, i, s)
  }

  /** Everything in the set was taken over: scalars are out or queued, unions visited or queued. */
  ghost predicate TakenOver(members: set<Scalar>, visited: set<nat>, out: set<Scalar>, queue: seq<Scalar>) {
    forall x :: x in members ==> x in queue || if x.Multi? then x.index in visited else x in out
  }

  ghost predicate Queued(o: seq<Union>, i: nat, x: Scalar) {
    if x.Multi? then x.index < |o| && Within(o, x.index, i) && LeadsTo(o, i, x.index) else Stands(o, i, x)
  }

  ghost predicate SearchInv(o: seq<Union>, c: seq<Union>, i: nat, visited: set<nat>, out: set<Scalar>, queue: seq<Scalar>)
    requires i < |c| == |o|
  {
    && (forall k :: k in visited ==> k < |o| && Within(o, k, i) && LeadsTo(o, i, k))
    && (forall s :: s in out ==> Stands(o, i, s))
    && (forall x :: x in queue ==> Queued(o, i, x))
    && TakenOver(c[i].members, visited, out, queue)
    && (forall k :: k in visited ==> TakenOver(c[k].members, visited, out, queue))
  }

  /** A member of a union, flattened or not, stands for no more than the union. */
  lemma {:induction false} MemberWithin(o: seq<Union>, c: seq<Union>, i: nat, k: nat, x: Scalar)
    requires InTable(o) && FlatBelow(o, c, i) && k < |c| && x in c[k].members
    ensures if x.Multi? then x.index < |o| && Within(o, x.index, k) else Stands(o, k, x)
  {
    if k < i {
      assert Stands(o, k, x);
    } else if x.Multi? {
      assert Multi(x.index) in o[k].members;
      forall s | Stands(o, x.index, s)
        ensures Stands(o, k, s)
      {
        ThroughMember(o, k, x.index, s);
      }
    } else {
      OwnMember(o, k, x);
    }
  }

  /** When nothing is queued, every scalar that a visited union reaches is out. */
  lemma {:induction false} SearchComplete(o: seq<Union>, c: seq<Union>, i: nat, visited: set<nat>, out: set<Scalar>,
    p: seq<nat>, s: Scalar)
    requires FlatBelow(o, c, i) && i < |o| && SearchInv(o, c, i, visited, out, [])
    requires Reaches(o, p, s) && !s.Multi? && (p[0] == i || p[0] in visited)
    ensures s in out
    decreases |p|
  {
    var k := p[0];
    assert TakenOver(c[k].members, visited, out, []);
    if k < i {
      assert Stands(o, k, s);
    } else if |p| > 1 {
      var rest := p[1..];
      assert Multi(p[1]) in o[p[0]].members && Multi(p[1]) in c[k].members;
      forall t | 0 <= t < |rest| - 1
        ensures Multi(rest[t + 1]) in o[rest[t]].members
      {
        assert rest[t] == p[t + 1] && rest[t + 1] == p[t + 2];
      }
      assert rest[|rest| - 1] == p[|p| - 1];
      SearchComplete(o, c, i, visited, out, rest, s);
    }
  }

  lemma {:induction false} TakenUnion(members: set<Scalar>, visited: set<nat>, out: set<Scalar>, x: Scalar)
    requires TakenOver(members, visited, out, []) && x in members && x.Multi?
    ensures x.index in visited
  {
  }

  /** When nothing is queued, every union on such a path is visited. */
  lemma {:induction false} SearchLeads(o: seq<Union>, c: seq<Union>, i: nat, visited: set<nat>, out: set<Scalar>,
    p: seq<nat>, t: nat)
    requires FlatBelow(o, c, i) && i < |o| && SearchInv(o, c, i, visited, out, [])
    requires t + 1 < |p| && Leads(o, i, p, p[|p| - 1])
    ensures p[t + 1] in visited
  {
    var k, x := p[t], Multi(p[t + 1]);
    if t > 0 {
      SearchLeads(o, c, i, visited, out, p, t - 1);
      assert k in visited;
    } else {
      assert k == i;
    }
    assert x in o[k].members && i <= k < |c|;
    assert c[k].members == o[k].members;
    TakenUnion(c[k].members, visited, out, x);
  }

  lemma {:induction false} SearchStart(o: seq<Union>, c: seq<Union>, i: nat, queue: seq<Scalar>)
    requires InTable(o) && FlatBelow(o, c, i) && i < |o| && forall x :: x in queue <==> x in c[i].members
    ensures SearchInv(o, c, i, {}, {}, queue)
  {
    forall x | x in queue
      ensures Queued(o, i, x)
    {
      MemberWithin(o, c, i, i, x);
      if x.Multi? {
        LeadsToMember(o, i, x.index);
      }
    }
  }

  lemma {:induction false} SearchScalar(o: seq<Union>, c: seq<Union>, i: nat, visited: set<nat>, out: set<Scalar>,
    queue: seq<Scalar>)
    requires i < |c| == |o| && queue != [] && !queue[0].Multi? && SearchInv(o, c, i, visited, out, queue)
    ensures SearchInv(o, c, i, visited, out + {queue[0]}, queue[1..])
  {
    assert queue == [queue[0]] + queue[1..] && queue[0] in queue && Queued(o, i, queue[0]);
  }

  lemma {:induction false} SearchVisited(o: seq<Union>, c: seq<Union>, i: nat, visited: set<nat>, out: set<Scalar>,
    queue: seq<Scalar>)
    requires i < |c| == |o| && queue != [] && queue[0].Multi? && queue[0].index in visited
    requires SearchInv(o, c, i, visited, out, queue)
    ensures SearchInv(o, c, i, visited, out, queue[1..])
  {
    assert queue == [queue[0]] + queue[1..];
  }

  lemma {:induction false} SearchUnion(o: seq<Union>, c: seq<Union>, i: nat, visited: set<nat>, out: set<Scalar>,
    queue: seq<Scalar>, more: seq<Scalar>)
    requires InTable(o) && FlatBelow(o, c, i) && i < |o| && queue != [] && queue[0].Multi?
    requires SearchInv(o, c, i, visited, out, queue)
    requires queue[0].index < |o| && forall x :: x in more <==> x in c[queue[0].index].members
    ensures SearchInv(o, c, i, visited + {queue[0].index}, out, queue[1..] + more)
  {
    var k := queue[0].index;
    var visited', queue' := visited + {k}, queue[1..] + more;
    assert queue == [queue[0]] + queue[1..] && queue[0] == Multi(k) && queue[0] in queue && Queued(o, i, queue[0]);
    forall x | x in queue'
      ensures Queued(o, i, x)
    {
      if x in more {
        MemberWithin(o, c, i, k, x);
        if x.Multi? {
          assert k >= i;
          LeadsFurther(o, i, k, x.index);
        }
      }
    }
    forall v | v in visited'
      ensures TakenOver(c[v].members, visited', out, queue')
    {
      if v != k {
        assert TakenOver(c[v].members, visited, out, queue);
      }
    }
  }

  method ToQueue(members: set<Scalar>) returns (queue: seq<Scalar>)
    ensures forall x :: x in queue <==> x in members
  {
    queue := [];
    var left := members;
    while left != {}
      invariant forall x :: x in members <==> x in queue || x in left
      decreases |left|
    {
      var x :| x in left;
      queue := queue + [x];
      left := left - {x};
    }
  }

  /** The breadth-first search from one union, over a table that is flattened below it. */
  method Search(table: array<Union>, i: nat, ghost o: seq<Union>) returns (visited: set<nat>, out: set<Scalar>)
    requires InTable(o) && FlatBelow(o, table[..], i) && i < table.Length
    ensures forall s :: s in out <==> Stands(o, i, s)
    ensures forall k :: k in visited <==> LeadsTo(o, i, k)
    ensures forall k :: k in visited ==> k < |o| && Within(o, k, i)
  {
    visited, out := {}, {};
    ghost var c := table[..];
    var queue := ToQueue(table[i].members);
    SearchStart(o, c, i, queue);
    while queue != []
      invariant SearchInv(o, c, i, visited, out, queue)
      decreases |o| - |visited|, |queue|
    {
      var x := queue[0];
      assert x in queue && Queued(o, i, x);
      if x.Multi? {
        if x.index !in visited {
          var more := ToQueue(table[x.index].members);
          SearchUnion(o, c, i, visited, out, queue, more);
          VisitedBounded(visited + {x.index}, |o|);
          visited := visited + {x.index};
          queue := queue[1..] + more;
        } else {
          SearchVisited(o, c, i, visited, out, queue);
          queue := queue[1..];
        }
      } else {
        SearchScalar(o, c, i, visited, out, queue);
        out := out + {x};
        queue := queue[1..];
      }
    }
    forall s | Stands(o, i, s)
      ensures s in out
    {
      var p :| Reaches(o, p, s) && p[0] == i;
      SearchComplete(o, c, i, visited, out, p, s);
    }
    forall k | LeadsTo(o, i, k)
      ensures k in visited
    {
      var p :| Leads(o, i, p, k);
      SearchLeads(o, c, i, visited, out, p, |p| - 2);
    }
  }

  lemma {:induction false} VisitedBounded(visited: set<nat>, n: nat)
    requires forall k :: k in visited ==> k < n
    ensures |visited| <= n
  {
    if n == 0 {
      assert visited == {};
    } else {
      VisitedBounded(visited - {n - 1}, n - 1);
      if n - 1 in visited {
        assert |visited - {n - 1}| == |visited| - 1;
      } else {
        assert visited - {n - 1} == visited;
      }
    }
  }

  // ----- flattening -----

  /** What is listed as convertible into a union stands for no more than the union, and is another union. */
  ghost predicate ConvertsWithin(o: seq<Union>, c: seq<Union>, i: nat) {
    forall k, j :: 0 <= k < i <= |c| && j in c[k].converts ==> j < |o| && j != k && Within(o, j, k)
  }

  /** Listed are exactly the other unions that a path leads to. */
  ghost predicate ConvertsExact(o: seq<Union>, c: seq<Union>, i: nat) {
    forall k, j :: 0 <= k < i <= |c| ==> (j in c[k].converts <==> j != k && LeadsTo(o, k, j))
  }

  /** Flattens every union in place, the later ones over the results of the earlier ones. */
  method Flatten(table: array<Union>)
    requires InTable(table[..])
    modifies table
    ensures FlatBelow(old(table[..]), table[..], table.Length)
    ensures ConvertsWithin(old(table[..]), table[..], table.Length)
    ensures ConvertsExact(old(table[..]), table[..], table.Length)
  {
    ghost var o := table[..];
    for i := 0 to table.Length
      invariant FlatBelow(o, table[..], i) && ConvertsWithin(o, table[..], i) && ConvertsExact(o, table[..], i)
    {
      var visited, out := Search(table, i, o);
      table[i] := Union(table[i].owner, out, visited - {i});
    }
  }

  // ----- electing representatives -----

  ghost predicate UniqueOwners(c: seq<Union>) {
    forall i, j :: 0 <= i < j < |c| ==> c[i].owner != c[j].owner
  }

  ghost predicate SameClass(c: seq<Union>, i: nat, j: nat) {
    i < |c| && j < |c| && c[i].members == c[j].members
  }

  /** No union with the same members has a smaller owner. */
  ghost predicate Least(c: seq<Union>, r: nat) {
    r < |c| && forall m: nat :: SameClass(c, r, m) ==> c[r].owner <= c[m].owner
  }

  /** Every union points to a root of its class that is no later than itself. */
  ghost predicate Pointing(c: seq<Union>, lu: seq<nat>) {
    && |lu| == |c|
    && forall k :: 0 <= k < |lu| ==>
         lu[k] < |lu| && lu[lu[k]] == lu[k] && SameClass(c, k, lu[k]) && c[lu[k]].owner <= c[k].owner
  }

  ghost predicate RootsLeast(c: seq<Union>, lu: seq<nat>, i: nat)
    requires |lu| == |c|
  {
    forall k :: 0 <= k < i && k < |lu| && lu[k] == k ==> Least(c, k)
  }

  /** No root of the class of `i` before `j` comes before `i`, as long as `i` is a root. */
  ghost predicate NoneBefore(c: seq<Union>, lu: seq<nat>, i: nat, j: nat)
    requires |lu| == |c| && i < |c|
  {
    lu[i] == i ==> forall m: nat :: m < j && m < |lu| && lu[m] == m && SameClass(c, i, m) ==> c[i].owner <= c[m].owner
  }

  /** The members and owners are the same, whatever is listed as convertible. */
  ghost predicate SameUnions(c: seq<Union>, d: seq<Union>) {
    |c| == |d| && forall k :: 0 <= k < |c| ==> c[k].owner == d[k].owner && c[k].members == d[k].members
  }

  ghost predicate ConvertsSound(c: seq<Union>) {
    forall k, j {:trigger j in c[k].converts} ::
      0 <= k < |c| && j in c[k].converts ==> j < |c| && c[j].members <= c[k].members
  }

  /** No union lists one that points to it. */
  ghost predicate NothingOwn(c: seq<Union>, lu: seq<nat>)
    requires |lu| == |c|
  {
    forall j :: 0 <= j < |lu| && lu[j] < |c| ==> j !in c[lu[j]].converts
  }

  /** What was listed with a union is listed with its root now, unless it has the same root. */
  ghost predicate Kept(c: seq<Union>, d: seq<Union>, lu: seq<nat>)
    requires |lu| == |d| == |c|
  {
    forall k, j {:trigger j in c[k].converts} :: 0 <= k < |c| && j in c[k].converts ==>
      lu[k] < |d| && (j in d[lu[k]].converts || (j < |lu| && lu[j] == lu[k]))
  }

  /** What is listed now was listed with a union of the same members. */
  ghost predicate NothingNew(c: seq<Union>, d: seq<Union>)
    requires |d| == |c|
  {
    forall k, j :: 0 <= k < |d| && j in d[k].converts ==> FromClass(c, k, j)
  }

  ghost predicate FromClass(c: seq<Union>, k: nat, j: nat) {
    exists m: nat :: SameClass(c, k, m) && j in c[m].converts
  }

  /** The merged table `d` lists what the table `c` did. */
  ghost predicate Listed(c: seq<Union>, d: seq<Union>, lu: seq<nat>)
    requires |lu| == |d| == |c|
  {
    SameUnions(c, d) && ConvertsSound(d) && Kept(c, d, lu) && NothingNew(c, d)
  }

  function Remapped(lu: seq<nat>, i: nat, j: nat): (r: seq<nat>)
    ensures |r| == |lu| && forall k :: 0 <= k < |lu| ==> r[k] == if lu[k] == i then j else lu[k]
  {
    seq(|lu|, k requires 0 <= k < |lu| => if lu[k] == i then j else lu[k])
  }

  lemma {:induction false} RemapPoints(c: seq<Union>, lu: seq<nat>, i: nat, j: nat)
    requires Pointing(c, lu) && i < |c| && j < |c| && i != j && lu[j] == j
    requires SameClass(c, i, j) && c[j].owner < c[i].owner && RootsLeast(c, lu, i)
    ensures Pointing(c, Remapped(lu, i, j)) && RootsLeast(c, Remapped(lu, i, j), i)
    ensures forall m :: NoneBefore(c, Remapped(lu, i, j), i, m)
  {
    var r := Remapped(lu, i, j);
    forall k | 0 <= k < |r|
      ensures r[k] < |r| && r[r[k]] == r[k] && SameClass(c, k, r[k]) && c[r[k]].owner <= c[k].owner
    {
      assert lu[k] < |lu| && lu[lu[k]] == lu[k] && SameClass(c, k, lu[k]);
    }
    assert r[i] != i by {
      assert lu[i] == i ==> r[i] == j;
    }
  }

  /** A root without a smaller root in its class is the least of its class. */
  lemma {:induction false} RootIsLeast(c: seq<Union>, lu: seq<nat>, i: nat)
    requires Pointing(c, lu) && i < |c| && RootsLeast(c, lu, i) && NoneBefore(c, lu, i, |c|)
    ensures RootsLeast(c, lu, i + 1)
  {
    if lu[i] == i {
      forall m: nat | SameClass(c, i, m)
        ensures c[i].owner <= c[m].owner
      {
        assert SameClass(c, m, lu[m]) && lu[lu[m]] == lu[m] && SameClass(c, i, lu[m]);
      }
    }
  }

  method RemapAll(lu: array<nat>, i: nat, j: nat)
    modifies lu
    ensures lu[..] == Remapped(old(lu[..]), i, j)
  {
    for k := 0 to lu.Length
      invariant forall m :: 0 <= m < lu.Length ==>
                  lu[m] == if m < k && old(lu[m]) == i then j else old(lu[m])
    {
      if lu[k] == i {
        lu[k] := j;
      }
    }
  }

  lemma {:induction false} ConvertsChanged(c: seq<Union>, d: seq<Union>, k: nat, converts: set<nat>)
    requires ConvertsSound(c) && k < |c| && d == c[k := c[k].(converts := converts)]
    requires forall j :: j in converts ==> j < |c| && c[j].members <= c[k].members
    ensures ConvertsSound(d) && SameUnions(c, d)
  {
    forall m, j | 0 <= m < |d| && j in d[m].converts
      ensures j < |d| && d[j].members <= d[m].members
    {
      if m != k {
        assert j in c[m].converts;
      }
    }
  }

  lemma {:induction false} ListedMerged(c: seq<Union>, d: seq<Union>, lu: seq<nat>, i: nat, j: nat)
    requires |lu| == |d| == |c| && Listed(c, d, lu) && i < |c| && SameClass(c, i, j) && lu[j] == j && i != j
    ensures Listed(c, d[j := d[j].(converts := d[j].converts + d[i].converts)], Remapped(lu, i, j))
  {
    var converts := d[j].converts + d[i].converts;
    var e := d[j := d[j].(converts := converts)];
    ConvertsChanged(d, e, j, converts);
    forall k, x | 0 <= k < |e| && x in e[k].converts
      ensures FromClass(c, k, x)
    {
      if x in d[k].converts {
        assert FromClass(c, k, x);
      } else {
        assert FromClass(c, i, x);
        var m: nat :| SameClass(c, i, m) && x in c[m].converts;
        assert SameClass(c, k, m);
      }
    }
    forall k, x | 0 <= k < |c| && x in c[k].converts
      ensures Remapped(lu, i, j)[k] < |e|
      ensures x in e[Remapped(lu, i, j)[k]].converts || (x < |lu| && Remapped(lu, i, j)[x] == Remapped(lu, i, j)[k])
    {
      assert lu[k] < |d| && (x in d[lu[k]].converts || (x < |lu| && lu[x] == lu[k]));
    }
  }

  lemma {:induction false} ListedRemoved(c: seq<Union>, d: seq<Union>, lu: seq<nat>, i: nat)
    requires |lu| == |d| == |c| && Listed(c, d, lu) && i < |lu| && lu[i] < |d|
    ensures Listed(c, d[lu[i] := d[lu[i]].(converts := d[lu[i]].converts - {i})], lu)
  {
    var k := lu[i];
    var e := d[k := d[k].(converts := d[k].converts - {i})];
    ConvertsChanged(d, e, k, d[k].converts - {i});
    forall m, x | 0 <= m < |e| && x in e[m].converts
      ensures FromClass(c, m, x)
    {
      assert x in d[m].converts;
    }
  }

  /** Points `i`, and all that point to it, to the first root of its class with a smaller owner. */
  method MergeOne(table: array<Union>, lu: array<nat>, i: nat, ghost c: seq<Union>)
    requires table.Length == lu.Length == |c| && i < lu.Length
    requires Listed(c, table[..], lu[..])
    requires Pointing(c, lu[..]) && RootsLeast(c, lu[..], i)
    modifies table, lu
    ensures Listed(c, table[..], lu[..])
    ensures Pointing(c, lu[..]) && RootsLeast(c, lu[..], i + 1)
  {
    for j := 0 to lu.Length
      invariant Listed(c, table[..], lu[..])
      invariant Pointing(c, lu[..]) && RootsLeast(c, lu[..], i) && NoneBefore(c, lu[..], i, j)
    {
      if j != i && lu[j] == j && table[j].owner < table[i].owner && table[j].members == table[i].members {
        RemapPoints(c, lu[..], i, j);
        ghost var before := table[..];
        ListedMerged(c, before, lu[..], i, j);
        table[j] := table[j].(converts := table[j].converts + table[i].converts);
        assert table[..] == before[j := before[j].(converts := before[j].converts + before[i].converts)];
        RemapAll(lu, i, j);
      }
    }
    RootIsLeast(c, lu[..], i);
  }

  /** Takes from every root the unions that point to it. */
  method RemoveOwn(table: array<Union>, lu: array<nat>, ghost c: seq<Union>)
    requires table.Length == lu.Length && Pointing(c, lu[..])
    requires Listed(c, table[..], lu[..])
    modifies table
    ensures Listed(c, table[..], lu[..]) && NothingOwn(table[..], lu[..])
  {
    for i := 0 to lu.Length
      invariant Listed(c, table[..], lu[..])
      invariant forall j :: 0 <= j < i && lu[j] < table.Length ==> j !in table[lu[j]].converts
    {
      var k := lu[i];
      ghost var before := table[..];
      ListedRemoved(c, before, lu[..], i);
      table[k] := table[k].(converts := table[k].converts - {i});
      assert table[..] == before[k := before[k].(converts := before[k].converts - {i})];
    }
  }

  method MergeEqual(table: array<Union>, lu: array<nat>)
    requires table.Length == lu.Length && (forall k :: 0 <= k < lu.Length ==> lu[k] == k)
    requires ConvertsSound(table[..])
    modifies table, lu
    ensures Listed(old(table[..]), table[..], lu[..])
    ensures Pointing(old(table[..]), lu[..]) && RootsLeast(old(table[..]), lu[..], lu.Length)
    ensures NothingOwn(table[..], lu[..])
  {
    ghost var c := table[..];
    for i := 0 to lu.Length
      invariant Listed(c, table[..], lu[..])
      invariant Pointing(c, lu[..]) && RootsLeast(c, lu[..], i)
      invariant i > 0 ==> NothingOwn(table[..], lu[..])
    {
      MergeOne(table, lu, i, c);
      RemoveOwn(table, lu, c);
    }
  }

  /** Every union is listed with the root of each union that a path leads from, unless it has that root. */
  ghost predicate ConversionsKept(o: seq<Union>, c: seq<Union>, lu: seq<nat>)
    requires |lu| == |c| == |o|
  {
    forall k: nat, j: nat :: k < |c| && j != k && LeadsTo(o, k, j) ==>
      lu[k] < |c| && (j in c[lu[k]].converts || (j < |lu| && lu[j] == lu[k]))
  }

  /** And a union lists no other. */
  ghost predicate ConversionsLead(o: seq<Union>, c: seq<Union>) {
    forall k, j :: 0 <= k < |c| && j in c[k].converts ==> LedFromClass(o, c, k, j)
  }

  ghost predicate LedFromClass(o: seq<Union>, c: seq<Union>, k: nat, j: nat) {
    exists m: nat :: SameClass(c, k, m) && j != m && LeadsTo(o, m, j)
  }

  lemma {:induction false} ConversionsListed(o: seq<Union>, c: seq<Union>, d: seq<Union>, lu: seq<nat>)
    requires |lu| == |d| == |c| == |o| && ConvertsExact(o, c, |c|) && Listed(c, d, lu)
    ensures ConversionsKept(o, d, lu) && ConversionsLead(o, d)
  {
    forall k, j | 0 <= k < |d| && j in d[k].converts
      ensures LedFromClass(o, d, k, j)
    {
      assert FromClass(c, k, j);
      var m: nat :| SameClass(c, k, m) && j in c[m].converts;
      assert SameClass(d, k, m) && LeadsTo(o, m, j);
    }
    forall k: nat, j: nat | k < |d| && j != k && LeadsTo(o, k, j)
      ensures lu[k] < |d| && (j in d[lu[k]].converts || (j < |lu| && lu[j] == lu[k]))
    {
      assert j in c[k].converts;
    }
  }

  /** The whole resolution: flattening, then electing representatives. */
  method ResolveMultiTypes(table: array<Union>, lu: array<nat>)
    requires table.Length == lu.Length && (forall k :: 0 <= k < lu.Length ==> lu[k] == k)
    requires InTable(table[..])
    modifies table, lu
    ensures forall i :: 0 <= i < table.Length ==> table[i].owner == old(table[i].owner)
    ensures forall i, s :: 0 <= i < table.Length ==> (s in table[i].members <==> Stands(old(table[..]), i, s))
    ensures ConvertsSound(table[..]) && NothingOwn(table[..], lu[..])
    ensures ConversionsKept(old(table[..]), table[..], lu[..]) && ConversionsLead(old(table[..]), table[..])
    ensures Pointing(table[..], lu[..]) && RootsLeast(table[..], lu[..], lu.Length)
  {
    ghost var o := table[..];
    Flatten(table);
    ghost var c := table[..];
    forall k, j | 0 <= k < |c| && j in c[k].converts
      ensures j < |c| && c[j].members <= c[k].members
    {
      assert Within(o, j, k);
    }
    MergeEqual(table, lu);
    ConversionsListed(o, c, table[..], lu[..]);
    SamePointing(c, table[..], lu[..], lu.Length);
  }

  lemma {:induction false} SamePointing(c: seq<Union>, d: seq<Union>, lu: seq<nat>, i: nat)
    requires SameUnions(c, d) && Pointing(c, lu) && RootsLeast(c, lu, i)
    ensures Pointing(d, lu) && RootsLeast(d, lu, i)
  {
    forall k | 0 <= k < |lu|
      ensures lu[k] < |lu| && lu[lu[k]] == lu[k] && SameClass(d, k, lu[k]) && d[lu[k]].owner <= d[k].owner
    {
      assert SameClass(c, k, lu[k]);
    }
    forall k | 0 <= k < i && k < |lu| && lu[k] == k
      ensures Least(d, k)
    {
      assert Least(c, k);
      assert forall m: nat :: SameClass(d, k, m) ==> SameClass(c, k, m);
    }
  }

  // ----- the results -----

  /** With unique owners, two unions have the same representative exactly when they hold the same scalars, the
      representative is the member of the class with the least owner, and it represents itself. */
  lemma {:induction false} RepresentativesAreClasses(c: seq<Union>, lu: seq<nat>, i: nat, j: nat)
    requires Pointing(c, lu) && RootsLeast(c, lu, |lu|) && UniqueOwners(c) && i < |c| && j < |c|
    ensures lu[i] == lu[j] <==> c[i].members == c[j].members
    ensures lu[lu[i]] == lu[i] && Least(c, lu[i])
  {
    assert SameClass(c, i, lu[i]) && lu[lu[i]] == lu[i] && lu[i] < |lu|;
    assert SameClass(c, j, lu[j]) && lu[lu[j]] == lu[j] && lu[j] < |lu|;
    assert Least(c, lu[i]) && Least(c, lu[j]);
    if c[i].members == c[j].members {
      assert SameClass(c, lu[i], lu[j]) && SameClass(c, lu[j], lu[i]);
      assert c[lu[i]].owner == c[lu[j]].owner;
    }
  }

  /** A representative lists no union of its own class as convertible, and only unions with fewer scalars. */
  lemma {:induction false} ConversionsSound(c: seq<Union>, lu: seq<nat>, r: nat, j: nat)
    requires Pointing(c, lu) && RootsLeast(c, lu, |lu|) && UniqueOwners(c) && ConvertsSound(c) && NothingOwn(c, lu)
    requires r < |c| && lu[r] == r && j in c[r].converts
    ensures j < |c| && c[j].members < c[r].members
  {
    assert j < |c| && c[j].members <= c[r].members;
    RepresentativesAreClasses(c, lu, r, j);
  }

  /** Convertible into a representative are exactly the unions outside its class that a path of member unions leads
      to from a union of its class. */
  lemma {:induction false} ConversionsExactly(o: seq<Union>, c: seq<Union>, lu: seq<nat>, r: nat, j: nat)
    requires |c| == |o| && Pointing(c, lu) && RootsLeast(c, lu, |lu|) && UniqueOwners(c) && NothingOwn(c, lu)
    requires ConversionsKept(o, c, lu) && ConversionsLead(o, c)
    requires r < |c| && lu[r] == r
    ensures j in c[r].converts <==> j < |c| && lu[j] != r && exists k: nat :: k < |c| && lu[k] == r && LeadsTo(o, k, j)
  {
    if j in c[r].converts {
      assert LedFromClass(o, c, r, j);
      var m: nat :| SameClass(c, r, m) && j != m && LeadsTo(o, m, j);
      RepresentativesAreClasses(c, lu, r, m);
      var p :| Leads(o, m, p, j);
      assert p[|p| - 1] < |o|;
    }
    if j < |c| && lu[j] != r {
      if k: nat :| k < |c| && lu[k] == r && LeadsTo(o, k, j) {
        assert j != k;
      }
    }
  }

  /** A union named as a member is convertible into the representative, unless it is of the same class. */
  lemma {:induction false} MemberConverts(o: seq<Union>, c: seq<Union>, lu: seq<nat>, k: nat, m: nat)
    requires InTable(o) && |c| == |o| && Pointing(c, lu) && ConversionsKept(o, c, lu)
    requires k < |o| && Multi(m) in o[k].members && lu[m] != lu[k]
    ensures m in c[lu[k]].converts
  {
    LeadsToMember(o, k, m);
  }

  // ----- the emitted enums -----

  /** The enums that are written out (crates/radlr-ascript/types/multi.rs:47-79, 97-99). */
  datatype Enum = Enum(source: nat, members: set<Scalar>, convertsFrom: set<nat>, root: bool)

  function Enums(c: seq<Union>, lu: seq<nat>): (e: seq<Enum>)
    requires |lu| == |c| && forall k :: 0 <= k < |lu| ==> lu[k] < |c|
    ensures |e| == |c|
    ensures forall i :: 0 <= i < |e| ==>
              e[i] == Enum(lu[i], c[lu[i]].members, c[lu[i]].converts - {lu[i], i}, lu[i] == i)
  {
    seq(|c|, i requires 0 <= i < |c| => Enum(lu[i], c[lu[i]].members, c[lu[i]].converts - {lu[i], i}, lu[i] == i))
  }

  /** For every union exactly one enum is written out as root, it holds exactly the union's scalars, each union listed
      as convertible into it holds strictly fewer, and those are the unions of other classes that a path of member
      unions leads to from a union of its class. */
  lemma {:induction false} OneEnumPerClass(o: seq<Union>, c: seq<Union>, lu: seq<nat>, i: nat)
    requires |c| == |o| && Pointing(c, lu) && RootsLeast(c, lu, |lu|) && UniqueOwners(c) && ConvertsSound(c) && NothingOwn(c, lu)
    requires ConversionsKept(o, c, lu) && ConversionsLead(o, c)
    requires i < |c|
    ensures var e := Enums(c, lu);
            && e[lu[i]].root && e[lu[i]].members == c[i].members
            && (forall r :: 0 <= r < |e| && e[r].root && e[r].members == c[i].members ==> r == lu[i])
            && (forall j :: j in e[lu[i]].convertsFrom ==> j < |c| && c[j].members < c[i].members)
            && (forall j: nat :: j in e[lu[i]].convertsFrom <==>
                  j < |c| && lu[j] != lu[i] && exists k: nat :: k < |c| && lu[k] == lu[i] && LeadsTo(o, k, j))
  {
    var e := Enums(c, lu);
    assert SameClass(c, i, lu[i]) && lu[lu[i]] == lu[i] && lu[i] < |lu|;
    forall r | 0 <= r < |e| && e[r].root && e[r].members == c[i].members
      ensures r == lu[i]
    {
      RepresentativesAreClasses(c, lu, r, i);
    }
    forall j: nat
      ensures j in e[lu[i]].convertsFrom ==> j < |c| && c[j].members < c[i].members
      ensures j in e[lu[i]].convertsFrom <==>
                j < |c| && lu[j] != lu[i] && exists k: nat :: k < |c| && lu[k] == lu[i] && LeadsTo(o, k, j)
    {
      ConversionsExactly(o, c, lu, lu[i], j);
      assert j in e[lu[i]].convertsFrom <==> j in c[lu[i]].converts;
      if j in c[lu[i]].converts {
        ConversionsSound(c, lu, lu[i], j);
      }
    }
  }
}
