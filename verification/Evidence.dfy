/** Which requests the evidence reader counts as one: those a chain of shared attempts connects. */
module Evidence {
  import opened Seqs

  /** One admitted observation of a model call. Request ids are ordered as their texts are. */
  datatype Observation = Observation(attempt: nat, request: nat, kind: nat, inputBytes: nat, signature: nat)

  // ---------------------------------------------------------------- connection

  /** Two requests were both seen with one attempt. */
  ghost predicate Linked(obs: seq<Observation>, a: nat, b: nat)
  {
    exists i, j :: 0 <= i < |obs| && 0 <= j < |obs|
                   && obs[i].attempt == obs[j].attempt && obs[i].request == a && obs[j].request == b
  }

  /** Each request on the way shares an attempt with the next. */
  ghost predicate Chain(obs: seq<Observation>, way: seq<nat>)
  {
    |way| <= 1 || (Chain(obs, way[..|way| - 1]) && Linked(obs, way[|way| - 2], way[|way| - 1]))
  }

  ghost predicate Way(obs: seq<Observation>, a: nat, b: nat, way: seq<nat>)
  {
    way != [] && way[0] == a && way[|way| - 1] == b && Chain(obs, way)
  }

  ghost predicate Connected(obs: seq<Observation>, a: nat, b: nat)
  {
    exists way :: Way(obs, a, b, way)
  }

  lemma {:induction false} ChainJoin(obs: seq<Observation>, p: seq<nat>, q: seq<nat>)
    requires p != [] && q != [] && Chain(obs, p) && Chain(obs, q) && p[|p| - 1] == q[0]
    ensures Chain(obs, p + q[1..])
    decreases |q|
  {
    if |q| == 1 {
      assert p + q[1..] == p;
    } else {
      var front := q[..|q| - 1];
      ChainJoin(obs, p, front);
      var way := p + q[1..];
      assert way[..|way| - 1] == p + front[1..];
      assert way[|way| - 1] == q[|q| - 1];
      assert way[|way| - 2] == q[|q| - 2];
    }
  }

  lemma ConnectedTrans(obs: seq<Observation>, a: nat, b: nat, c: nat)
    requires Connected(obs, a, b) && Connected(obs, b, c)
    ensures Connected(obs, a, c)
  {
    var p :| Way(obs, a, b, p);
    var q :| Way(obs, b, c, q);
    ChainJoin(obs, p, q);
    assert Way(obs, a, c, p + q[1..]);
  }

  lemma ConnectedSelf(obs: seq<Observation>, a: nat)
    ensures Connected(obs, a, a)
  {
    assert Way(obs, a, a, [a]);
  }

  lemma ConnectedOnce(obs: seq<Observation>, a: nat, b: nat)
    requires Linked(obs, a, b)
    ensures Connected(obs, a, b)
  {
    var way := [a, b];
    assert way[..1] == [a];
    assert Way(obs, a, b, way);
  }

  ghost predicate Within(some: seq<Observation>, all: seq<Observation>)
  {
    forall o :: o in some ==> o in all
  }

  lemma LinkedGrows(some: seq<Observation>, all: seq<Observation>, a: nat, b: nat)
    requires Within(some, all) && Linked(some, a, b)
    ensures Linked(all, a, b)
  {
    var i, j :| 0 <= i < |some| && 0 <= j < |some|
                && some[i].attempt == some[j].attempt && some[i].request == a && some[j].request == b;
    assert some[i] in all && some[j] in all;
    var k :| 0 <= k < |all| && all[k] == some[i];
    var m :| 0 <= m < |all| && all[m] == some[j];
  }

  lemma {:induction false} ChainGrows(some: seq<Observation>, all: seq<Observation>, way: seq<nat>)
    requires Within(some, all) && Chain(some, way)
    ensures Chain(all, way)
  {
    if |way| > 1 {
      ChainGrows(some, all, way[..|way| - 1]);
      LinkedGrows(some, all, way[|way| - 2], way[|way| - 1]);
    }
  }

  lemma ConnectedGrows(some: seq<Observation>, all: seq<Observation>, a: nat, b: nat)
    requires Within(some, all) && Connected(some, a, b)
    ensures Connected(all, a, b)
  {
    var way :| Way(some, a, b, way);
    ChainGrows(some, all, way);
    assert Way(all, a, b, way);
  }

  // ---------------------------------------------------------------- the forest

  type Parents = map<nat, nat>

  /** A parent is known, and never greater than its child. */
  ghost predicate Forest(p: Parents)
  {
    p.Values <= p.Keys && forall x :: x in p ==> p[x] <= x
  }

  lemma ParentKnown(p: Parents, x: nat)
    requires Forest(p) && x in p
    ensures p[x] in p
  {
    assert p[x] in p.Values;
  }

  lemma UpdateForest(p: Parents, x: nat, y: nat)
    requires Forest(p) && y <= x && (y in p || y == x)
    ensures Forest(p[x := y])
  {
    var q := p[x := y];
    forall v | v in q.Values
      ensures v in q.Keys
    {
      var k :| k in q && q[k] == v;
      if k != x {
        ParentKnown(p, k);
      }
    }
  }

  ghost function Root(p: Parents, x: nat): (r: nat)
    requires Forest(p) && x in p
    ensures r in p && p[r] == r && r <= x
    decreases x
  {
    ParentKnown(p, x);
    if p[x] == x then x else Root(p, p[x])
  }

  /** Hanging the larger root below the smaller one redirects exactly its own tree. */
  lemma {:induction false} RootAfterJoin(p: Parents, l: nat, r: nat, x: nat)
    requires Forest(p) && l in p && r in p && p[l] == l && p[r] == r && l <= r && x in p
    ensures Forest(p[r := l])
    ensures Root(p[r := l], x) == if Root(p, x) == r then l else Root(p, x)
    decreases x
  {
    UpdateForest(p, r, l);
    ParentKnown(p, x);
    if x == r {
      assert Root(p[r := l], l) == l;
    } else if p[x] != x {
      RootAfterJoin(p, l, r, p[x]);
    }
  }

  lemma {:induction false} RootAfterNew(p: Parents, id: nat, x: nat)
    requires Forest(p) && id !in p && x in p
    ensures Forest(p[id := id]) && Root(p[id := id], x) == Root(p, x)
    decreases x
  {
    UpdateForest(p, id, id);
    ParentKnown(p, x);
    if p[x] != x {
      RootAfterNew(p, id, p[x]);
    }
  }

  /** A request seen for the first time is its own root. */
  ghost function Adopted(p: Parents, id: nat): (r: Parents)
    requires Forest(p)
    ensures Forest(r) && r.Keys == p.Keys + {id}
  {
    UpdateForest(p, id, id);
    if id in p then p else p[id := id]
  }

  lemma AdoptedRoots(p: Parents, id: nat)
    requires Forest(p)
    ensures forall x :: x in p ==> Root(Adopted(p, id), x) == Root(p, x)
    ensures id !in p ==> Root(Adopted(p, id), id) == id
  {
    if id !in p {
      forall x | x in p
        ensures Root(p[id := id], x) == Root(p, x)
      {
        RootAfterNew(p, id, x);
      }
    }
  }

  function Least(a: nat, b: nat): nat { if a < b then a else b }

  function Most(a: nat, b: nat): nat { if a < b then b else a }

  /** Two trees made one under the smaller root. */
  ghost function Joined(p: Parents, left: nat, right: nat): (r: Parents)
    requires Forest(p)
    ensures Forest(r) && r.Keys == p.Keys + {left, right}
  {
    var q := Adopted(Adopted(p, left), right);
    var l, r := Root(q, left), Root(q, right);
    UpdateForest(q, Most(l, r), Least(l, r));
    q[Most(l, r) := Least(l, r)]
  }

  /** After a join, roots agree exactly where they did before, or where each was one of the two. */
  lemma JoinedRoots(p: Parents, left: nat, right: nat)
    requires Forest(p)
    ensures var q := Adopted(Adopted(p, left), right);
            var l, r := Root(q, left), Root(q, right);
            forall x :: x in q ==>
              Root(Joined(p, left, right), x) == if Root(q, x) == l || Root(q, x) == r then Least(l, r) else Root(q, x)
  {
    var q := Adopted(Adopted(p, left), right);
    var l, r := Root(q, left), Root(q, right);
    forall x | x in q
      ensures Root(Joined(p, left, right), x) == if Root(q, x) == Most(l, r) then Least(l, r) else Root(q, x)
    {
      RootAfterJoin(q, Least(l, r), Most(l, r), x);
    }
  }

  /** The requests of one evidence reader, joined in place. */
  class Requests {
    var parents: Parents

    constructor ()
      ensures parents == map[]
    {
      parents := map[];
    }

    /** Parents only ever get smaller, so the climb ends, at the root. */
    method RequestRoot(id: nat) returns (root: nat)
      requires Forest(parents)
      modifies this
      ensures Forest(parents) && parents == Adopted(old(parents), id) && root == Root(parents, id)
    {
      if id !in parents {
        UpdateForest(parents, id, id);
        parents := parents[id := id];
      }
      root := Climb(id);
    }

    method Climb(id: nat) returns (root: nat)
      requires Forest(parents) && id in parents
      ensures root == Root(parents, id)
    {
      root := id;
      while parents[root] != root
        invariant root in parents && Root(parents, root) == Root(parents, id)
        decreases root
      {
        ParentKnown(parents, root);
        root := parents[root];
      }
    }

    method JoinRequests(left: nat, right: nat)
      requires Forest(parents)
      modifies this
      ensures Forest(parents) && parents == Joined(old(parents), left, right)
    {
      var l := RequestRoot(left);
      ghost var p := parents;
      var r := RequestRoot(right);
      AdoptedRoots(p, right);
      UpdateForest(parents, Most(l, r), Least(l, r));
      parents := parents[Most(l, r) := Least(l, r)];
    }
  }

  // --------------------------------------------- roots are connected components

  ghost predicate Requested(obs: seq<Observation>, x: nat)
  {
    exists o :: o in obs && o.request == x
  }

  /** The first observation of every attempt. */
  type Seen = map<nat, Observation>

  ghost predicate Remembers(seen: Seen, obs: seq<Observation>)
  {
    && (forall a :: a in seen ==> seen[a] in obs && seen[a].attempt == a)
    && forall o :: o in obs ==> o.attempt in seen
  }

  ghost predicate Known(p: Parents, obs: seq<Observation>)
  {
    Forest(p) && forall x :: x in p <==> Requested(obs, x)
  }

  /** Every observation hangs with the first one of its attempt. */
  ghost predicate Gathered(p: Parents, seen: Seen, obs: seq<Observation>)
  {
    forall o :: o in obs ==> Hangs(p, seen, o)
  }

  ghost predicate Hangs(p: Parents, seen: Seen, o: Observation)
  {
    Forest(p) && o.attempt in seen && SameTree(p, o.request, seen[o.attempt].request)
  }

  ghost predicate SameTree(p: Parents, a: nat, b: nat)
    requires Forest(p)
  {
    a in p && b in p && Root(p, a) == Root(p, b)
  }

  ghost predicate Justified(p: Parents, obs: seq<Observation>)
    requires Forest(p)
  {
    forall a, b {:trigger Connected(obs, a, b)} :: SameTree(p, a, b) ==> Connected(obs, a, b)
  }

  ghost predicate Agrees(p: Parents, seen: Seen, obs: seq<Observation>)
  {
    Known(p, obs) && Remembers(seen, obs) && Gathered(p, seen, obs) && Justified(p, obs)
  }

  lemma LinkedSameTree(p: Parents, seen: Seen, obs: seq<Observation>, a: nat, b: nat)
    requires Agrees(p, seen, obs) && Linked(obs, a, b)
    ensures SameTree(p, a, b)
  {
    var i, j :| 0 <= i < |obs| && 0 <= j < |obs|
                && obs[i].attempt == obs[j].attempt && obs[i].request == a && obs[j].request == b;
    assert Hangs(p, seen, obs[i]) && Hangs(p, seen, obs[j]);
  }

  /** Same-tree is an equivalence: if it holds along every link, it holds along every chain. */
  lemma {:induction false} ChainSameTree(p: Parents, obs: seq<Observation>, way: seq<nat>)
    requires Forest(p) && forall x, y :: Linked(obs, x, y) ==> SameTree(p, x, y)
    requires Chain(obs, way) && way != [] && way[0] in p
    ensures SameTree(p, way[0], way[|way| - 1])
  {
    if |way| > 1 {
      ChainSameTree(p, obs, way[..|way| - 1]);
      assert SameTree(p, way[|way| - 2], way[|way| - 1]);
    }
  }

  lemma ConnectedSameTree(p: Parents, seen: Seen, obs: seq<Observation>, a: nat, b: nat)
    requires Agrees(p, seen, obs) && a in p && Connected(obs, a, b)
    ensures SameTree(p, a, b)
  {
    forall x, y | Linked(obs, x, y)
      ensures SameTree(p, x, y)
    {
      LinkedSameTree(p, seen, obs, x, y);
    }
    var way :| Way(obs, a, b, way);
    ChainSameTree(p, obs, way);
  }

  lemma AgreedRoots(p: Parents, seen: Seen, obs: seq<Observation>, a: nat, b: nat)
    requires Agrees(p, seen, obs) && Requested(obs, a) && Requested(obs, b)
    ensures Root(p, a) == Root(p, b) <==> Connected(obs, a, b)
  {
    assert a in p && b in p;
    if Connected(obs, a, b) {
      ConnectedSameTree(p, seen, obs, a, b);
    }
    assert SameTree(p, a, b) <==> Root(p, a) == Root(p, b);
  }

  lemma AgreedLeast(p: Parents, seen: Seen, obs: seq<Observation>, a: nat, b: nat)
    requires Agrees(p, seen, obs) && Requested(obs, a) && Requested(obs, b)
    ensures Connected(obs, a, Root(p, a)) && Requested(obs, Root(p, a))
    ensures Connected(obs, a, b) ==> Root(p, a) <= b
  {
    assert SameTree(p, a, Root(p, a));
    AgreedRoots(p, seen, obs, a, b);
  }

  // ------------------------------------------------------ one more observation

  lemma KnownAfter(p: Parents, obs: seq<Observation>, o: Observation)
    requires Known(p, obs)
    ensures forall x :: Requested(obs + [o], x) <==> x in p || x == o.request
  {
    forall x
      ensures Requested(obs + [o], x) <==> x in p || x == o.request
    {
      assert x in p <==> Requested(obs, x);
      if Requested(obs, x) {
        var e :| e in obs && e.request == x;
        assert e in obs + [o];
      }
      assert o in obs + [o];
      if Requested(obs + [o], x) {
        var e :| e in obs + [o] && e.request == x;
        assert e in obs || e == o;
      }
    }
  }

  lemma AdoptJustified(p: Parents, obs: seq<Observation>, o: Observation)
    requires Known(p, obs) && Justified(p, obs)
    ensures Justified(Adopted(p, o.request), obs + [o])
  {
    var q, all := Adopted(p, o.request), obs + [o];
    AdoptedRoots(p, o.request);
    forall a, b | SameTree(q, a, b)
      ensures Connected(all, a, b)
    {
      if a in p && b in p {
        assert SameTree(p, a, b);
        ConnectedGrows(obs, all, a, b);
      } else {
        ConnectedSelf(all, a);
      }
    }
  }

  /** Two trees whose requests share an attempt may be joined. */
  lemma JoinJustified(p: Parents, left: nat, right: nat, obs: seq<Observation>)
    requires Forest(p) && left in p && right in p && Justified(p, obs)
    requires Linked(obs, left, right) && Linked(obs, right, left)
    ensures Justified(Joined(p, left, right), obs)
  {
    var j := Joined(p, left, right);
    JoinedRoots(p, left, right);
    ConnectedOnce(obs, left, right);
    ConnectedOnce(obs, right, left);
    forall a, b | SameTree(j, a, b)
      ensures Connected(obs, a, b)
    {
      if !SameTree(p, a, b) {
        if SameTree(p, a, left) {
          Bridge(obs, p, a, left, right, b);
        } else {
          Bridge(obs, p, a, right, left, b);
        }
      }
    }
  }

  lemma Bridge(obs: seq<Observation>, p: Parents, a: nat, x: nat, y: nat, b: nat)
    requires Forest(p) && Justified(p, obs) && SameTree(p, a, x) && Connected(obs, x, y) && SameTree(p, y, b)
    ensures Connected(obs, a, b)
  {
    ConnectedTrans(obs, a, x, y);
    ConnectedTrans(obs, a, y, b);
  }

  lemma RemembersNew(seen: Seen, obs: seq<Observation>, o: Observation)
    requires Remembers(seen, obs)
    ensures o.attempt !in seen ==> Remembers(seen[o.attempt := o], obs + [o])
    ensures o.attempt in seen ==> Remembers(seen, obs + [o])
  {
    assert forall e :: e in obs + [o] <==> e in obs || e == o;
  }

  lemma FirstGathered(p: Parents, seen: Seen, obs: seq<Observation>, o: Observation, e: Observation)
    requires Agrees(p, seen, obs) && o.attempt !in seen && (e in obs || e == o)
    ensures Hangs(Adopted(p, o.request), seen[o.attempt := o], e)
  {
    AdoptedRoots(p, o.request);
    if e in obs {
      assert Hangs(p, seen, e);
    }
  }

  /** The first observation of an attempt. */
  lemma FirstSeen(p: Parents, seen: Seen, obs: seq<Observation>, o: Observation)
    requires Agrees(p, seen, obs) && o.attempt !in seen
    ensures Agrees(Adopted(p, o.request), seen[o.attempt := o], obs + [o])
  {
    KnownAfter(p, obs, o);
    AdoptJustified(p, obs, o);
    RemembersNew(seen, obs, o);
    forall e | e in obs + [o]
      ensures Hangs(Adopted(p, o.request), seen[o.attempt := o], e)
    {
      FirstGathered(p, seen, obs, o, e);
    }
  }

  lemma JoinKeeps(p: Parents, left: nat, right: nat, a: nat, b: nat)
    requires Forest(p) && left in p && right in p
    ensures SameTree(p, a, b) ==> SameTree(Joined(p, left, right), a, b)
    ensures SameTree(Joined(p, left, right), left, right)
  {
    JoinedRoots(p, left, right);
  }

  lemma AgainLinked(obs: seq<Observation>, first: Observation, o: Observation)
    requires first in obs && first.attempt == o.attempt
    ensures Linked(obs + [o], first.request, o.request) && Linked(obs + [o], o.request, first.request)
  {
    var all := obs + [o];
    var i :| 0 <= i < |obs| && obs[i] == first;
    assert all[i] == first && all[|obs|] == o;
  }

  /** Joining with a request not met before is joining it as its own tree. */
  lemma JoinedAdopted(p: Parents, left: nat, right: nat)
    requires Forest(p) && left in p
    ensures Joined(p, left, right) == Joined(Adopted(p, right), left, right)
  {
  }

  lemma FirstKnown(p: Parents, seen: Seen, obs: seq<Observation>, a: nat)
    requires Known(p, obs) && Remembers(seen, obs) && a in seen
    ensures seen[a].request in p && seen[a].attempt == a
  {
    assert seen[a] in obs;
    assert Requested(obs, seen[a].request);
  }

  lemma AgainOld(p: Parents, left: nat, right: nat, a: nat, b: nat)
    requires Forest(p) && left in p && SameTree(p, a, b)
    ensures SameTree(Joined(Adopted(p, right), left, right), a, b)
  {
    AdoptedRoots(p, right);
    JoinKeeps(Adopted(p, right), left, right, a, b);
  }

  lemma AgainNew(p: Parents, left: nat, right: nat)
    requires Forest(p) && left in p
    ensures SameTree(Joined(Adopted(p, right), left, right), right, left)
  {
    JoinKeeps(Adopted(p, right), left, right, left, left);
  }

  lemma AgainHangs(p: Parents, seen: Seen, o: Observation, e: Observation)
    requires Forest(p) && o.attempt in seen && seen[o.attempt].request in p
    requires Hangs(p, seen, e) || e == o
    ensures Hangs(Joined(Adopted(p, o.request), seen[o.attempt].request, o.request), seen, e)
  {
    if Hangs(p, seen, e) {
      AgainOld(p, seen[o.attempt].request, o.request, e.request, seen[e.attempt].request);
    } else {
      AgainNew(p, seen[o.attempt].request, o.request);
    }
  }

  lemma AgainGathered(p: Parents, seen: Seen, obs: seq<Observation>, o: Observation)
    requires Forest(p) && Gathered(p, seen, obs) && o.attempt in seen && seen[o.attempt].request in p
    ensures Gathered(Joined(Adopted(p, o.request), seen[o.attempt].request, o.request), seen, obs + [o])
  {
    forall e | e in obs + [o]
      ensures Hangs(Joined(Adopted(p, o.request), seen[o.attempt].request, o.request), seen, e)
    {
      AgainHangs(p, seen, o, e);
    }
  }

  lemma AgainJustified(p: Parents, seen: Seen, obs: seq<Observation>, o: Observation)
    requires Agrees(p, seen, obs) && o.attempt in seen && seen[o.attempt].request in p
    ensures Justified(Joined(Adopted(p, o.request), seen[o.attempt].request, o.request), obs + [o])
  {
    AdoptJustified(p, obs, o);
    AgainLinked(obs, seen[o.attempt], o);
    JoinJustified(Adopted(p, o.request), seen[o.attempt].request, o.request, obs + [o]);
  }

  /** A copied observation joins its request with the first one's. */
  lemma SeenAgain(p: Parents, seen: Seen, obs: seq<Observation>, o: Observation)
    requires Agrees(p, seen, obs) && o.attempt in seen
    ensures Agrees(Joined(p, seen[o.attempt].request, o.request), seen, obs + [o])
  {
    FirstKnown(p, seen, obs, o.attempt);
    JoinedAdopted(p, seen[o.attempt].request, o.request);
    KnownAfter(p, obs, o);
    AgainJustified(p, seen, obs, o);
    RemembersNew(seen, obs, o);
    AgainGathered(p, seen, obs, o);
  }

  // ------------------------------------------- the forest as a function of the read

  ghost function SeenOf(obs: seq<Observation>): Seen
  {
    if obs == [] then map[]
    else
      var o, seen := obs[|obs| - 1], SeenOf(obs[..|obs| - 1]);
      if o.attempt in seen then seen else seen[o.attempt := o]
  }

  ghost function ForestOf(obs: seq<Observation>): (p: Parents)
    ensures Forest(p)
  {
    if obs == [] then map[]
    else
      var o, seen, p := obs[|obs| - 1], SeenOf(obs[..|obs| - 1]), ForestOf(obs[..|obs| - 1]);
      if o.attempt in seen then Joined(p, seen[o.attempt].request, o.request) else Adopted(p, o.request)
  }

  lemma ReadSnoc(obs: seq<Observation>, o: Observation)
    ensures SeenOf(obs + [o]) ==
            if o.attempt in SeenOf(obs) then SeenOf(obs) else SeenOf(obs)[o.attempt := o]
    ensures ForestOf(obs + [o]) ==
            if o.attempt in SeenOf(obs) then Joined(ForestOf(obs), SeenOf(obs)[o.attempt].request, o.request)
            else Adopted(ForestOf(obs), o.request)
  {
    assert (obs + [o])[..|obs|] == obs;
  }

  lemma NothingRead()
    ensures Agrees(map[], map[], [])
  {
  }

  lemma ReadMore(obs: seq<Observation>, o: Observation)
    requires Agrees(ForestOf(obs), SeenOf(obs), obs)
    ensures Agrees(ForestOf(obs + [o]), SeenOf(obs + [o]), obs + [o])
  {
    ReadSnoc(obs, o);
    if o.attempt in SeenOf(obs) {
      SeenAgain(ForestOf(obs), SeenOf(obs), obs, o);
    } else {
      FirstSeen(ForestOf(obs), SeenOf(obs), obs, o);
    }
  }

  /** Whatever was read, the forest is what the observations say. */
  lemma {:induction false} ReadAgrees(obs: seq<Observation>)
    ensures Agrees(ForestOf(obs), SeenOf(obs), obs)
  {
    if obs == [] {
      NothingRead();
    } else {
      var before, o := obs[..|obs| - 1], obs[|obs| - 1];
      ReadAgrees(before);
      ReadMore(before, o);
      assert obs == before + [o];
    }
  }

  /** The root of a request once everything has been read. */
  ghost function RootOf(obs: seq<Observation>, x: nat): (r: nat)
    requires Requested(obs, x)
  {
    ReadAgrees(obs);
    Root(ForestOf(obs), x)
  }

  /** Two requests have the same root exactly when a chain of shared attempts connects them. */
  lemma SameRootIffConnected(obs: seq<Observation>, a: nat, b: nat)
    requires Requested(obs, a) && Requested(obs, b)
    ensures RootOf(obs, a) == RootOf(obs, b) <==> Connected(obs, a, b)
  {
    ReadAgrees(obs);
    AgreedRoots(ForestOf(obs), SeenOf(obs), obs, a, b);
  }

  /** The root is the least request of its component. */
  lemma RootIsLeast(obs: seq<Observation>, a: nat, b: nat)
    requires Requested(obs, a) && Requested(obs, b)
    ensures Requested(obs, RootOf(obs, a)) && Connected(obs, a, RootOf(obs, a))
    ensures Connected(obs, a, b) ==> RootOf(obs, a) <= b
  {
    ReadAgrees(obs);
    AgreedLeast(ForestOf(obs), SeenOf(obs), obs, a, b);
  }

  /** Neither the order in which observations arrive nor how often one is copied changes a root. */
  lemma ArrivalOrderForgotten(obs: seq<Observation>, obs': seq<Observation>, a: nat)
    requires Within(obs, obs') && Within(obs', obs) && Requested(obs, a) && Requested(obs', a)
    ensures RootOf(obs, a) == RootOf(obs', a)
  {
    MoreEvidence(obs, obs', a);
    MoreEvidence(obs', obs, a);
  }

  /** With more observations a root can only become less. */
  lemma MoreEvidence(obs: seq<Observation>, obs': seq<Observation>, a: nat)
    requires Within(obs, obs') && Requested(obs, a) && Requested(obs', a)
    ensures RootOf(obs', a) <= RootOf(obs, a)
  {
    RootIsLeast(obs, a, a);
    var r := RootOf(obs, a);
    ConnectedGrows(obs, obs', a, r);
    RequestedGrows(obs, obs', r);
    RootIsLeast(obs', a, r);
  }

  lemma RequestedGrows(obs: seq<Observation>, obs': seq<Observation>, x: nat)
    requires Within(obs, obs') && Requested(obs, x)
    ensures Requested(obs', x)
  {
    var o :| o in obs && o.request == x;
    assert o in obs';
  }

  // ------------------------------------------------------------- the read itself

  function BitLength(n: nat): nat
  {
    if n == 0 then 0 else 1 + BitLength(n / 2)
  }

  function PowerOfTwo(k: nat): nat
  {
    if k == 0 then 1 else 2 * PowerOfTwo(k - 1)
  }

  lemma {:induction false} BitLengthBounds(n: nat)
    ensures n < PowerOfTwo(BitLength(n)) && (n > 0 ==> PowerOfTwo(BitLength(n)) <= 2 * n)
  {
    if n > 0 {
      BitLengthBounds(n / 2);
    }
  }

  /** The size cohort of a call: the least power of two that holds its bytes. */
  function Bucket(bytes: nat): nat
  {
    PowerOfTwo(BitLength(if bytes == 0 then 0 else bytes - 1))
  }

  lemma BucketHolds(bytes: nat)
    requires bytes > 0
    ensures bytes <= Bucket(bytes) < 2 * bytes
  {
    BitLengthBounds(bytes - 1);
  }

  type Cohort = (nat, nat)

  function CohortOf(o: Observation): Cohort { (o.kind, Bucket(o.inputBytes)) }

  type Groups = map<Cohort, seq<Observation>>

  /** Every attempt's first observation stands in its own cohort, once, and nothing else does. */
  ghost predicate Sorted(groups: Groups, seen: Seen)
  {
    && (forall a :: a in seen ==> CohortOf(seen[a]) in groups && seen[a] in groups[CohortOf(seen[a])])
    && (forall c :: c in groups ==> Cohorted(groups[c], c, seen))
  }

  ghost predicate Cohorted(samples: seq<Observation>, c: Cohort, seen: Seen)
  {
    && (forall o :: o in samples ==> CohortOf(o) == c && o.attempt in seen && seen[o.attempt] == o)
    && forall i, j :: 0 <= i < j < |samples| ==> samples[i].attempt != samples[j].attempt
  }

  method AddSample(groups: Groups, ghost seen: Seen, o: Observation) returns (r: Groups)
    requires Sorted(groups, seen) && o.attempt !in seen
    ensures Sorted(r, seen[o.attempt := o])
  {
    var c := CohortOf(o);
    var samples := if c in groups then groups[c] else [];
    r := groups[c := samples + [o]];
    ghost var seen' := seen[o.attempt := o];
    assert Cohorted(samples, c, seen);
    forall d | d in r
      ensures Cohorted(r[d], d, seen')
    {
      if d != c {
        assert Cohorted(groups[d], d, seen);
      }
    }
    assert o in samples + [o];
    forall a | a in seen'
      ensures CohortOf(seen'[a]) in r && seen'[a] in r[CohortOf(seen'[a])]
    {
    }
  }

  /** The observations whose signature is not that of their attempt's first one. */
  ghost function Clashes(seen: Seen, obs: seq<Observation>): set<nat>
  {
    set i: nat | i < |obs| && Clash(seen, obs[i])
  }

  predicate Clash(seen: Seen, o: Observation)
  {
    o.attempt in seen && seen[o.attempt].signature != o.signature
  }

  lemma ClashStep(seen: Seen, obs: seq<Observation>, o: Observation)
    requires Remembers(seen, obs)
    ensures o.attempt in seen ==> |Clashes(seen, obs + [o])| == |Clashes(seen, obs)| + (if Clash(seen, o) then 1 else 0)
    ensures o.attempt !in seen ==> |Clashes(seen[o.attempt := o], obs + [o])| == |Clashes(seen, obs)|
  {
    if o.attempt in seen {
      ClashesSnoc(seen, obs, o);
    } else {
      ClashesSnoc(seen[o.attempt := o], obs, o);
      forall i: nat | i < |obs|
        ensures Clash(seen[o.attempt := o], obs[i]) <==> Clash(seen, obs[i])
      {
        assert obs[i] in obs;
      }
      assert Clashes(seen[o.attempt := o], obs) == Clashes(seen, obs);
    }
  }

  lemma ClashesSnoc(seen: Seen, obs: seq<Observation>, o: Observation)
    ensures |Clashes(seen, obs + [o])| == |Clashes(seen, obs)| + (if Clash(seen, o) then 1 else 0)
  {
    var more := if Clash(seen, o) then {|obs|} else {};
    forall i: nat
      ensures i in Clashes(seen, obs + [o]) <==> i in Clashes(seen, obs) + more
    {
      assert i < |obs| ==> (obs + [o])[i] == obs[i];
    }
    assert Clashes(seen, obs + [o]) == Clashes(seen, obs) + more;
  }

  /** Copied observations are one call: they are counted apart, and join their requests. */
  method Gather(obs: seq<Observation>)
    returns (requests: Requests, seen: Seen, groups: Groups, duplicates: nat, conflicts: nat)
    ensures fresh(requests) && requests.parents == ForestOf(obs) && seen == SeenOf(obs) && Sorted(groups, seen)
    ensures duplicates == |obs| - |seen|
    ensures conflicts == |Clashes(seen, obs)|
  {
    requests := new Requests();
    seen, groups, duplicates, conflicts := map[], map[], 0, 0;
    for i := 0 to |obs|
      invariant fresh(requests) && requests.parents == ForestOf(obs[..i]) && seen == SeenOf(obs[..i])
      invariant Sorted(groups, seen)
      invariant duplicates == i - |seen|
      invariant conflicts == |Clashes(seen, obs[..i])|
    {
      var o := obs[i];
      TakeSnoc(obs, i);
      ReadSnoc(obs[..i], o);
      ReadAgrees(obs[..i]);
      ClashStep(seen, obs[..i], o);
      if o.attempt in seen {
        duplicates := duplicates + 1;
        conflicts := conflicts + (if seen[o.attempt].signature != o.signature then 1 else 0);
        requests.JoinRequests(seen[o.attempt].request, o.request);
      } else {
        groups := AddSample(groups, seen, o);
        seen := seen[o.attempt := o];
        var root := requests.RequestRoot(o.request);
      }
    }
    assert obs[..|obs|] == obs;
  }

  // ------------------------------------------------------------ request counts

  ghost function RootsOf(p: Parents, samples: seq<Observation>): set<nat>
    requires Forest(p) && forall o :: o in samples ==> o.request in p
  {
    set o | o in samples :: Root(p, o.request)
  }

  method RequestCount(requests: Requests, samples: seq<Observation>) returns (count: nat)
    requires Forest(requests.parents) && forall o :: o in samples ==> o.request in requests.parents
    modifies requests
    ensures requests.parents == old(requests.parents)
    ensures count == |RootsOf(requests.parents, samples)|
  {
    var roots: set<nat> := {};
    for i := 0 to |samples|
      invariant requests.parents == old(requests.parents)
      invariant forall o :: o in samples[..i] ==> o.request in requests.parents
      invariant roots == RootsOf(requests.parents, samples[..i])
    {
      TakeSnoc(samples, i);
      assert samples[i] in samples;
      var root := requests.RequestRoot(samples[i].request);
      assert RootsOf(requests.parents, samples[..i + 1]) == RootsOf(requests.parents, samples[..i]) + {root};
      roots := roots + {root};
    }
    assert samples[..|samples|] == samples;
    count := |roots|;
  }

  /** One request from each component that the samples touch. */
  ghost predicate Represents(reps: set<nat>, obs: seq<Observation>, samples: seq<Observation>)
  {
    && (forall r :: r in reps ==> Requested(samples, r))
    && (forall r, s :: r in reps && s in reps && r != s ==> !Connected(obs, r, s))
    && (forall o :: o in samples ==> exists r :: r in reps && Connected(obs, o.request, r))
  }

  lemma {:induction false} ApartValues<K, V>(m: map<K, V>)
    requires forall a, b :: a in m && b in m && a != b ==> m[a] != m[b]
    ensures |m.Values| == |m|
    decreases |m|
  {
    if m != map[] {
      var x :| x in m;
      var rest := m - {x};
      assert rest.Keys == m.Keys - {x};
      assert m == rest[x := m[x]];
      assert m.Values == rest.Values + {m[x]} by {
        forall v | v in m.Values ensures v in rest.Values + {m[x]} {
          var k :| k in m && m[k] == v;
          assert k == x || rest[k] == v;
        }
        assert m[x] in m.Values;
        forall v | v in rest.Values ensures v in m.Values {
          var k :| k in rest && rest[k] == v;
          assert m[k] == v;
        }
      }
      assert m[x] !in rest.Values;
      ApartValues(rest);
    }
  }

  /** The representatives' roots. */
  ghost function RepRoots(p: Parents, reps: set<nat>): map<nat, nat>
    requires Forest(p) && forall r :: r in reps ==> r in p
  {
    map r | r in reps :: Root(p, r)
  }

  lemma RepsKnown(p: Parents, seen: Seen, obs: seq<Observation>, samples: seq<Observation>, reps: set<nat>, r: nat)
    requires Agrees(p, seen, obs) && Within(samples, obs) && Represents(reps, obs, samples) && r in reps
    ensures r in p && Requested(obs, r)
  {
    var o :| o in samples && o.request == r;
    assert o in obs;
  }

  lemma EachRootOnce(p: Parents, seen: Seen, obs: seq<Observation>, samples: seq<Observation>, reps: set<nat>, r: nat, s: nat)
    requires Agrees(p, seen, obs) && Within(samples, obs) && Represents(reps, obs, samples)
    requires r in reps && s in reps && r != s
    ensures r in p && s in p && Root(p, r) != Root(p, s)
  {
    RepsKnown(p, seen, obs, samples, reps, r);
    RepsKnown(p, seen, obs, samples, reps, s);
    AgreedRoots(p, seen, obs, r, s);
  }

  lemma EachRootMet(p: Parents, seen: Seen, obs: seq<Observation>, samples: seq<Observation>, reps: set<nat>, o: Observation)
    requires Agrees(p, seen, obs) && Represents(reps, obs, samples) && o in samples && o.request in p
    ensures exists r :: r in reps && r in p && Root(p, r) == Root(p, o.request)
  {
    var r :| r in reps && Connected(obs, o.request, r);
    ConnectedSameTree(p, seen, obs, o.request, r);
  }

  lemma RepValues(p: Parents, samples: seq<Observation>, reps: set<nat>)
    requires Forest(p) && (forall o :: o in samples ==> o.request in p) && (forall r :: r in reps ==> r in p)
    requires forall o :: o in samples ==> exists r :: r in reps && r in p && Root(p, r) == Root(p, o.request)
    requires forall r :: r in reps ==> Requested(samples, r)
    ensures RepRoots(p, reps).Values == RootsOf(p, samples)
  {
    RootsHaveReps(p, samples, reps);
    RepsHaveRoots(p, samples, reps);
  }

  lemma RepsHaveRoots(p: Parents, samples: seq<Observation>, reps: set<nat>)
    requires Forest(p) && (forall o :: o in samples ==> o.request in p) && (forall r :: r in reps ==> r in p)
    requires forall r :: r in reps ==> Requested(samples, r)
    ensures RepRoots(p, reps).Values <= RootsOf(p, samples)
  {
    forall x | x in RepRoots(p, reps).Values
      ensures x in RootsOf(p, samples)
    {
      var m := RepRoots(p, reps);
      var r :| r in m && m[r] == x;
      SampleHasRoot(p, samples, r);
    }
  }

  lemma RootsHaveReps(p: Parents, samples: seq<Observation>, reps: set<nat>)
    requires Forest(p) && (forall o :: o in samples ==> o.request in p) && (forall r :: r in reps ==> r in p)
    requires forall o :: o in samples ==> exists r :: r in reps && r in p && Root(p, r) == Root(p, o.request)
    ensures RootsOf(p, samples) <= RepRoots(p, reps).Values
  {
    forall x | x in RootsOf(p, samples)
      ensures x in RepRoots(p, reps).Values
    {
      var o :| o in samples && Root(p, o.request) == x;
      var r :| r in reps && r in p && Root(p, r) == Root(p, o.request);
      RepHasRoot(p, reps, r);
    }
  }

  lemma RepHasRoot(p: Parents, reps: set<nat>, r: nat)
    requires Forest(p) && r in reps && forall s :: s in reps ==> s in p
    ensures Root(p, r) in RepRoots(p, reps).Values
  {
    assert RepRoots(p, reps)[r] == Root(p, r);
  }

  lemma SampleHasRoot(p: Parents, samples: seq<Observation>, r: nat)
    requires Forest(p) && (forall o :: o in samples ==> o.request in p) && Requested(samples, r)
    ensures r in p && Root(p, r) in RootsOf(p, samples)
  {
    var o :| o in samples && o.request == r;
  }

  lemma AllRepsKnown(p: Parents, seen: Seen, obs: seq<Observation>, samples: seq<Observation>, reps: set<nat>)
    requires Agrees(p, seen, obs) && Within(samples, obs) && Represents(reps, obs, samples)
    ensures forall r :: r in reps ==> r in p
    ensures |RepRoots(p, reps)| == |RepRoots(p, reps).Values|
  {
    forall r | r in reps
      ensures r in p
    {
      RepsKnown(p, seen, obs, samples, reps, r);
    }
    var m := RepRoots(p, reps);
    forall r, s | r in m && s in m && r != s
      ensures m[r] != m[s]
    {
      EachRootOnce(p, seen, obs, samples, reps, r, s);
    }
    ApartValues(m);
  }

  lemma AllRootsMet(p: Parents, seen: Seen, obs: seq<Observation>, samples: seq<Observation>, reps: set<nat>)
    requires Agrees(p, seen, obs) && Represents(reps, obs, samples)
    requires forall o :: o in samples ==> o.request in p
    ensures forall o :: o in samples ==> exists r :: r in reps && r in p && Root(p, r) == Root(p, o.request)
  {
    forall o | o in samples
      ensures exists r :: r in reps && r in p && Root(p, r) == Root(p, o.request)
    {
      EachRootMet(p, seen, obs, samples, reps, o);
    }
  }

  lemma RepRootsSize(p: Parents, reps: set<nat>)
    requires Forest(p) && forall r :: r in reps ==> r in p
    ensures |RepRoots(p, reps)| == |reps|
  {
    assert RepRoots(p, reps).Keys == reps;
  }

  lemma AgreedCount(p: Parents, seen: Seen, obs: seq<Observation>, samples: seq<Observation>, reps: set<nat>)
    requires Agrees(p, seen, obs) && Within(samples, obs) && Represents(reps, obs, samples)
    requires forall o :: o in samples ==> o.request in p
    ensures |RootsOf(p, samples)| == |reps|
  {
    AllRepsKnown(p, seen, obs, samples, reps);
    AllRootsMet(p, seen, obs, samples, reps);
    RepValues(p, samples, reps);
    RepRootsSize(p, reps);
  }

  /** The number reported is the number of components, whichever member stands for each. */
  lemma CountsComponents(obs: seq<Observation>, samples: seq<Observation>, reps: set<nat>)
    requires Within(samples, obs) && Represents(reps, obs, samples)
    ensures forall o :: o in samples ==> o.request in ForestOf(obs)
    ensures |RootsOf(ForestOf(obs), samples)| == |reps|
  {
    ReadAgrees(obs);
    forall o | o in samples
      ensures o.request in ForestOf(obs)
    {
      assert Requested(obs, o.request);
    }
    AgreedCount(ForestOf(obs), SeenOf(obs), obs, samples, reps);
  }
}
