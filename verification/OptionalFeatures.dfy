/**
 Checking that a requirement and everything its extras pull in is installed: a depth-first
 search over package metadata, possibly cyclic, through one shared set of visited keys.
 */
module OptionalFeatures {
  import opened Text

  /** A parsed requirement. `extras` is the set of requested extras in its iteration order. */
  datatype Requirement = Requirement(name: string, specifier: string, extras: seq<string>, marker: Option<string>)

  datatype Distribution = Distribution(version: string, offered: seq<string>, needs: seq<Requirement>)

  /** What the visited set remembers of a requirement: names only, never the version specifier. */
  datatype Key = Key(name: string, extras: multiset<string>)

  /**
   The installed packages, by canonical name, and the operations of the packaging library.
   `markerHolds(marker, extra)` is given the canonical extra: extras are compared in
   normalised form.
   */
  datatype Index = Index(
    dists: map<string, Distribution>,
    canonical: string -> string,
    markerHolds: (string, string) -> bool,
    satisfies: (string, string) -> bool)

  function CanonicalExtras(ix: Index, extras: seq<string>): multiset<string> {
    if extras == [] then multiset{}
    else CanonicalExtras(ix, extras[..|extras| - 1]) + multiset{ix.canonical(extras[|extras| - 1])}
  }

  function KeyOf(ix: Index, req: Requirement): Key {
    Key(ix.canonical(req.name), CanonicalExtras(ix, req.extras))
  }

  /** The requirement applies when it is pulled in through `extra`. */
  predicate Active(ix: Index, req: Requirement, extra: string) {
    req.marker.Some? ==> ix.markerHolds(req.marker.value, ix.canonical(extra))
  }

  predicate Provides(ix: Index, dist: Distribution, extra: string) {
    exists p :: p in dist.offered && ix.canonical(p) == ix.canonical(extra)
  }

  /** The distribution knows the extra, or names no extras but has something to install for it. */
  predicate ExtraKnown(ix: Index, dist: Distribution, extra: string) {
    if dist.offered != [] then Provides(ix, dist, extra)
    else AnyActive(ix, dist.needs, extra)
  }

  predicate AnyActive(ix: Index, needs: seq<Requirement>, extra: string) {
    exists r :: r in needs && Active(ix, r, extra)
  }

  /** Installed, with every requested extra known. This is all that a key determines. */
  predicate NameOk(ix: Index, req: Requirement) {
    && ix.canonical(req.name) in ix.dists
    && forall e :: e in req.extras ==> ExtraKnown(ix, ix.dists[ix.canonical(req.name)], e)
  }

  predicate VersionOk(ix: Index, req: Requirement)
    requires ix.canonical(req.name) in ix.dists
  {
    req.specifier == "" || ix.satisfies(req.specifier, ix.dists[ix.canonical(req.name)].version)
  }

  predicate FullyOk(ix: Index, req: Requirement) {
    NameOk(ix, req) && VersionOk(ix, req)
  }

  /** `child` is pulled in by one of `req`'s requested extras. */
  predicate PullsIn(ix: Index, req: Requirement, child: Requirement) {
    && ix.canonical(req.name) in ix.dists
    && child in ix.dists[ix.canonical(req.name)].needs
    && exists e :: e in req.extras && Active(ix, child, e)
  }

  predicate IsPath(ix: Index, path: seq<Requirement>) {
    path != [] && forall i :: 0 <= i < |path| - 1 ==> PullsIn(ix, path[i], path[i + 1])
  }

  ghost predicate Reachable(ix: Index, root: Requirement, req: Requirement) {
    exists path :: IsPath(ix, path) && path[0] == root && path[|path| - 1] == req
  }

  lemma ReachableSelf(ix: Index, root: Requirement)
    ensures Reachable(ix, root, root)
  {
    assert IsPath(ix, [root]);
  }

  lemma ReachableStep(ix: Index, root: Requirement, child: Requirement, req: Requirement)
    requires PullsIn(ix, root, child) && Reachable(ix, child, req)
    ensures Reachable(ix, root, req)
  {
    var path :| IsPath(ix, path) && path[0] == child && path[|path| - 1] == req;
    var longer := [root] + path;
    forall i | 0 <= i < |longer| - 1
      ensures PullsIn(ix, longer[i], longer[i + 1])
    {
      if i > 0 {
        assert PullsIn(ix, path[i - 1], path[i]);
      }
    }
    assert IsPath(ix, longer);
  }

  // ----- Keys -----

  lemma {:induction false} SameExtras(ix: Index, a: seq<string>, b: seq<string>, e: string) returns (e': string)
    requires CanonicalExtras(ix, a) == CanonicalExtras(ix, b) && e in a
    ensures e' in b && ix.canonical(e') == ix.canonical(e)
  {
    ExtraIsCounted(ix, a, e);
    e' := CountedExtra(ix, b, ix.canonical(e));
  }

  lemma {:induction false} ExtraIsCounted(ix: Index, extras: seq<string>, e: string)
    requires e in extras
    ensures ix.canonical(e) in CanonicalExtras(ix, extras)
  {
    if e != extras[|extras| - 1] {
      assert e in extras[..|extras| - 1];
      ExtraIsCounted(ix, extras[..|extras| - 1], e);
    }
  }

  lemma {:induction false} CountedExtra(ix: Index, extras: seq<string>, c: string) returns (e: string)
    requires c in CanonicalExtras(ix, extras)
    ensures e in extras && ix.canonical(e) == c
  {
    if ix.canonical(extras[|extras| - 1]) == c {
      e := extras[|extras| - 1];
    } else {
      e := CountedExtra(ix, extras[..|extras| - 1], c);
    }
  }

  /** Requirements with one key agree on names, extras and on everything they pull in. */
  lemma KeyDecidesNames(ix: Index, a: Requirement, b: Requirement)
    requires KeyOf(ix, a) == KeyOf(ix, b)
    ensures NameOk(ix, a) ==> NameOk(ix, b)
    ensures forall child :: PullsIn(ix, b, child) ==> PullsIn(ix, a, child)
  {
    if NameOk(ix, a) {
      var dist := ix.dists[ix.canonical(b.name)];
      forall e | e in b.extras
        ensures ExtraKnown(ix, dist, e)
      {
        var e' := SameExtras(ix, b.extras, a.extras, e);
        assert ExtraKnown(ix, dist, e');
        ExtraKnownByCanonical(ix, dist, e', e);
      }
    }
    forall child | PullsIn(ix, b, child)
      ensures PullsIn(ix, a, child)
    {
      var e :| e in b.extras && Active(ix, child, e);
      var e' := SameExtras(ix, b.extras, a.extras, e);
      assert Active(ix, child, e');
    }
  }

  lemma ExtraKnownByCanonical(ix: Index, dist: Distribution, a: string, b: string)
    requires ix.canonical(a) == ix.canonical(b) && ExtraKnown(ix, dist, a)
    ensures ExtraKnown(ix, dist, b)
  {
    if dist.offered != [] {
      var p :| p in dist.offered && ix.canonical(p) == ix.canonical(a);
    } else {
      var r :| r in dist.needs && Active(ix, r, a);
      assert Active(ix, r, b);
    }
  }

  // ----- The search -----

  /** A finite set of keys that holds every requirement in the metadata: what the search can visit. */
  ghost predicate Covers(ix: Index, universe: set<Key>) {
    forall name, r :: name in ix.dists && r in ix.dists[name].needs ==> KeyOf(ix, r) in universe
  }

  ghost predicate AllWithin(ix: Index, needs: seq<Requirement>, universe: set<Key>) {
    forall r :: r in needs ==> KeyOf(ix, r) in universe
  }

  /** What a stretch of the search answers, and the keys it leaves behind. */
  datatype Answer = Answer(ok: bool, seen: set<Key>)

  /** The search below one requirement; each key is visited once, so it ends on cycles too. */
  ghost function Visit(ix: Index, req: Requirement, extra: string, seen: set<Key>, universe: set<Key>): (r: Answer)
    requires Covers(ix, universe) && KeyOf(ix, req) in universe && seen <= universe
    ensures seen <= r.seen <= universe
    decreases universe - seen, 0, 0
  {
    var key := KeyOf(ix, req);
    if !Active(ix, req, extra) || key in seen then Answer(true, seen)
    else if ix.canonical(req.name) !in ix.dists || !VersionOk(ix, req) then Answer(false, seen + {key})
    else VisitExtras(ix, ix.dists[ix.canonical(req.name)], req.extras, seen + {key}, universe)
  }

  ghost function VisitExtras(
      ix: Index, dist: Distribution, extras: seq<string>, seen: set<Key>, universe: set<Key>): (r: Answer)
    requires Covers(ix, universe) && AllWithin(ix, dist.needs, universe) && seen <= universe
    ensures seen <= r.seen <= universe
    decreases universe - seen, 2, |extras|
  {
    if extras == [] then Answer(true, seen)
    else
      var first := VisitExtra(ix, dist, extras[0], seen, universe);
      if first.ok then VisitExtras(ix, dist, extras[1..], first.seen, universe) else first
  }

  ghost function VisitExtra(
      ix: Index, dist: Distribution, requested: string, seen: set<Key>, universe: set<Key>): (r: Answer)
    requires Covers(ix, universe) && AllWithin(ix, dist.needs, universe) && seen <= universe
    ensures seen <= r.seen <= universe
    decreases universe - seen, 1, |dist.needs| + 1
  {
    if dist.offered != [] && !Provides(ix, dist, requested) then Answer(false, seen)
    else
      var all := VisitNeeds(ix, dist.needs, requested, seen, universe);
      Answer(all.ok && (dist.offered != [] || AnyActive(ix, dist.needs, requested)), all.seen)
  }

  ghost function VisitNeeds(
      ix: Index, needs: seq<Requirement>, requested: string, seen: set<Key>, universe: set<Key>): (r: Answer)
    requires Covers(ix, universe) && AllWithin(ix, needs, universe) && seen <= universe
    ensures seen <= r.seen <= universe
    decreases universe - seen, 1, |needs|
  {
    if needs == [] then Answer(true, seen)
    else
      var first := Visit(ix, needs[0], requested, seen, universe);
      if first.ok then VisitNeeds(ix, needs[1..], requested, first.seen, universe) else first
  }

  function MetadataKeys(ix: Index): set<Key> {
    set name, r | name in ix.dists && r in ix.dists[name].needs :: KeyOf(ix, r)
  }

  /** The answer of the whole search. */
  ghost predicate Installed(ix: Index, req: Requirement, extra: string) {
    Visit(ix, req, extra, {}, MetadataKeys(ix) + {KeyOf(ix, req)}).ok
  }

  // ----- The order of names -----

  /** The requirements a walk meets first under their keys, in order, and the keys it leaves behind. */
  datatype Tour = Tour(order: seq<Requirement>, seen: set<Key>)

  /** The same walk without its tests: it looks at names, extras and markers and never stops early. */
  ghost function Walk(ix: Index, req: Requirement, extra: string, seen: set<Key>, universe: set<Key>): (r: Tour)
    requires Covers(ix, universe) && KeyOf(ix, req) in universe && seen <= universe
    ensures seen <= r.seen <= universe
    decreases universe - seen, 0, 0
  {
    var key := KeyOf(ix, req);
    if !Active(ix, req, extra) || key in seen then Tour([], seen)
    else if ix.canonical(req.name) !in ix.dists then Tour([req], seen + {key})
    else
      var below := WalkExtras(ix, ix.dists[ix.canonical(req.name)], req.extras, seen + {key}, universe);
      Tour([req] + below.order, below.seen)
  }

  ghost function WalkExtras(
      ix: Index, dist: Distribution, extras: seq<string>, seen: set<Key>, universe: set<Key>): (r: Tour)
    requires Covers(ix, universe) && AllWithin(ix, dist.needs, universe) && seen <= universe
    ensures seen <= r.seen <= universe
    decreases universe - seen, 2, |extras|
  {
    if extras == [] then Tour([], seen)
    else
      var first := WalkNeeds(ix, dist.needs, extras[0], seen, universe);
      var rest := WalkExtras(ix, dist, extras[1..], first.seen, universe);
      Tour(first.order + rest.order, rest.seen)
  }

  ghost function WalkNeeds(
      ix: Index, needs: seq<Requirement>, requested: string, seen: set<Key>, universe: set<Key>): (r: Tour)
    requires Covers(ix, universe) && AllWithin(ix, needs, universe) && seen <= universe
    ensures seen <= r.seen <= universe
    decreases universe - seen, 1, |needs|
  {
    if needs == [] then Tour([], seen)
    else
      var first := Walk(ix, needs[0], requested, seen, universe);
      var rest := WalkNeeds(ix, needs[1..], requested, first.seen, universe);
      Tour(first.order + rest.order, rest.seen)
  }

  /** Each reachable key's first requirement, in the order the search would meet them. */
  ghost function VisitOrder(ix: Index, req: Requirement, extra: string): seq<Requirement> {
    Walk(ix, req, extra, {}, MetadataKeys(ix) + {KeyOf(ix, req)}).order
  }

  // ----- The search tests exactly what it meets first -----

  ghost predicate AllOk(ix: Index, order: seq<Requirement>) {
    forall v :: v in order ==> FullyOk(ix, v)
  }

  lemma AllOkConcat(ix: Index, a: seq<Requirement>, b: seq<Requirement>)
    ensures AllOk(ix, a + b) <==> AllOk(ix, a) && AllOk(ix, b)
  {
    forall v
      ensures v in a + b <==> v in a || v in b
    {
    }
  }

  ghost predicate AllKnown(ix: Index, dist: Distribution, extras: seq<string>) {
    forall e :: e in extras ==> ExtraKnown(ix, dist, e)
  }

  /** A stretch of the search succeeds exactly when `good` holds, and then leaves the keys of the walk. */
  ghost predicate Follows(a: Answer, t: Tour, good: bool) {
    (a.ok <==> good) && (a.ok ==> a.seen == t.seen)
  }

  lemma {:induction false} VisitFollowsWalk(
      ix: Index, req: Requirement, extra: string, seen: set<Key>, universe: set<Key>)
    requires Covers(ix, universe) && KeyOf(ix, req) in universe && seen <= universe
    ensures var t := Walk(ix, req, extra, seen, universe);
            Follows(Visit(ix, req, extra, seen, universe), t, AllOk(ix, t.order))
    decreases universe - seen, 0, 0
  {
    var key, name := KeyOf(ix, req), ix.canonical(req.name);
    if Active(ix, req, extra) && key !in seen {
      if name in ix.dists {
        var dist := ix.dists[name];
        var below := WalkExtras(ix, dist, req.extras, seen + {key}, universe);
        VisitExtrasFollows(ix, dist, req.extras, seen + {key}, universe);
        AllOkConcat(ix, [req], below.order);
        assert req in [req];
        assert FullyOk(ix, req) <==> VersionOk(ix, req) && AllKnown(ix, dist, req.extras);
      } else {
        assert req in [req] && !FullyOk(ix, req);
      }
    }
  }

  lemma {:induction false} VisitExtrasFollows(
      ix: Index, dist: Distribution, extras: seq<string>, seen: set<Key>, universe: set<Key>)
    requires Covers(ix, universe) && AllWithin(ix, dist.needs, universe) && seen <= universe
    ensures var t := WalkExtras(ix, dist, extras, seen, universe);
            Follows(VisitExtras(ix, dist, extras, seen, universe), t, AllKnown(ix, dist, extras) && AllOk(ix, t.order))
    decreases universe - seen, 2, |extras|
  {
    if extras != [] {
      var first := WalkNeeds(ix, dist.needs, extras[0], seen, universe);
      VisitNeedsFollows(ix, dist.needs, extras[0], seen, universe);
      VisitExtrasFollows(ix, dist, extras[1..], first.seen, universe);
      AllOkConcat(ix, first.order, WalkExtras(ix, dist, extras[1..], first.seen, universe).order);
      assert extras == [extras[0]] + extras[1..];
      assert AllKnown(ix, dist, extras) <==> ExtraKnown(ix, dist, extras[0]) && AllKnown(ix, dist, extras[1..]);
    }
  }

  lemma {:induction false} VisitNeedsFollows(
      ix: Index, needs: seq<Requirement>, requested: string, seen: set<Key>, universe: set<Key>)
    requires Covers(ix, universe) && AllWithin(ix, needs, universe) && seen <= universe
    ensures var t := WalkNeeds(ix, needs, requested, seen, universe);
            Follows(VisitNeeds(ix, needs, requested, seen, universe), t, AllOk(ix, t.order))
    decreases universe - seen, 1, |needs|
  {
    if needs != [] {
      var first := Walk(ix, needs[0], requested, seen, universe);
      VisitFollowsWalk(ix, needs[0], requested, seen, universe);
      VisitNeedsFollows(ix, needs[1..], requested, first.seen, universe);
      AllOkConcat(ix, first.order, WalkNeeds(ix, needs[1..], requested, first.seen, universe).order);
    }
  }

  // ----- What the walk meets -----

  ghost predicate ChildrenSeen(ix: Index, v: Requirement, seen: set<Key>) {
    forall child :: PullsIn(ix, v, child) ==> KeyOf(ix, child) in seen
  }

  /**
   A stretch of the walk below `root`: each requirement met is reachable and has its children's keys
   seen, and every key added since `before` belongs to one of them.
   */
  ghost predicate Toured(ix: Index, root: Requirement, order: seq<Requirement>, before: set<Key>, seen: set<Key>) {
    && (forall v :: v in order ==> Reachable(ix, root, v) && ChildrenSeen(ix, v, seen))
    && (forall key :: key in seen && key !in before ==> Represented(ix, order, key))
  }

  ghost predicate Represented(ix: Index, order: seq<Requirement>, key: Key) {
    exists v :: v in order && KeyOf(ix, v) == key
  }

  lemma RepresentedInMore(ix: Index, some: seq<Requirement>, all: seq<Requirement>, key: Key)
    requires Represented(ix, some, key) && forall v :: v in some ==> v in all
    ensures Represented(ix, all, key)
  {
    var v :| v in some && KeyOf(ix, v) == key;
    assert v in all;
  }

  /** Two consecutive stretches make one. */
  lemma TouredOn(ix: Index, root: Requirement, a: seq<Requirement>, b: seq<Requirement>,
                 before: set<Key>, mid: set<Key>, seen: set<Key>)
    requires Toured(ix, root, a, before, mid) && Toured(ix, root, b, mid, seen) && mid <= seen
    ensures Toured(ix, root, a + b, before, seen)
  {
    forall v | v in a + b
      ensures Reachable(ix, root, v) && ChildrenSeen(ix, v, seen)
    {
      if v in a {
        assert ChildrenSeen(ix, v, mid);
      }
    }
    forall key | key in seen && key !in before
      ensures Represented(ix, a + b, key)
    {
      if key in mid {
        RepresentedInMore(ix, a, a + b, key);
      } else {
        RepresentedInMore(ix, b, a + b, key);
      }
    }
  }

  /** What was met below a pulled-in requirement was met below its owner. */
  lemma TouredBelow(
      ix: Index, owner: Requirement, req: Requirement, order: seq<Requirement>, before: set<Key>, seen: set<Key>)
    requires PullsIn(ix, owner, req) && Toured(ix, req, order, before, seen)
    ensures Toured(ix, owner, order, before, seen)
  {
    forall v | v in order
      ensures Reachable(ix, owner, v)
    {
      ReachableStep(ix, owner, req, v);
    }
  }

  /** The requirement itself closes the stretch of its own extras. */
  lemma TouredWithRoot(ix: Index, root: Requirement, order: seq<Requirement>, before: set<Key>, seen: set<Key>)
    requires Toured(ix, root, order, before + {KeyOf(ix, root)}, seen) && ChildrenSeen(ix, root, seen)
    ensures Toured(ix, root, [root] + order, before, seen)
  {
    ReachableSelf(ix, root);
    forall key | key in seen && key !in before
      ensures Represented(ix, [root] + order, key)
    {
      if key == KeyOf(ix, root) {
        assert root in [root] + order;
      } else {
        RepresentedInMore(ix, order, [root] + order, key);
      }
    }
  }

  ghost predicate ActiveSeen(ix: Index, needs: seq<Requirement>, extra: string, seen: set<Key>) {
    forall r :: r in needs && Active(ix, r, extra) ==> KeyOf(ix, r) in seen
  }

  /** `dist` is what `owner` is installed as, and `extras` are among those it asks for. */
  ghost predicate Owns(ix: Index, owner: Requirement, dist: Distribution, extras: seq<string>) {
    && ix.canonical(owner.name) in ix.dists && dist == ix.dists[ix.canonical(owner.name)]
    && forall e :: e in extras ==> e in owner.extras
  }

  lemma {:induction false} WalkIsToured(ix: Index, req: Requirement, extra: string, seen: set<Key>, universe: set<Key>)
    requires Covers(ix, universe) && KeyOf(ix, req) in universe && seen <= universe
    ensures var t := Walk(ix, req, extra, seen, universe);
            Toured(ix, req, t.order, seen, t.seen) && (Active(ix, req, extra) ==> KeyOf(ix, req) in t.seen)
    decreases universe - seen, 0, 0
  {
    var key, name := KeyOf(ix, req), ix.canonical(req.name);
    if Active(ix, req, extra) && key !in seen {
      if name in ix.dists {
        var dist := ix.dists[name];
        var below := WalkExtras(ix, dist, req.extras, seen + {key}, universe);
        WalkExtrasIsToured(ix, req, dist, req.extras, seen + {key}, universe);
        assert ChildrenSeen(ix, req, below.seen);
        TouredWithRoot(ix, req, below.order, seen, below.seen);
      } else {
        TouredWithRoot(ix, req, [], seen, seen + {key});
        assert [req] + [] == [req];
      }
    }
  }

  lemma {:induction false} WalkExtrasIsToured(ix: Index, owner: Requirement, dist: Distribution, extras: seq<string>,
                                              seen: set<Key>, universe: set<Key>)
    requires Covers(ix, universe) && AllWithin(ix, dist.needs, universe) && seen <= universe &&
        Owns(ix, owner, dist, extras)
    ensures var t := WalkExtras(ix, dist, extras, seen, universe);
            && Toured(ix, owner, t.order, seen, t.seen)
            && forall e :: e in extras ==> ActiveSeen(ix, dist.needs, e, t.seen)
    decreases universe - seen, 2, |extras|
  {
    if extras != [] {
      var first := WalkNeeds(ix, dist.needs, extras[0], seen, universe);
      var rest := WalkExtras(ix, dist, extras[1..], first.seen, universe);
      WalkNeedsIsToured(ix, owner, dist, dist.needs, extras[0], seen, universe);
      WalkExtrasIsToured(ix, owner, dist, extras[1..], first.seen, universe);
      TouredOn(ix, owner, first.order, rest.order, seen, first.seen, rest.seen);
      assert extras == [extras[0]] + extras[1..];
    }
  }

  lemma {:induction false} WalkNeedsIsToured(ix: Index, owner: Requirement, dist: Distribution, needs: seq<Requirement>,
                                             requested: string, seen: set<Key>, universe: set<Key>)
    requires Covers(ix, universe) && AllWithin(ix, needs, universe) && seen <= universe
    requires Owns(ix, owner, dist, [requested]) && forall r :: r in needs ==> r in dist.needs
    ensures var t := WalkNeeds(ix, needs, requested, seen, universe);
            Toured(ix, owner, t.order, seen, t.seen) && ActiveSeen(ix, needs, requested, t.seen)
    decreases universe - seen, 1, |needs|
  {
    if needs != [] {
      var first := Walk(ix, needs[0], requested, seen, universe);
      var rest := WalkNeeds(ix, needs[1..], requested, first.seen, universe);
      WalkIsToured(ix, needs[0], requested, seen, universe);
      WalkNeedsIsToured(ix, owner, dist, needs[1..], requested, first.seen, universe);
      if Active(ix, needs[0], requested) {
        assert requested in [requested];
        assert PullsIn(ix, owner, needs[0]);
        TouredBelow(ix, owner, needs[0], first.order, seen, first.seen);
      }
      TouredOn(ix, owner, first.order, rest.order, seen, first.seen, rest.seen);
      assert needs == [needs[0]] + needs[1..];
    }
  }

  /** Whatever is reachable has its key seen. */
  lemma {:induction false} ReachedKeysAreSeen(ix: Index, root: Requirement, order: seq<Requirement>,
                                              seen: set<Key>, path: seq<Requirement>)
    requires Toured(ix, root, order, {}, seen) && KeyOf(ix, root) in seen
    requires IsPath(ix, path) && path[0] == root
    ensures KeyOf(ix, path[|path| - 1]) in seen
  {
    if |path| > 1 {
      var shorter := path[..|path| - 1];
      forall i | 0 <= i < |shorter| - 1
        ensures PullsIn(ix, shorter[i], shorter[i + 1])
      {
        assert PullsIn(ix, path[i], path[i + 1]);
      }
      ReachedKeysAreSeen(ix, root, order, seen, shorter);
      var last, child := path[|path| - 2], path[|path| - 1];
      assert Represented(ix, order, KeyOf(ix, last));
      var v :| v in order && KeyOf(ix, v) == KeyOf(ix, last);
      assert PullsIn(ix, last, child);
      KeyDecidesNames(ix, v, last);
      assert ChildrenSeen(ix, v, seen);
    }
  }

  /** The visit order holds reachable requirements only, and one for every reachable key. */
  lemma VisitOrderIsComplete(ix: Index, req: Requirement, extra: string)
    requires Active(ix, req, extra)
    ensures forall v :: v in VisitOrder(ix, req, extra) ==> Reachable(ix, req, v)
    ensures forall r :: Reachable(ix, req, r) ==> Represented(ix, VisitOrder(ix, req, extra), KeyOf(ix, r))
  {
    var universe := MetadataKeys(ix) + {KeyOf(ix, req)};
    var t := Walk(ix, req, extra, {}, universe);
    WalkIsToured(ix, req, extra, {}, universe);
    forall r | Reachable(ix, req, r)
      ensures Represented(ix, t.order, KeyOf(ix, r))
    {
      var path :| IsPath(ix, path) && path[0] == req && path[|path| - 1] == r;
      ReachedKeysAreSeen(ix, req, t.order, t.seen, path);
    }
  }

  // ----- What the answer means -----

  /** The search answers yes exactly when everything it meets first under its key is satisfied. */
  lemma InstalledIff(ix: Index, req: Requirement, extra: string)
    ensures Installed(ix, req, extra) <==> AllOk(ix, VisitOrder(ix, req, extra))
  {
    VisitFollowsWalk(ix, req, extra, {}, MetadataKeys(ix) + {KeyOf(ix, req)});
  }

  ghost predicate AllReachableOk(ix: Index, root: Requirement) {
    forall r :: Reachable(ix, root, r) ==> FullyOk(ix, r)
  }

  predicate Meets(ix: Index, req: Requirement) {
    ix.canonical(req.name) in ix.dists && VersionOk(ix, req)
  }

  /** Reachable requirements with one key are met together or missed together: then the keys forget nothing. */
  ghost predicate VersionsAgree(ix: Index, root: Requirement) {
    forall a, b :: Reachable(ix, root, a) && Reachable(ix, root, b) && KeyOf(ix, a) == KeyOf(ix, b) ==>
      (Meets(ix, a) <==> Meets(ix, b))
  }

  /** A yes is right about names and extras, always; a no has a reachable culprit. */
  lemma AnswerIsRightAboutNames(ix: Index, req: Requirement, extra: string)
    ensures Active(ix, req, extra) && Installed(ix, req, extra) ==> forall r :: Reachable(ix, req, r) ==> NameOk(ix, r)
    ensures !Installed(ix, req, extra) ==> Active(ix, req, extra) && !AllReachableOk(ix, req)
  {
    InstalledIff(ix, req, extra);
    var order := VisitOrder(ix, req, extra);
    if Active(ix, req, extra) {
      VisitOrderIsComplete(ix, req, extra);
      if AllOk(ix, order) {
        forall r | Reachable(ix, req, r)
          ensures NameOk(ix, r)
        {
          assert Represented(ix, order, KeyOf(ix, r));
          var v :| v in order && KeyOf(ix, v) == KeyOf(ix, r);
          KeyDecidesNames(ix, v, r);
        }
      }
    }
  }

  /** A requirement is satisfied when another one with its key is, and both meet their versions or neither does. */
  lemma SatisfiedLikeItsKey(ix: Index, v: Requirement, r: Requirement)
    requires KeyOf(ix, v) == KeyOf(ix, r) && FullyOk(ix, v) && (Meets(ix, v) <==> Meets(ix, r))
    ensures FullyOk(ix, r)
  {
    KeyDecidesNames(ix, v, r);
  }

  /** With everything met first satisfied, all that is reachable is satisfied exactly when versions agree. */
  lemma RightExactlyWhenVersionsAgree(ix: Index, req: Requirement, extra: string)
    requires Active(ix, req, extra) && AllOk(ix, VisitOrder(ix, req, extra))
    ensures AllReachableOk(ix, req) <==> VersionsAgree(ix, req)
  {
    hide VisitOrder, FullyOk, Meets, Active, KeyOf, Reachable;
    var order := VisitOrder(ix, req, extra);
    VisitOrderIsComplete(ix, req, extra);
    if VersionsAgree(ix, req) {
      forall r | Reachable(ix, req, r)
        ensures FullyOk(ix, r)
      {
        assert Represented(ix, order, KeyOf(ix, r));
        var v :| v in order && KeyOf(ix, v) == KeyOf(ix, r);
        SatisfiedLikeItsKey(ix, v, r);
      }
    }
    if AllReachableOk(ix, req) {
      SatisfiedVersionsAgree(ix, req);
    }
  }

  lemma SatisfiedVersionsAgree(ix: Index, req: Requirement)
    requires AllReachableOk(ix, req)
    ensures VersionsAgree(ix, req)
  {
    forall a, b | Reachable(ix, req, a) && Reachable(ix, req, b) && KeyOf(ix, a) == KeyOf(ix, b)
      ensures Meets(ix, a) <==> Meets(ix, b)
    {
      assert FullyOk(ix, a) && FullyOk(ix, b);
    }
  }

  /**
   The answer is whether all that is reachable is satisfied, versions included, if and only if
   versions agree under every key or something met first is not satisfied.
   */
  lemma AnswerIsRightIff(ix: Index, req: Requirement, extra: string)
    requires Active(ix, req, extra)
    ensures (Installed(ix, req, extra) <==> AllReachableOk(ix, req)) <==>
              VersionsAgree(ix, req) || !AllOk(ix, VisitOrder(ix, req, extra))
  {
    InstalledIff(ix, req, extra);
    AnswerIsRightAboutNames(ix, req, extra);
    if AllOk(ix, VisitOrder(ix, req, extra)) {
      RightExactlyWhenVersionsAgree(ix, req, extra);
    }
  }

  // ----- Single requirements -----

  /** A requirement without a marker applies always, one with a marker when it holds for the normalised extra. */
  ghost predicate Applies(ix: Index, req: Requirement, extra: string) {
    req.marker == None || (req.marker.Some? && ix.markerHolds(req.marker.value, ix.canonical(extra)))
  }

  ghost predicate VersionFits(ix: Index, req: Requirement) {
    && ix.canonical(req.name) in ix.dists
    && (req.specifier == "" || ix.satisfies(req.specifier, ix.dists[ix.canonical(req.name)].version))
  }

  ghost predicate Offers(ix: Index, dist: Distribution, extra: string) {
    exists p :: p in dist.offered && ix.canonical(p) == ix.canonical(extra)
  }

  lemma {:induction false} NoNeedsNoWalk(
      ix: Index, dist: Distribution, extras: seq<string>, seen: set<Key>, universe: set<Key>)
    requires Covers(ix, universe) && AllWithin(ix, dist.needs, universe) && seen <= universe && dist.needs == []
    ensures WalkExtras(ix, dist, extras, seen, universe).order == []
    decreases |extras|
  {
    if extras != [] {
      NoNeedsNoWalk(ix, dist, extras[1..], seen, universe);
    }
  }

  /**
   A package that needs nothing: the requirement is installed exactly when it does not apply, or the package
   is there with a fitting version and offers every requested extra.
   */
  lemma LeafIsInstalledIff(ix: Index, req: Requirement, extra: string)
    requires ix.canonical(req.name) in ix.dists ==> ix.dists[ix.canonical(req.name)].needs == []
    ensures Installed(ix, req, extra) <==>
              || !Applies(ix, req, extra)
              || (VersionFits(ix, req) &&
                  forall e :: e in req.extras ==> Offers(ix, ix.dists[ix.canonical(req.name)], e))
  {
    InstalledIff(ix, req, extra);
    if Active(ix, req, extra) && ix.canonical(req.name) in ix.dists {
      var universe := MetadataKeys(ix) + {KeyOf(ix, req)};
      var seen: set<Key> := {};
      NoNeedsNoWalk(ix, ix.dists[ix.canonical(req.name)], req.extras, seen + {KeyOf(ix, req)}, universe);
      assert VisitOrder(ix, req, extra) == [req];
    }
    if Active(ix, req, extra) {
      assert req in VisitOrder(ix, req, extra);
    }
  }

  /** A requested extra that is neither offered nor, where nothing is offered, needed for anything, is missing. */
  lemma UnknownExtraIsMissing(ix: Index, req: Requirement, extra: string, e: string)
    requires Applies(ix, req, extra) && e in req.extras && ix.canonical(req.name) in ix.dists
    requires var dist := ix.dists[ix.canonical(req.name)];
             !Offers(ix, dist, e) && (dist.offered == [] ==> forall n :: n in dist.needs ==> !Applies(ix, n, e))
    ensures !Installed(ix, req, extra)
  {
    InstalledIff(ix, req, extra);
    assert req in VisitOrder(ix, req, extra);
  }

  /** Whatever a requested extra needs must be there: a need that applies and is not installed fails the search. */
  lemma MissingNeedFails(ix: Index, req: Requirement, extra: string, e: string, need: Requirement)
    requires Applies(ix, req, extra) && e in req.extras && ix.canonical(req.name) in ix.dists
    requires need in ix.dists[ix.canonical(req.name)].needs && Applies(ix, need, e)
    requires ix.canonical(need.name) !in ix.dists
    ensures !Installed(ix, req, extra)
  {
    AnswerIsRightAboutNames(ix, req, extra);
    assert PullsIn(ix, req, need);
    assert IsPath(ix, [req, need]);
    assert [req, need][0] == req && [req, need][1] == need;
    assert Reachable(ix, req, need);
  }

  // ----- The functions of the program -----

  class SeenSet {
    var keys: set<Key>

    constructor ()
      ensures keys == {}
    {
      keys := {};
    }
  }

  method RequirementInstalledRec(ix: Index, req: Requirement, extra: string, seen: SeenSet, ghost universe: set<Key>)
    returns (ok: bool)
    requires Covers(ix, universe) && KeyOf(ix, req) in universe && seen.keys <= universe
    modifies seen
    ensures old(seen.keys) <= seen.keys <= universe
    ensures Answer(ok, seen.keys) == Visit(ix, req, extra, old(seen.keys), universe)
    decreases universe - seen.keys, 0
  {
    if !Active(ix, req, extra) {
      return true;
    }
    var key := KeyOf(ix, req);
    if key in seen.keys {
      return true;
    }
    ghost var before := seen.keys;
    seen.keys := seen.keys + {key};
    if ix.canonical(req.name) !in ix.dists {
      return false;
    }
    var dist := ix.dists[ix.canonical(req.name)];
    if req.specifier != "" && !ix.satisfies(req.specifier, dist.version) {
      return false;
    }
    for i := 0 to |req.extras|
      invariant before + {key} <= seen.keys <= universe
      invariant VisitExtras(ix, dist, req.extras[i..], seen.keys, universe) ==
                VisitExtras(ix, dist, req.extras, before + {key}, universe)
    {
      assert req.extras[i..][1..] == req.extras[i + 1..];
      ok := ExtraDependenciesInstalled(ix, dist, req.extras[i], seen, universe);
      if !ok {
        return false;
      }
    }
    return true;
  }

  method ExtraDependenciesInstalled(
      ix: Index, dist: Distribution, requested: string, seen: SeenSet, ghost universe: set<Key>)
    returns (ok: bool)
    requires Covers(ix, universe) && AllWithin(ix, dist.needs, universe) && seen.keys <= universe
    modifies seen
    ensures old(seen.keys) <= seen.keys <= universe
    ensures Answer(ok, seen.keys) == VisitExtra(ix, dist, requested, old(seen.keys), universe)
    decreases universe - seen.keys, 1
  {
    var normalized := ix.canonical(requested);
    var provided := set p | p in dist.offered :: ix.canonical(p);
    if dist.offered != [] && normalized !in provided {
      return false;
    }
    ghost var before := seen.keys;
    var matched := false;
    for i := 0 to |dist.needs|
      invariant before <= seen.keys <= universe
      invariant matched <==> AnyActive(ix, dist.needs[..i], requested)
      invariant VisitNeeds(ix, dist.needs[i..], requested, seen.keys, universe) ==
                VisitNeeds(ix, dist.needs, requested, before, universe)
    {
      var req := dist.needs[i];
      assert dist.needs[i..][1..] == dist.needs[i + 1..];
      OneMoreNeed(ix, dist.needs, i, requested);
      if !Active(ix, req, requested) {
        continue;
      }
      matched := true;
      ok := RequirementInstalledRec(ix, req, requested, seen, universe);
      if !ok {
        return false;
      }
    }
    assert dist.needs[..|dist.needs|] == dist.needs;
    ok := matched || dist.offered != [];
  }

  lemma OneMoreNeed(ix: Index, needs: seq<Requirement>, i: nat, extra: string)
    requires i < |needs|
    ensures AnyActive(ix, needs[..i + 1], extra) <==> AnyActive(ix, needs[..i], extra) || Active(ix, needs[i], extra)
  {
    assert needs[..i + 1] == needs[..i] + [needs[i]];
    if AnyActive(ix, needs[..i], extra) {
      var r :| r in needs[..i] && Active(ix, r, extra);
      assert r in needs[..i + 1];
    }
    assert needs[i] in needs[..i + 1];
  }

  /**
   Terminates on every index. True means every reachable requirement is installed under its
   name with its extras known; False means some reachable requirement is missing, has the
   wrong version or asks for an unknown extra. The answer is exact, versions included, if and
   only if versions agree under every key or something met first is not satisfied.
   */
  method RequirementInstalled(ix: Index, req: Requirement, extra: string) returns (ok: bool)
    ensures ok <==> Installed(ix, req, extra)
    ensures ok <==> AllOk(ix, VisitOrder(ix, req, extra))
    ensures !Active(ix, req, extra) ==> ok
    ensures Active(ix, req, extra) && ok ==> forall r :: Reachable(ix, req, r) ==> NameOk(ix, r)
    ensures !ok ==> exists r :: Reachable(ix, req, r) && !FullyOk(ix, r)
    ensures Active(ix, req, extra) ==>
              ((ok <==> AllReachableOk(ix, req)) <==> VersionsAgree(ix, req) || !AllOk(ix, VisitOrder(ix, req, extra)))
  {
    var seen := new SeenSet();
    ok := RequirementInstalledRec(ix, req, extra, seen, MetadataKeys(ix) + {KeyOf(ix, req)});
    InstalledIff(ix, req, extra);
    AnswerIsRightAboutNames(ix, req, extra);
    if Active(ix, req, extra) {
      AnswerIsRightIff(ix, req, extra);
    }
  }

  /** Every dependency that applies to the extra is satisfied with all it reaches. */
  ghost predicate DependencyOk(ix: Index, extra: string, d: Requirement) {
    Active(ix, d, extra) ==> AllReachableOk(ix, d)
  }

  ghost predicate DependencyAgrees(ix: Index, extra: string, d: Requirement) {
    Active(ix, d, extra) ==> VersionsAgree(ix, d)
  }

  /**
   All requirements of an extra, each searched from scratch; an extra without a dependency list
   counts as installed.
   */
  method ExtraInstalled(ix: Index, extra: string, deps: Option<seq<Requirement>>) returns (ok: bool)
    ensures deps.None? ==> ok
    ensures deps.Some? ==> (ok <==> forall d :: d in deps.value ==> AllOk(ix, VisitOrder(ix, d, extra)))
    ensures deps.Some? && ok ==>
              forall d, r :: d in deps.value && Active(ix, d, extra) && Reachable(ix, d, r) ==> NameOk(ix, r)
    ensures !ok ==> exists d, r :: d in deps.value && Active(ix, d, extra) && Reachable(ix, d, r) && !FullyOk(ix, r)
    ensures deps.Some? ==>
              ((ok <==> forall d :: d in deps.value ==> DependencyOk(ix, extra, d)) <==>
                 !ok || forall d :: d in deps.value ==> DependencyAgrees(ix, extra, d))
  {
    if deps.None? {
      return true;
    }
    for i := 0 to |deps.value|
      invariant forall j :: 0 <= j < i ==> AllOk(ix, VisitOrder(ix, deps.value[j], extra))
    {
      ok := RequirementInstalled(ix, deps.value[i], extra);
      if !ok {
        AnswerIsRightAboutNames(ix, deps.value[i], extra);
        InstalledIff(ix, deps.value[i], extra);
        assert deps.value[i] in deps.value && !DependencyOk(ix, extra, deps.value[i]);
        return false;
      }
    }
    ok := true;
    forall d | d in deps.value
      ensures AllOk(ix, VisitOrder(ix, d, extra))
      ensures Active(ix, d, extra) ==> forall r :: Reachable(ix, d, r) ==> NameOk(ix, r)
      ensures DependencyOk(ix, extra, d) <==> DependencyAgrees(ix, extra, d)
    {
      InstalledIff(ix, d, extra);
      AnswerIsRightAboutNames(ix, d, extra);
      if Active(ix, d, extra) {
        RightExactlyWhenVersionsAgree(ix, d, extra);
      }
    }
  }

  // ----- What the visited keys forget -----

  /** Every version satisfies a specifier that equals it, and only that one. */
  function ExactVersions(dists: map<string, Distribution>): Index {
    Index(dists, s => s, (m, e) => m == e, (spec, version) => spec == version)
  }

  /**
   Keys do not record version specifiers: a key met once satisfied is not looked at again, so a
   cycle can hide a reachable requirement with the wrong version from a search that answers yes.
   */
  lemma WrongVersionCanHide()
    ensures var again := Requirement("a", "2", ["x"], None);
            var root := Requirement("a", "1", ["x"], None);
            var ix := ExactVersions(map["a" := Distribution("1", [], [again])]);
            && Installed(ix, root, "") && Active(ix, root, "")
            && Reachable(ix, root, again) && !FullyOk(ix, again) && !VersionsAgree(ix, root)
  {
    var again := Requirement("a", "2", ["x"], None);
    var root := Requirement("a", "1", ["x"], None);
    var ix := ExactVersions(map["a" := Distribution("1", [], [again])]);
    var dist := ix.dists["a"];
    var key := KeyOf(ix, root);
    var universe := MetadataKeys(ix) + {key};
    assert "x" in root.extras && again in dist.needs && Active(ix, again, "x");
    assert PullsIn(ix, root, again);
    assert IsPath(ix, [root, again]);
    ReachableSelf(ix, root);
    assert KeyOf(ix, again) == key && Reachable(ix, root, again);
    assert Meets(ix, root) && !Meets(ix, again);
    assert VisitNeeds(ix, [again], "x", {key}, universe) == Answer(true, {key}) by {
      assert [again][1..] == [];
      assert VisitNeeds(ix, [], "x", {key}, universe) == Answer(true, {key});
    }
    assert VisitExtra(ix, dist, "x", {key}, universe) == Answer(true, {key});
    assert VisitExtras(ix, dist, ["x"], {key}, universe) == Answer(true, {key}) by {
      assert ["x"][1..] == [];
    }
    assert {} + {key} == {key};
  }
}
