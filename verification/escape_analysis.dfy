/** The join of the escape analysis: cleanup functions are united per object, and
    the alias partitions are joined. */
module EscapeAnalysis {
  /** Identifiers are interned strings, that is, numbers. */
  type Id = nat

  /** A union-find structure, flattened: every known identifier maps to the root
      of its set; an identifier that is not known is alone. */
  type Partition = map<Id, Id>

  function Root(p: Partition, x: Id): Id {
    if x in p then p[x] else x
  }

  predicate SameSet(p: Partition, x: Id, y: Id) {
    Root(p, x) == Root(p, y)
  }

  ghost predicate ValidPartition(p: Partition) {
    forall x :: x in p ==> p[x] in p && p[p[x]] == p[x]
  }

  /** Merge the sets of `x` and `y`, adding both to the structure. */
  function MakeUnion(p: Partition, x: Id, y: Id): (r: Partition)
    requires ValidPartition(p)
    ensures ValidPartition(r) && r.Keys == p.Keys + {x, y}
  {
    var from, to := Root(p, x), Root(p, y);
    map z | z in p.Keys + {x, y} :: if Root(p, z) == from then to else Root(p, z)
  }

  ghost predicate Equivalence(r: (Id, Id) -> bool) {
    (forall x :: r(x, x)) && (forall x, y :: r(x, y) ==> r(y, x)) && (forall x, y, z :: r(x, y) && r(y, z) ==> r(x, z))
  }

  /** `r` relates everything that the partition puts together. */
  ghost predicate Contains(r: (Id, Id) -> bool, p: Partition) {
    forall x, y :: SameSet(p, x, y) ==> r(x, y)
  }

  /** The union puts together what `p` does, `x` and `y`, and what follows from
      that. */
  lemma UnionIsLeast(p: Partition, x: Id, y: Id, r: (Id, Id) -> bool)
    requires ValidPartition(p)
    ensures SameSet(MakeUnion(p, x, y), x, y)
    ensures forall a, b :: SameSet(p, a, b) ==> SameSet(MakeUnion(p, x, y), a, b)
    ensures Equivalence(r) && Contains(r, p) && r(x, y) ==> Contains(r, MakeUnion(p, x, y))
  {
    var q := MakeUnion(p, x, y);
    forall a ensures Root(q, a) == if Root(p, a) == Root(p, x) then Root(p, y) else Root(p, a) {
      UnionRoot(p, x, y, a);
    }
    if Equivalence(r) && Contains(r, p) && r(x, y) {
      forall a, b | SameSet(q, a, b) ensures r(a, b) {
        RelatedByUnion(p, x, y, r, a, b);
      }
    }
  }

  lemma UnionRoot(p: Partition, x: Id, y: Id, a: Id)
    requires ValidPartition(p)
    ensures Root(MakeUnion(p, x, y), a) == if Root(p, a) == Root(p, x) then Root(p, y) else Root(p, a)
  {
  }

  lemma RelatedByUnion(p: Partition, x: Id, y: Id, r: (Id, Id) -> bool, a: Id, b: Id)
    requires ValidPartition(p) && Equivalence(r) && Contains(r, p) && r(x, y)
    requires SameSet(MakeUnion(p, x, y), a, b)
    ensures r(a, b)
  {
    UnionRoot(p, x, y, a);
    UnionRoot(p, x, y, b);
    if !SameSet(p, a, b) {
      if SameSet(p, a, x) {
        assert r(a, x) && r(x, y);
        assert SameSet(p, y, b) && r(y, b);
      } else {
        assert SameSet(p, b, x) && SameSet(p, a, y);
        assert r(b, x) && r(x, y) && r(y, a);
      }
    }
  }

  /** `p` is the join of the partitions `a` and `b`: the finest partition that
      puts together whatever either of them does. */
  ghost predicate IsJoin(p: Partition, a: Partition, b: Partition) {
    && (forall x, y :: SameSet(a, x, y) ==> SameSet(p, x, y))
    && (forall x, y :: SameSet(b, x, y) ==> SameSet(p, x, y))
    && (forall r :: Equivalence(r) && Contains(r, a) && Contains(r, b) ==> Contains(r, p))
  }

  type Cleanups = map<Id, set<Id>>

  function CleanupsOf(c: Cleanups, x: Id): set<Id> {
    if x in c then c[x] else {}
  }

  class EscapeDomain {
    var isBottom: bool
    var cleanups: Cleanups
    var aliases: Partition

    /** Join another state into this one; say whether anything changed. */
    method Merge(bCleanups: Cleanups, bAliases: Partition) returns (changed: bool)
      requires ValidPartition(aliases) && ValidPartition(bAliases)
      modifies this
      ensures !isBottom && ValidPartition(aliases) && IsJoin(aliases, old(aliases), bAliases)
      ensures forall x :: CleanupsOf(cleanups, x) == CleanupsOf(old(cleanups), x) + CleanupsOf(bCleanups, x)
      ensures forall x :: x in cleanups ==> cleanups[x] != {}
      ensures changed <==>
              || old(isBottom)
              || (exists x :: CleanupsOf(cleanups, x) != CleanupsOf(old(cleanups), x))
              || (exists x, y :: SameSet(aliases, x, y) != SameSet(old(aliases), x, y))
    {
      hide IsJoin;
      var more := MergeCleanups(bCleanups);
      var united := MergeAliases(bAliases);
      changed := isBottom || more || united;
      isBottom := false;
    }

    method MergeCleanups(bCleanups: Cleanups) returns (changed: bool)
      modifies this`cleanups
      ensures forall x :: CleanupsOf(cleanups, x) == CleanupsOf(old(cleanups), x) + CleanupsOf(bCleanups, x)
      ensures forall x :: x in cleanups ==> cleanups[x] != {}
      ensures changed <==> exists x :: CleanupsOf(cleanups, x) != CleanupsOf(old(cleanups), x)
    {
      changed := UniteCleanups(bCleanups);
      KillEmpty();
    }

    method UniteCleanups(bCleanups: Cleanups) returns (changed: bool)
      modifies this`cleanups
      ensures forall x :: CleanupsOf(cleanups, x) == CleanupsOf(old(cleanups), x) + CleanupsOf(bCleanups, x)
      ensures changed <==> exists x :: CleanupsOf(cleanups, x) != CleanupsOf(old(cleanups), x)
    {
      changed := false;
      var rest := bCleanups.Keys;
      ghost var grown: Id := 0;
      while rest != {}
        invariant rest <= bCleanups.Keys
        invariant forall x :: CleanupsOf(cleanups, x) ==
                    CleanupsOf(old(cleanups), x) + if x in rest then {} else CleanupsOf(bCleanups, x)
        invariant changed ==> grown !in rest && CleanupsOf(cleanups, grown) != CleanupsOf(old(cleanups), grown)
        invariant !changed ==> forall x :: CleanupsOf(cleanups, x) == CleanupsOf(old(cleanups), x)
        decreases rest
      {
        var x :| x in rest;
        ghost var before := cleanups;
        rest := rest - {x};
        var mine := CleanupsOf(cleanups, x);
        cleanups := cleanups[x := mine + bCleanups[x]];
        if !(bCleanups[x] <= mine) {
          changed := true;
          grown := x;
        }
        assert forall y :: y != x ==> CleanupsOf(cleanups, y) == CleanupsOf(before, y);
        assert CleanupsOf(before, x) == CleanupsOf(old(cleanups), x);
      }
    }

    method KillEmpty()
      modifies this`cleanups
      ensures forall x :: CleanupsOf(cleanups, x) == CleanupsOf(old(cleanups), x)
      ensures forall x :: x in cleanups ==> cleanups[x] != {}
    {
      cleanups := map x | x in cleanups && cleanups[x] != {} :: cleanups[x];
    }

    /** Put every element of the other partition together with its root there. */
    method MergeAliases(bAliases: Partition) returns (changed: bool)
      requires ValidPartition(aliases) && ValidPartition(bAliases)
      modifies this`aliases
      ensures ValidPartition(aliases) && IsJoin(aliases, old(aliases), bAliases)
      ensures changed <==> exists x, y :: SameSet(aliases, x, y) != SameSet(old(aliases), x, y)
    {
      changed := false;
      var rest := bAliases.Keys;
      ghost var united: (Id, Id) := (0, 0);
      while rest != {}
        invariant rest <= bAliases.Keys && ValidPartition(aliases)
        invariant Joining(aliases, old(aliases), bAliases, rest)
        invariant changed ==> SameSet(aliases, united.0, united.1) && !SameSet(old(aliases), united.0, united.1)
        invariant !changed ==> aliases == old(aliases)
        decreases rest
      {
        var x :| x in rest;
        var root := bAliases[x];
        ghost var before := aliases;
        if !SameSet(aliases, x, root) {
          JoiningUnion(aliases, old(aliases), bAliases, rest, x);
          UnionIsLeast(aliases, x, root, (a, b) => true);
          aliases := MakeUnion(aliases, x, root);
          if !changed {
            united := (x, root);
          }
          changed := true;
        }
        rest := rest - {x};
      }
      JoiningEnd(aliases, old(aliases), bAliases);
    }
  }

  /** The elements of `b` outside `rest` are with their roots, and nothing is
      together without need. */
  ghost predicate Joining(p: Partition, a: Partition, b: Partition, rest: set<Id>) {
    && (forall x, y :: SameSet(a, x, y) ==> SameSet(p, x, y))
    && (forall x :: x in b && x !in rest ==> SameSet(p, x, b[x]))
    && (forall r :: Equivalence(r) && Contains(r, a) && Contains(r, b) ==> Contains(r, p))
  }

  lemma JoiningUnion(p: Partition, a: Partition, b: Partition, rest: set<Id>, x: Id)
    requires ValidPartition(p) && ValidPartition(b) && Joining(p, a, b, rest) && x in b
    ensures Joining(MakeUnion(p, x, b[x]), a, b, rest - {x})
  {
    hide Equivalence, Contains, MakeUnion;
    UnionIsLeast(p, x, b[x], (u, v) => true);
    forall r | Equivalence(r) && Contains(r, a) && Contains(r, b) ensures Contains(r, MakeUnion(p, x, b[x])) {
      UnionIsLeast(p, x, b[x], r);
      RelatedToRoot(b, r, x);
    }
  }

  lemma RelatedToRoot(b: Partition, r: (Id, Id) -> bool, x: Id)
    requires ValidPartition(b) && Contains(r, b) && x in b
    ensures r(x, b[x])
  {
    assert SameSet(b, x, b[x]);
  }

  lemma JoiningEnd(p: Partition, a: Partition, b: Partition)
    requires Joining(p, a, b, {})
    ensures IsJoin(p, a, b)
  {
    forall x, y | SameSet(b, x, y) ensures SameSet(p, x, y) {
      assert SameSet(p, x, Root(b, x)) && SameSet(p, y, Root(b, y));
    }
  }
}
