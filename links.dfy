/** Referential consistency between a parent collection that lists child ids (`products`,
    `inventories`, `currentOrders`, `incoming`) and the child collection whose records point
    back at their parent: every listed id names an existing child owned by that parent, and
    no parent lists an id twice. */
module Links {
  import opened Ids
  import opened JsArray

  predicate Distinct(s: seq<nat>) {
    forall i, j | 0 <= i < j < |s| :: s[i] != s[j]
  }

  ghost predicate Consistent<P, C>(parents: map<nat, P>, children: map<nat, C>, list: P -> seq<nat>, owner: C -> Option<nat>) {
    forall q | q in parents ::
      && Distinct(list(parents[q]))
      && forall x | x in list(parents[q]) :: x in children && owner(children[x]) == Some(q)
  }

  /** Appending a fresh id removes itself again: `push` then `splice(indexOf)` is the identity. */
  lemma SpliceOutAppended(s: seq<nat>, k: nat)
    requires k !in s
    ensures SpliceOut(s + [k], k) == s
  {
    assert (s + [k])[|s|] == k;
    assert IndexOf(s + [k], k) == |s|;
    assert (s + [k])[..|s|] == s;
  }

  lemma DistinctAppend(s: seq<nat>, k: nat)
    requires Distinct(s) && k !in s
    ensures Distinct(s + [k])
  {
  }

  /** Dropping one position of a distinct list leaves a distinct list of its other elements. */
  lemma DropKeeps(s: seq<nat>, i: nat)
    requires Distinct(s) && i < |s|
    ensures Distinct(s[..i] + s[i + 1..])
    ensures s[i] !in s[..i] + s[i + 1..]
    ensures forall x | x in s[..i] + s[i + 1..] :: x in s
  {
    var r := s[..i] + s[i + 1..];
    forall a | 0 <= a < |r| ensures r[a] == s[if a < i then a else a + 1] {
    }
  }

  /** What `splice(indexOf(k), 1)` leaves of a distinct list is a distinct list without `k`,
      whatever position it removes. */
  lemma SpliceOutKeeps(s: seq<nat>, k: nat)
    requires Distinct(s)
    ensures Distinct(SpliceOut(s, k))
    ensures k !in SpliceOut(s, k)
    ensures forall x | x in SpliceOut(s, k) :: x in s
  {
    if k in s {
      DropKeeps(s, IndexOf(s, k));
    } else if s != [] {
      DropKeeps(s, |s| - 1);
      assert s[..|s| - 1] + s[|s|..] == s[..|s| - 1];
    }
  }

  /** Creating a child and pushing its fresh id onto its owner's list keeps the ledger consistent. */
  lemma {:induction false} LinkKeeps<P, C>(parents: map<nat, P>, children: map<nat, C>,
                                           list: P -> seq<nat>, owner: C -> Option<nat>,
                                           q: nat, k: nat, child: C, linked: P)
    requires Consistent(parents, children, list, owner)
    requires q in parents && k !in children && owner(child) == Some(q)
    requires list(linked) == list(parents[q]) + [k]
    ensures Consistent(parents[q := linked], children[k := child], list, owner)
  {
    var parents', children' := parents[q := linked], children[k := child];
    forall p | p in parents'
      ensures Distinct(list(parents'[p]))
      ensures forall x | x in list(parents'[p]) :: x in children' && owner(children'[x]) == Some(p)
    {
      if p == q {
        DistinctAppend(list(parents[q]), k);
      }
    }
  }

  /** Linking a fresh child and then unlinking it gives back the owner's list and the children. */
  lemma LinkThenUnlink<P, C>(parents: map<nat, P>, children: map<nat, C>,
                             list: P -> seq<nat>, owner: C -> Option<nat>, q: nat, k: nat, child: C)
    requires Consistent(parents, children, list, owner)
    requires q in parents && k !in children
    ensures SpliceOut(list(parents[q]) + [k], k) == list(parents[q])
    ensures children[k := child] - {k} == children
  {
    assert k !in list(parents[q]);
    SpliceOutAppended(list(parents[q]), k);
  }

  /** Creating a child that no list names (its owner's save failed) keeps the ledger consistent. */
  lemma {:induction false} UnlinkedChildKeeps<P, C>(parents: map<nat, P>, children: map<nat, C>,
                                                    list: P -> seq<nat>, owner: C -> Option<nat>,
                                                    k: nat, child: C)
    requires Consistent(parents, children, list, owner)
    requires k !in children
    ensures Consistent(parents, children[k := child], list, owner)
  {
    forall p | p in parents
      ensures forall x | x in list(parents[p]) :: x in children[k := child] && owner(children[k := child][x]) == Some(p)
    {
      forall x | x in list(parents[p]) ensures x != k {
      }
    }
  }

  /** The owner's list after the splice names only the remaining children it owns, once each. */
  lemma {:induction false} SplicedListKeeps<P, C>(parents: map<nat, P>, children: map<nat, C>,
                                                  list: P -> seq<nat>, owner: C -> Option<nat>,
                                                  k: nat, q: nat, unlinked: P)
    requires Consistent(parents, children, list, owner)
    requires q in parents && list(unlinked) == SpliceOut(list(parents[q]), k)
    ensures Distinct(list(unlinked))
    ensures forall x | x in list(unlinked) :: x in children - {k} && owner((children - {k})[x]) == Some(q)
  {
    SpliceOutKeeps(list(parents[q]), k);
    forall x | x in list(unlinked) ensures x in children - {k} && owner((children - {k})[x]) == Some(q) {
      assert x in list(parents[q]) && x != k;
    }
  }

  /** Another parent's list never names the deleted child, so it survives the deletion. */
  lemma {:induction false} OtherListKeeps<P, C>(parents: map<nat, P>, children: map<nat, C>,
                                                list: P -> seq<nat>, owner: C -> Option<nat>,
                                                k: nat, p: nat)
    requires Consistent(parents, children, list, owner)
    requires p in parents && k in children && owner(children[k]) != Some(p)
    ensures forall x | x in list(parents[p]) :: x in children - {k} && owner((children - {k})[x]) == Some(p)
  {
    forall x | x in list(parents[p]) ensures x in children - {k} && owner((children - {k})[x]) == Some(p) {
      assert owner(children[x]) == Some(p);
    }
  }

  /** Deleting a child and splicing its id out of its owner's list keeps the ledger consistent. */
  lemma {:induction false} UnlinkKeeps<P, C>(parents: map<nat, P>, children: map<nat, C>,
                                             list: P -> seq<nat>, owner: C -> Option<nat>,
                                             k: nat, q: nat, unlinked: P)
    requires Consistent(parents, children, list, owner)
    requires k in children && owner(children[k]) == Some(q) && q in parents
    requires list(unlinked) == SpliceOut(list(parents[q]), k)
    ensures Consistent(parents[q := unlinked], children - {k}, list, owner)
  {
    var parents', children' := parents[q := unlinked], children - {k};
    forall p | p in parents'
      ensures Distinct(list(parents'[p]))
      ensures forall x | x in list(parents'[p]) :: x in children' && owner(children'[x]) == Some(p)
    {
      if p == q {
        SplicedListKeeps(parents, children, list, owner, k, q, unlinked);
      } else {
        assert parents'[p] == parents[p];
        OtherListKeeps(parents, children, list, owner, k, p);
      }
    }
  }

  /** Deleting a child that its owner does not list (or whose owner does not exist) keeps the
      ledger consistent: then no list names it. */
  lemma {:induction false} UnlistedRemovalKeeps<P, C>(parents: map<nat, P>, children: map<nat, C>,
                                                      list: P -> seq<nat>, owner: C -> Option<nat>, k: nat)
    requires Consistent(parents, children, list, owner)
    requires k in children
    requires owner(children[k]).Some? && owner(children[k]).value in parents ==>
               k !in list(parents[owner(children[k]).value])
    ensures Consistent(parents, children - {k}, list, owner)
  {
    forall p | p in parents
      ensures forall x | x in list(parents[p]) :: x in children - {k} && owner(children[x]) == Some(p)
    {
      forall x | x in list(parents[p]) ensures x != k {
        assert owner(children[x]) == Some(p);
      }
    }
  }

  /** Deleting a listed child without touching its owner's list breaks consistency. */
  lemma DanglingBreaks<P, C>(parents: map<nat, P>, children: map<nat, C>,
                             list: P -> seq<nat>, owner: C -> Option<nat>, q: nat, k: nat)
    requires q in parents && k in list(parents[q])
    ensures !Consistent(parents, children - {k}, list, owner)
  {
  }

  /** Storing parent `q` with a list taken as given keeps the ledger consistent exactly when that
      list has no repeats and names only existing children that `q` already owns. */
  lemma {:induction false} StoredParentKeeps<P, C>(parents: map<nat, P>, children: map<nat, C>,
                                                   list: P -> seq<nat>, owner: C -> Option<nat>,
                                                   q: nat, v: P)
    requires Consistent(parents, children, list, owner)
    ensures Consistent(parents[q := v], children, list, owner) <==>
      Distinct(list(v)) && forall x | x in list(v) :: x in children && owner(children[x]) == Some(q)
  {
    var parents' := parents[q := v];
    if Distinct(list(v)) && forall x | x in list(v) :: x in children && owner(children[x]) == Some(q) {
      forall p | p in parents'
        ensures Distinct(list(parents'[p]))
        ensures forall x | x in list(parents'[p]) :: x in children && owner(children[x]) == Some(p)
      {
        if p != q {
          assert parents'[p] == parents[p];
        }
      }
    } else {
      assert q in parents' && parents'[q] == v;
    }
  }
}
