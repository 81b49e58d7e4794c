/**
 * One keyed table: the list of records the cache holds for a collection, and
 * the pure computations each store action uses to derive the new list from
 * the old one (array spread, `map` with an id test, `filter` by id).
 */
module Table {
  import opened Types

  /** `r` is `s` with some elements dropped, the rest in their original order. */
  ghost predicate IsSubsequence<T>(r: seq<T>, s: seq<T>)
    decreases |s|
  {
    if r == [] then true
    else if s == [] then false
    else (r[0] == s[0] && IsSubsequence(r[1..], s[1..])) || IsSubsequence(r, s[1..])
  }

  /** True when no record of `s` has the identifier `id`. */
  predicate NoneWithId<P>(s: seq<Record<P>>, id: string)
  {
    forall i :: 0 <= i < |s| ==> s[i].id != id
  }

  /** `[...s, x]`: the record goes at the end and nothing before it moves. */
  function Append<P>(s: seq<Record<P>>, x: Record<P>): (r: seq<Record<P>>)
    ensures |r| == |s| + 1
    ensures r[..|s|] == s && r[|s|] == x
  {
    s + [x]
  }

  /**
   * `s.map(e => e.id === x.id ? x : e)`: every record carrying `x`'s id is
   * replaced by `x`, every other record stays where it was.
   */
  function Update<P>(s: seq<Record<P>>, x: Record<P>): (r: seq<Record<P>>)
    ensures |r| == |s|
    ensures forall i :: 0 <= i < |s| ==> r[i].id == s[i].id
    ensures forall i :: 0 <= i < |s| && s[i].id == x.id ==> r[i] == x
    ensures forall i :: 0 <= i < |s| && s[i].id != x.id ==> r[i] == s[i]
    ensures NoneWithId(s, x.id) ==> r == s
  {
    if s == [] then []
    else [if s[0].id == x.id then x else s[0]] + Update(s[1..], x)
  }

  /**
   * `s.filter(e => e.id !== id)`: no record with `id` is left, every other
   * record is kept as often as it occurred, in its original relative order.
   */
  function RemoveById<P(==,!new)>(s: seq<Record<P>>, id: string): (r: seq<Record<P>>)
    ensures |r| <= |s|
    ensures NoneWithId(r, id)
    ensures forall y: Record<P> :: y in r <==> y in s && y.id != id
  {
    if s == [] then []
    else
      var rest := RemoveById(s[1..], id);
      assert s == [s[0]] + s[1..];
      if s[0].id == id then rest else [s[0]] + rest
  }

  /**
   * `s.filter(e => !ids.includes(e.id))`: no record whose id is listed is left,
   * every other record is kept as often as it occurred, in order.
   */
  function RemoveByIds<P(==,!new)>(s: seq<Record<P>>, ids: seq<string>): (r: seq<Record<P>>)
    ensures |r| <= |s|
    ensures forall i :: 0 <= i < |r| ==> r[i].id !in ids
    ensures forall y: Record<P> :: y in r <==> y in s && y.id !in ids
  {
    if s == [] then []
    else
      var rest := RemoveByIds(s[1..], ids);
      assert s == [s[0]] + s[1..];
      if s[0].id in ids then rest else [s[0]] + rest
  }

  // ---------------------------------------------------------------------
  // Properties relating the operations
  // ---------------------------------------------------------------------

  /** Applying the same update twice gives the list one update gives. */
  lemma UpdateIdempotent<P>(s: seq<Record<P>>, x: Record<P>)
    ensures Update(Update(s, x), x) == Update(s, x)
  {
  }

  /**
   * `RemoveById` keeps every record with another id exactly as often as it
   * occurred, and in the order the records had.
   */
  lemma {:induction false} RemoveKeepsOthers<P(!new)>(s: seq<Record<P>>, id: string)
    ensures forall y: Record<P> :: y.id != id ==> multiset(RemoveById(s, id))[y] == multiset(s)[y]
    ensures IsSubsequence(RemoveById(s, id), s)
  {
    if s != [] {
      RemoveKeepsOthers(s[1..], id);
      var rest := RemoveById(s[1..], id);
      assert s == [s[0]] + s[1..];
      if s[0].id != id {
        assert ([s[0]] + rest)[1..] == rest;
      }
    }
  }

  /** The same for `RemoveByIds`: the records whose id is not listed survive, in order. */
  lemma {:induction false} RemoveIdsKeepsOthers<P(!new)>(s: seq<Record<P>>, ids: seq<string>)
    ensures forall y: Record<P> :: y.id !in ids ==> multiset(RemoveByIds(s, ids))[y] == multiset(s)[y]
    ensures IsSubsequence(RemoveByIds(s, ids), s)
  {
    if s != [] {
      RemoveIdsKeepsOthers(s[1..], ids);
      var rest := RemoveByIds(s[1..], ids);
      assert s == [s[0]] + s[1..];
      if s[0].id !in ids {
        assert ([s[0]] + rest)[1..] == rest;
      }
    }
  }

  /** Removing an id nobody carries leaves the list as it was. */
  lemma {:induction false} RemoveAbsent<P(!new)>(s: seq<Record<P>>, id: string)
    requires NoneWithId(s, id)
    ensures RemoveById(s, id) == s
  {
    if s != [] {
      RemoveAbsent(s[1..], id);
      assert s == [s[0]] + s[1..];
    }
  }

  /** Removing the same id twice gives the list one removal gives. */
  lemma RemoveIdempotent<P(!new)>(s: seq<Record<P>>, id: string)
    ensures RemoveById(RemoveById(s, id), id) == RemoveById(s, id)
  {
    RemoveAbsent(RemoveById(s, id), id);
  }

  /** Removal distributes over concatenation. */
  lemma {:induction false} RemoveConcat<P(!new)>(a: seq<Record<P>>, b: seq<Record<P>>, id: string)
    ensures RemoveById(a + b, id) == RemoveById(a, id) + RemoveById(b, id)
  {
    if a != [] {
      RemoveConcat(a[1..], b, id);
      assert (a + b)[1..] == a[1..] + b;
    } else {
      assert a + b == b;
    }
  }

  /** Removing right after appending: the new record goes only if it has the id. */
  lemma RemoveAfterAppend<P(!new)>(s: seq<Record<P>>, x: Record<P>, id: string)
    ensures RemoveById(Append(s, x), id)
         == if x.id == id then RemoveById(s, id) else RemoveById(s, id) + [x]
  {
    RemoveConcat(s, [x], id);
    assert [x][1..] == [];
  }

  /** An update never changes what removing its id leaves behind. */
  lemma {:induction false} RemoveAfterUpdate<P(!new)>(s: seq<Record<P>>, x: Record<P>)
    ensures RemoveById(Update(s, x), x.id) == RemoveById(s, x.id)
  {
    if s != [] {
      RemoveAfterUpdate(s[1..], x);
      var u := Update(s, x);
      assert u[1..] == Update(s[1..], x);
    }
  }

  /** Removing no ids leaves the list as it was. */
  lemma {:induction false} RemoveNoIds<P(!new)>(s: seq<Record<P>>)
    ensures RemoveByIds(s, []) == s
  {
    if s != [] {
      RemoveNoIds(s[1..]);
      assert s == [s[0]] + s[1..];
    }
  }

  /** Removing the one-element list `[id]` is removing `id`. */
  lemma {:induction false} RemoveSingleId<P(!new)>(s: seq<Record<P>>, id: string)
    ensures RemoveByIds(s, [id]) == RemoveById(s, id)
  {
    if s != [] {
      RemoveSingleId(s[1..], id);
    }
  }

  /** Removing `a + b` at once is removing `a` and then `b`. */
  lemma {:induction false} RemoveIdsConcat<P(!new)>(s: seq<Record<P>>, a: seq<string>, b: seq<string>)
    ensures RemoveByIds(s, a + b) == RemoveByIds(RemoveByIds(s, a), b)
  {
    if s != [] {
      RemoveIdsConcat(s[1..], a, b);
      var ra := RemoveByIds(s, a);
      if s[0].id !in a {
        assert ra[0] == s[0] && ra[1..] == RemoveByIds(s[1..], a);
      }
    }
  }

  /** Removing ids of which none is present leaves the list as it was. */
  lemma {:induction false} RemoveIdsAbsent<P(!new)>(s: seq<Record<P>>, ids: seq<string>)
    requires forall i :: 0 <= i < |s| ==> s[i].id !in ids
    ensures RemoveByIds(s, ids) == s
  {
    if s != [] {
      RemoveIdsAbsent(s[1..], ids);
      assert s == [s[0]] + s[1..];
    }
  }

  /** Removing the same ids twice gives the list one removal gives. */
  lemma RemoveIdsIdempotent<P(!new)>(s: seq<Record<P>>, ids: seq<string>)
    ensures RemoveByIds(RemoveByIds(s, ids), ids) == RemoveByIds(s, ids)
  {
    RemoveIdsAbsent(RemoveByIds(s, ids), ids);
  }
}
