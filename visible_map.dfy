/** The `visibleHeadings` map of src/runtime/composables/useActiveHeading.ts: a
    JavaScript `Map` from heading id to the top of its bounding box, which keeps
    its keys in insertion order. It is modelled as a sequence of (id, top) pairs
    with pairwise distinct ids. */
module VisibleMap {
  import opened Wrappers

  type Pairs = seq<(string, int)>

  /** The keys in iteration (insertion) order. */
  function Keys(m: Pairs): (r: seq<string>)
    ensures |r| == |m|
    ensures forall i :: 0 <= i < |m| ==> r[i] == m[i].0
    decreases m
  {
    if m == [] then [] else [m[0].0] + Keys(m[1..])
  }

  /** No key occurs twice. */
  predicate UniqueKeys(m: Pairs) {
    forall i, j :: 0 <= i < j < |m| ==> m[i].0 != m[j].0
  }

  /** `map.get(k)`. */
  function Lookup(m: Pairs, k: string): (r: Option<int>)
    ensures r.Some? <==> k in Keys(m)
    ensures r.Some? ==> (k, r.value) in m
    decreases m
  {
    if m == [] then None
    else if m[0].0 == k then Some(m[0].1)
    else Lookup(m[1..], k)
  }

  /** `map.set(k, v)`: an existing key is updated where it stands, a new key
      goes to the end. */
  function Set(m: Pairs, k: string, v: int): (r: Pairs)
    ensures Lookup(r, k) == Some(v)
    decreases m
  {
    if m == [] then [(k, v)]
    else if m[0].0 == k then [(k, v)] + m[1..]
    else [m[0]] + Set(m[1..], k, v)
  }

  /** `set` changes no other key's value. */
  lemma {:induction false} SetOthers(m: Pairs, k: string, v: int, k': string)
    requires k' != k
    ensures Lookup(Set(m, k, v), k') == Lookup(m, k')
    decreases m
  {
    if m != [] && m[0].0 != k {
      SetOthers(m[1..], k, v, k');
    }
  }

  /** `set` keeps the position of an existing key and appends a new one. */
  lemma {:induction false} SetKeys(m: Pairs, k: string, v: int)
    ensures Keys(Set(m, k, v)) == if k in Keys(m) then Keys(m) else Keys(m) + [k]
    decreases m
  {
    if m != [] && m[0].0 != k {
      SetKeys(m[1..], k, v);
      assert Keys(m) == [m[0].0] + Keys(m[1..]);
    }
  }

  /** Keys stay unique under `set`. */
  lemma SetUnique(m: Pairs, k: string, v: int)
    requires UniqueKeys(m)
    ensures UniqueKeys(Set(m, k, v))
  {
    var r := Set(m, k, v);
    SetKeys(m, k, v);
    assert Keys(r) == if k in Keys(m) then Keys(m) else Keys(m) + [k];
    forall i, j | 0 <= i < j < |r| ensures r[i].0 != r[j].0 {
      assert Keys(r)[i] == r[i].0 && Keys(r)[j] == r[j].0;
      if j == |m| {
        assert k !in Keys(m);
        assert Keys(r)[i] == Keys(m)[i];
      } else {
        assert Keys(r)[i] == Keys(m)[i] && Keys(r)[j] == Keys(m)[j];
      }
    }
  }

  /** `map.delete(k)`. */
  function Delete(m: Pairs, k: string): (r: Pairs)
    ensures Lookup(r, k) == None
    ensures k !in Keys(m) ==> r == m
    ensures |r| <= |m|
    decreases m
  {
    if m == [] then []
    else if m[0].0 == k then Delete(m[1..], k)
    else [m[0]] + Delete(m[1..], k)
  }

  /** `delete` changes no other key's value. */
  lemma {:induction false} DeleteOthers(m: Pairs, k: string, k': string)
    requires k' != k
    ensures Lookup(Delete(m, k), k') == Lookup(m, k')
    decreases m
  {
    if m != [] {
      DeleteOthers(m[1..], k, k');
    }
  }

  /** Keys stay unique under `delete`: the result is a subsequence of the map. */
  lemma {:induction false} DeleteUnique(m: Pairs, k: string)
    requires UniqueKeys(m)
    ensures UniqueKeys(Delete(m, k))
    ensures forall p :: p in Delete(m, k) ==> p in m
    decreases m
  {
    if m != [] {
      assert UniqueKeys(m[1..]) by {
        forall i, j | 0 <= i < j < |m[1..]| ensures m[1..][i].0 != m[1..][j].0 {
          assert m[1..][i] == m[i + 1] && m[1..][j] == m[j + 1];
        }
      }
      DeleteUnique(m[1..], k);
      if m[0].0 != k {
        var r := Delete(m, k);
        var t := Delete(m[1..], k);
        assert r == [m[0]] + t;
        forall i, j | 0 <= i < j < |r| ensures r[i].0 != r[j].0 {
          if i == 0 {
            assert r[j] == t[j - 1] && r[j] in m[1..];
            var jj :| 0 <= jj < |m[1..]| && m[1..][jj] == r[j];
            assert m[jj + 1] == r[j];
          }
        }
      }
    }
  }

  /** Where a present key stands. */
  function IndexOf(m: Pairs, k: string): (i: nat)
    requires k in Keys(m)
    ensures i < |m| && m[i].0 == k
    ensures forall j :: 0 <= j < i ==> m[j].0 != k
    decreases m
  {
    if m[0].0 == k then 0 else 1 + IndexOf(m[1..], k)
  }

  /** The tail of a map with unique keys has unique keys, none of them the head's. */
  lemma TailUnique(m: Pairs)
    requires UniqueKeys(m) && m != []
    ensures UniqueKeys(m[1..])
    ensures m[0].0 !in Keys(m[1..])
  {
    var tail := m[1..];
    forall i, j | 0 <= i < j < |tail| ensures tail[i].0 != tail[j].0 {
      assert tail[i] == m[i + 1] && tail[j] == m[j + 1];
    }
  }

  /** Removing position i + 1 of a sequence with a head is removing position i of its tail. */
  lemma RemoveAtCons(m: Pairs, i: nat)
    requires i + 1 < |m|
    ensures [m[0]] + (m[1..][..i] + m[1..][i + 1..]) == m[..i + 1] + m[i + 2..]
  {
    assert m[..i + 1] == [m[0]] + m[1..][..i];
    assert m[i + 2..] == m[1..][i + 1..];
  }

  /** Deleting a present key removes exactly its pair and leaves the others
      in their order. */
  lemma {:induction false} DeleteRemovesOne(m: Pairs, k: string)
    requires UniqueKeys(m) && k in Keys(m)
    ensures Delete(m, k) == m[..IndexOf(m, k)] + m[IndexOf(m, k) + 1..]
    decreases m
  {
    TailUnique(m);
    if m[0].0 == k {
      assert Delete(m, k) == m[1..];
    } else {
      assert k in Keys(m[1..]);
      DeleteRemovesOne(m[1..], k);
      RemoveAtCons(m, IndexOf(m[1..], k));
    }
  }

  /** One report of the observer: the target's id, whether it intersects the
      band, and the top of its bounding box. */
  datatype ObservedEntry = ObservedEntry(id: string, isIntersecting: bool, top: int)

  /** The body of the callback's loop for one entry. */
  function ApplyEntry(m: Pairs, e: ObservedEntry): (r: Pairs)
    ensures Lookup(r, e.id) == if e.isIntersecting then Some(e.top) else None
  {
    if e.isIntersecting then Set(m, e.id, e.top) else Delete(m, e.id)
  }

  /** The map after the callback's loop has applied a batch, entry by entry in order. */
  function ApplyBatch(m: Pairs, es: seq<ObservedEntry>): (r: Pairs)
    ensures es == [] ==> r == m
    ensures es != [] ==> Lookup(r, es[|es| - 1].id)
                         == if es[|es| - 1].isIntersecting then Some(es[|es| - 1].top) else None
    decreases |es|
  {
    if es == [] then m
    else ApplyEntry(ApplyBatch(m, es[..|es| - 1]), es[|es| - 1])
  }

  /** A batch keeps the keys unique. */
  lemma {:induction false} ApplyBatchUnique(m: Pairs, es: seq<ObservedEntry>)
    requires UniqueKeys(m)
    ensures UniqueKeys(ApplyBatch(m, es))
    decreases |es|
  {
    if es != [] {
      ApplyBatchUnique(m, es[..|es| - 1]);
      var prev := ApplyBatch(m, es[..|es| - 1]);
      var e := es[|es| - 1];
      if e.isIntersecting { SetUnique(prev, e.id, e.top); } else { DeleteUnique(prev, e.id); }
    }
  }

  /** The last entry of a batch that reports `k`, if any. */
  function LastFor(es: seq<ObservedEntry>, k: string): (r: Option<ObservedEntry>)
    ensures r.Some? ==> r.value in es && r.value.id == k
    ensures r.None? ==> forall i :: 0 <= i < |es| ==> es[i].id != k
    decreases |es|
  {
    if es == [] then None
    else if es[|es| - 1].id == k then Some(es[|es| - 1])
    else LastFor(es[..|es| - 1], k)
  }

  /** After a batch, a key's entry is decided by the last entry reporting it
      (present with its top when intersecting, absent otherwise); a key no
      entry reports keeps its old value. */
  lemma {:induction false} LastEntryWins(m: Pairs, es: seq<ObservedEntry>, k: string)
    ensures Lookup(ApplyBatch(m, es), k)
         == match LastFor(es, k)
            case None => Lookup(m, k)
            case Some(e) => if e.isIntersecting then Some(e.top) else None
    decreases |es|
  {
    if es != [] {
      var init := es[..|es| - 1];
      var e := es[|es| - 1];
      LastEntryWins(m, init, k);
      if e.id != k {
        if e.isIntersecting {
          SetOthers(ApplyBatch(m, init), e.id, e.top, k);
        } else {
          DeleteOthers(ApplyBatch(m, init), e.id, k);
        }
      }
    }
  }

  /** Re-reporting keys that are already present, as intersecting, never
      reorders the map: the insertion order that breaks ties is kept. */
  lemma {:induction false} ResetKeepsOrder(m: Pairs, es: seq<ObservedEntry>)
    requires forall i :: 0 <= i < |es| ==> es[i].isIntersecting && es[i].id in Keys(m)
    ensures Keys(ApplyBatch(m, es)) == Keys(m)
    decreases |es|
  {
    if es != [] {
      var init := es[..|es| - 1];
      var e := es[|es| - 1];
      assert forall i :: 0 <= i < |init| ==> init[i] == es[i];
      ResetKeepsOrder(m, init);
      SetKeys(ApplyBatch(m, init), e.id, e.top);
    }
  }
}
