/**
 * Python's `dict`: a finite map that remembers the order in which its keys were
 * first inserted. Assigning to an existing key keeps that key's position;
 * assigning to a new key appends it. Iterating yields the entries in that order.
 */
module OrderedDict {
  import opened Wrappers

  /** Entries in insertion order; a dict built by Put never repeats a key. */
  type Dict<K, V> = seq<(K, V)>

  /** `list(d.keys())`. */
  function Keys<K, V>(d: Dict<K, V>): (ks: seq<K>)
    ensures |ks| == |d|
    ensures forall i :: 0 <= i < |d| ==> ks[i] == d[i].0
  {
    seq(|d|, i requires 0 <= i < |d| => d[i].0)
  }

  /** `list(d.values())`. */
  function Values<K, V>(d: Dict<K, V>): (vs: seq<V>)
    ensures |vs| == |d|
    ensures forall i :: 0 <= i < |d| ==> vs[i] == d[i].1
  {
    seq(|d|, i requires 0 <= i < |d| => d[i].1)
  }

  predicate DistinctKeys<K(==), V>(d: Dict<K, V>) {
    forall i, j :: 0 <= i < j < |d| ==> d[i].0 != d[j].0
  }

  /** The position of the entry for `k`, if there is one: the first entry that carries `k`. */
  function Find<K(==), V>(d: Dict<K, V>, k: K): (r: Option<nat>)
    ensures r.Some? ==> r.value < |d| && d[r.value].0 == k
    ensures r.Some? ==> forall j :: 0 <= j < r.value ==> d[j].0 != k
    ensures r.None? ==> forall j :: 0 <= j < |d| ==> d[j].0 != k
  {
    if d == [] then None
    else if d[0].0 == k then Some(0)
    else match Find(d[1..], k) {
      case Some(i) => Some(i + 1)
      case None => None
    }
  }

  /** `d.get(k)`, with None for a missing key. */
  function Get<K(==), V>(d: Dict<K, V>, k: K): Option<V> {
    match Find(d, k) {
      case Some(i) => Some(d[i].1)
      case None => None
    }
  }

  /** `d[k] = v`. */
  function Put<K(==), V>(d: Dict<K, V>, k: K, v: V): Dict<K, V> {
    match Find(d, k) {
      case Some(i) => d[i := (k, v)]
      case None => d + [(k, v)]
    }
  }

  /** `k in d`: `d.get(k)` finds a value exactly for the keys the dict lists. */
  lemma GetPresent<K(!new), V>(d: Dict<K, V>, k: K)
    ensures Get(d, k).Some? <==> k in Keys(d)
  {
  }

  /** In a dict without repeated keys, the entry at position `i` is the one `d.get` finds. */
  lemma GetDistinct<K(!new), V>(d: Dict<K, V>, k: K, i: nat)
    requires DistinctKeys(d) && i < |d| && d[i].0 == k
    ensures Get(d, k) == Some(d[i].1)
  {
  }

  /**
   * After `d[k] = v`, `d.get(k)` is `v`, every other key keeps its value, an
   * existing key keeps its place and a new one comes last, and no key is repeated.
   */
  lemma PutSpec<K(!new), V>(d: Dict<K, V>, k: K, v: V)
    ensures Get(Put(d, k, v), k) == Some(v)
    ensures forall k' :: k' != k ==> Get(Put(d, k, v), k') == Get(d, k')
    ensures Keys(Put(d, k, v)) == if k in Keys(d) then Keys(d) else Keys(d) + [k]
    ensures DistinctKeys(d) ==> DistinctKeys(Put(d, k, v))
  {
    var r := Put(d, k, v);
    GetPresent(d, k);
    match Find(d, k) {
      case Some(i) =>
        assert Keys(r) == Keys(d);
        forall k' | k' != k
          ensures Get(r, k') == Get(d, k')
        {
          FindSame(d, r, k');
        }
      case None =>
        assert r == d + [(k, v)];
        assert Keys(r) == Keys(d) + [k];
        forall k' | k' != k
          ensures Get(r, k') == Get(d, k')
        {
          FindSame(d, r, k');
        }
        FindAppended(d, k, v);
    }
  }

  /** Every entry after `d[k] = v` is `(k, v)` or an entry of `d`. */
  lemma PutEntries<K(!new), V>(d: Dict<K, V>, k: K, v: V)
    ensures forall x :: x in Put(d, k, v) ==> x == (k, v) || x in d
  {
    match Find(d, k) {
      case Some(i) =>
        forall x | x in Put(d, k, v)
          ensures x == (k, v) || x in d
        {
          var j :| 0 <= j < |d| && Put(d, k, v)[j] == x;
          if j != i {
            assert x == d[j];
          }
        }
      case None =>
    }
  }

  /** Assigning a key twice is assigning it the second value. */
  lemma PutPut<K(!new), V>(d: Dict<K, V>, k: K, v: V, w: V)
    ensures Put(Put(d, k, v), k, w) == Put(d, k, w)
  {
    match Find(d, k) {
      case Some(i) =>
        var e := Put(d, k, v);
        assert e[i].0 == k && forall j :: 0 <= j < i ==> e[j].0 != k;
        assert Find(e, k) == Some(i);
      case None =>
        FindAppended(d, k, v);
    }
  }

  /** Assigning a key the dict does not have appends an entry. */
  lemma PutNew<K(!new), V>(d: Dict<K, V>, k: K, v: V)
    requires k !in Keys(d)
    ensures Put(d, k, v) == d + [(k, v)]
  {
    GetPresent(d, k);
  }

  lemma {:induction false} FindAppended<K(!new), V>(d: Dict<K, V>, k: K, v: V)
    requires forall j :: 0 <= j < |d| ==> d[j].0 != k
    ensures Find(d + [(k, v)], k) == Some(|d|)
  {
    if d != [] {
      assert (d + [(k, v)])[1..] == d[1..] + [(k, v)];
      FindAppended(d[1..], k, v);
    }
  }

  /** Two dicts that agree on which entries carry `k` up to its first occurrence find it at the same place. */
  lemma {:induction false} FindSame<K(!new), V>(d: Dict<K, V>, e: Dict<K, V>, k: K)
    requires |d| <= |e|
    requires forall i :: 0 <= i < |d| ==> (d[i].0 == k <==> e[i].0 == k)
    requires forall i :: 0 <= i < |d| && d[i].0 == k ==> e[i] == d[i]
    requires forall i :: |d| <= i < |e| ==> e[i].0 != k
    ensures Find(e, k) == Find(d, k)
    ensures Get(e, k) == Get(d, k)
  {
    if d == [] {
      assert forall j :: 0 <= j < |e| ==> e[j].0 != k;
    } else if d[0].0 != k {
      FindSame(d[1..], e[1..], k);
    }
  }

  /**
   * The dict obtained from `d` by assigning `d[k] = v` for every present pair
   * of `es`, in order; an absent pair leaves the dict as it is.
   */
  function PutAll<K(==), V>(d: Dict<K, V>, es: seq<Option<(K, V)>>): Dict<K, V> {
    if es == [] then d
    else
      var prev := PutAll(d, es[..|es| - 1]);
      match es[|es| - 1] {
        case None => prev
        case Some(e) => Put(prev, e.0, e.1)
      }
  }

  predicate Assigns<K(==), V>(e: Option<(K, V)>, k: K) {
    e.Some? && e.value.0 == k
  }

  /** Unfolding PutAll at its last pair, as a loop that performs the assignments one by one uses it. */
  lemma PutAllSnoc<K(!new), V>(d: Dict<K, V>, es: seq<Option<(K, V)>>, e: Option<(K, V)>)
    ensures e.None? ==> PutAll(d, es + [e]) == PutAll(d, es)
    ensures e.Some? ==> PutAll(d, es + [e]) == Put(PutAll(d, es), e.value.0, e.value.1)
  {
    assert (es + [e])[..|es|] == es;
  }

  /** PutAll over one more pair of `es` performs that one more assignment. */
  lemma PutAllPrefix<K(!new), V>(d: Dict<K, V>, es: seq<Option<(K, V)>>, n: nat)
    requires n < |es|
    ensures es[n].None? ==> PutAll(d, es[..n + 1]) == PutAll(d, es[..n])
    ensures es[n].Some? ==> PutAll(d, es[..n + 1]) == Put(PutAll(d, es[..n]), es[n].value.0, es[n].value.1)
  {
    assert es[..n + 1] == es[..n] + [es[n]];
    PutAllSnoc(d, es[..n], es[n]);
  }

  /** Assignments never repeat a key. */
  lemma {:induction false} PutAllDistinct<K(!new), V>(d: Dict<K, V>, es: seq<Option<(K, V)>>)
    requires DistinctKeys(d)
    ensures DistinctKeys(PutAll(d, es))
  {
    if es != [] {
      PutAllDistinct(d, es[..|es| - 1]);
      if es[|es| - 1].Some? {
        PutSpec(PutAll(d, es[..|es| - 1]), es[|es| - 1].value.0, es[|es| - 1].value.1);
      }
    }
  }

  /** Assignments keep every key already present in its place; new keys come after them. */
  lemma {:induction false} PutAllKeepsOrder<K(!new), V>(d: Dict<K, V>, es: seq<Option<(K, V)>>)
    ensures Keys(d) <= Keys(PutAll(d, es))
  {
    if es != [] {
      var prev := PutAll(d, es[..|es| - 1]);
      PutAllKeepsOrder(d, es[..|es| - 1]);
      if es[|es| - 1].Some? {
        PutSpec(prev, es[|es| - 1].value.0, es[|es| - 1].value.1);
      }
    }
  }

  /** One step of PutAll: the last pair, if present, is assigned to the dict built by the others. */
  lemma PutAllStep<K(!new), V>(d: Dict<K, V>, es: seq<Option<(K, V)>>, k: K)
    requires es != []
    ensures Assigns(es[|es| - 1], k) ==> Get(PutAll(d, es), k) == Some(es[|es| - 1].value.1)
    ensures !Assigns(es[|es| - 1], k) ==> Get(PutAll(d, es), k) == Get(PutAll(d, es[..|es| - 1]), k)
  {
    if es[|es| - 1].Some? {
      PutSpec(PutAll(d, es[..|es| - 1]), es[|es| - 1].value.0, es[|es| - 1].value.1);
    }
  }

  /** A key no pair assigns keeps the value, or the absence, it had in `d`. */
  lemma {:induction false} PutAllUntouched<K(!new), V>(d: Dict<K, V>, es: seq<Option<(K, V)>>, k: K)
    requires forall i :: 0 <= i < |es| ==> !Assigns(es[i], k)
    ensures Get(PutAll(d, es), k) == Get(d, k)
  {
    if es != [] {
      PutAllStep(d, es, k);
      PutAllUntouched(d, es[..|es| - 1], k);
    }
  }

  /** After the assignments, a key has a value iff it had one before or some pair assigns it. */
  lemma {:induction false} PutAllHas<K(!new), V>(d: Dict<K, V>, es: seq<Option<(K, V)>>, k: K)
    ensures Get(PutAll(d, es), k).None? <==>
            Get(d, k).None? && forall i :: 0 <= i < |es| ==> !Assigns(es[i], k)
  {
    if es != [] {
      var init := es[..|es| - 1];
      PutAllHas(d, init, k);
      PutAllStep(d, es, k);
      assert forall i :: 0 <= i < |init| ==> es[i] == init[i];
    }
  }

  /** The value of an assigned key is the one of the LAST pair that assigns it. */
  lemma {:induction false} PutAllLastWins<K(!new), V>(d: Dict<K, V>, es: seq<Option<(K, V)>>, k: K, i: nat)
    requires i < |es| && Assigns(es[i], k)
    requires forall j :: i < j < |es| ==> !Assigns(es[j], k)
    ensures Get(PutAll(d, es), k) == Some(es[i].value.1)
  {
    PutAllStep(d, es, k);
    if i < |es| - 1 {
      var init := es[..|es| - 1];
      assert forall j :: i < j < |init| ==> init[j] == es[j];
      PutAllLastWins(d, init, k, i);
    }
  }

  /** Every entry after the assignments was already in `d` or is one of the assigned pairs. */
  lemma {:induction false} PutAllEntries<K(!new), V>(d: Dict<K, V>, es: seq<Option<(K, V)>>)
    ensures forall x :: x in PutAll(d, es) ==> x in d || Some(x) in es
  {
    if es != [] {
      var init := es[..|es| - 1];
      PutAllEntries(d, init);
      assert forall y :: Some(y) in init ==> Some(y) in es;
      if es[|es| - 1].Some? {
        PutEntries(PutAll(d, init), es[|es| - 1].value.0, es[|es| - 1].value.1);
      }
    }
  }

  /** Every entry of `d`, present. */
  function Wrapped<K, V>(d: Dict<K, V>): (es: seq<Option<(K, V)>>)
    ensures |es| == |d| && forall i :: 0 <= i < |d| ==> es[i] == Some(d[i])
  {
    seq(|d|, i requires 0 <= i < |d| => Some(d[i]))
  }

  /** Assigning the entries of a dict without repeated keys to `{}` rebuilds that dict, in the same order. */
  lemma {:induction false} Rebuild<K(!new), V>(d: Dict<K, V>)
    requires DistinctKeys(d)
    ensures PutAll([], Wrapped(d)) == d
  {
    if d != [] {
      var init := d[..|d| - 1];
      assert Wrapped(d)[..|d| - 1] == Wrapped(init);
      Rebuild(init);
      PutNew(init, d[|d| - 1].0, d[|d| - 1].1);
      assert init + [d[|d| - 1]] == d;
    }
  }
}
