/** Python dictionaries with string keys, as insertion-ordered association
    lists. Every dictionary Python builds has pairwise distinct keys
    (`Unique`); the operations keep that invariant and the lemmas that need
    it ask for it. */
module Dicts {
  import opened Wrappers
  import opened Seqs

  type Dict<V> = seq<(string, V)>

  /** The keys in iteration order (`d.keys()`). */
  function Keys<V>(d: Dict<V>): (ks: seq<string>)
    ensures |ks| == |d|
    ensures forall i :: 0 <= i < |d| ==> ks[i] == d[i].0
  {
    seq(|d|, i requires 0 <= i < |d| => d[i].0)
  }

  ghost predicate Unique<V>(d: Dict<V>) {
    forall i, j :: 0 <= i < j < |d| ==> d[i].0 != d[j].0
  }

  /** The position of the first pair whose key is `k`. */
  function IndexOf<V>(d: Dict<V>, k: string): (i: nat)
    requires k in Keys(d)
    ensures i < |d| && d[i].0 == k
    ensures forall j :: 0 <= j < i ==> d[j].0 != k
  {
    if d[0].0 == k then 0
    else
      assert k in Keys(d[1..]) by {
        var j :| 0 <= j < |d| && d[j].0 == k;
        assert d[1..][j - 1] == d[j];
      }
      1 + IndexOf(d[1..], k)
  }

  /** `d.get(k)`: the value bound to `k`, or None when `k` is absent. */
  function Get<V>(d: Dict<V>, k: string): (r: Option<V>)
    ensures r.None? <==> k !in Keys(d)
    ensures r.Some? ==> (k, r.value) in d
  {
    if k in Keys(d) then Some(d[IndexOf(d, k)].1) else None
  }

  /** With distinct keys, the value `Get` finds is the one paired with the
      key wherever it sits. */
  lemma GetUnique<V>(d: Dict<V>, k: string, i: nat)
    requires Unique(d) && i < |d| && d[i].0 == k
    ensures Get(d, k) == Some(d[i].1)
  {
    assert Keys(d)[i] == k;
  }

  /** `d.get(k, default)`. */
  function GetOr<V>(d: Dict<V>, k: string, default: V): (r: V)
    ensures k in Keys(d) ==> Some(r) == Get(d, k)
    ensures k !in Keys(d) ==> r == default
  {
    Get(d, k).GetOr(default)
  }

  /** `d[k] = v`: an existing key keeps its position and takes the new
      value; a new key is appended at the end. */
  function Set<V>(d: Dict<V>, k: string, v: V): (r: Dict<V>)
    ensures Get(r, k) == Some(v)
  {
    if k in Keys(d) then
      var i := IndexOf(d, k);
      var r := d[i := (k, v)];
      IndexOfIs(r, k, i);
      r
    else
      var r := d + [(k, v)];
      IndexOfIs(r, k, |d|);
      r
  }

  /** The first position carrying key `k` is the one `IndexOf` finds. */
  lemma IndexOfIs<V>(d: Dict<V>, k: string, i: nat)
    requires i < |d| && d[i].0 == k
    requires forall j :: 0 <= j < i ==> d[j].0 != k
    ensures k in Keys(d) && IndexOf(d, k) == i
  {
    assert Keys(d)[i] == k;
  }

  /** Assigning keeps the order of the keys and appends a new key. */
  lemma KeysSet<V>(d: Dict<V>, k: string, v: V)
    ensures k in Keys(d) ==> Keys(Set(d, k, v)) == Keys(d)
    ensures k !in Keys(d) ==> Keys(Set(d, k, v)) == Keys(d) + [k]
  {
  }

  /** Assigning `k` leaves every other key's value as it was. */
  lemma GetSet<V>(d: Dict<V>, k: string, v: V, x: string)
    ensures Get(Set(d, k, v), x) == if x == k then Some(v) else Get(d, x)
  {
    var r := Set(d, k, v);
    KeysSet(d, k, v);
    if x != k && x in Keys(d) {
      var j := IndexOf(d, x);
      assert r[j] == d[j];
      assert forall i :: 0 <= i < j ==> r[i].0 == Keys(r)[i] == Keys(d)[i] == d[i].0;
      IndexOfIs(r, x, j);
    }
  }

  lemma SetKeepsOthers<V>(d: Dict<V>, k: string, v: V)
    ensures forall x :: x != k ==> Get(Set(d, k, v), x) == Get(d, x)
  {
    forall x | x != k ensures Get(Set(d, k, v), x) == Get(d, x) {
      GetSet(d, k, v, x);
    }
  }

  /** Assigning keeps the keys distinct. */
  lemma SetUnique<V>(d: Dict<V>, k: string, v: V)
    requires Unique(d)
    ensures Unique(Set(d, k, v))
  {
    KeysSet(d, k, v);
    var r := Set(d, k, v);
    assert forall i :: 0 <= i < |r| ==> r[i].0 == Keys(r)[i];
  }

  /** `{**a, **b}`, equivalently `a.copy(); a.update(b)`: the pairs of `b`
      are assigned into `a` one after the other, in `b`'s order. */
  function Update<V>(a: Dict<V>, b: Dict<V>): (r: Dict<V>)
    ensures |a| <= |r| <= |a| + |b|
    ensures b == [] ==> r == a
    decreases |b|
  {
    if b == [] then a else Update(Set(a, b[0].0, b[0].1), b[1..])
  }

  /** The keys behind the first pair. */
  lemma KeysCons<V>(b: Dict<V>, k: string)
    requires b != []
    ensures k in Keys(b) <==> k == b[0].0 || k in Keys(b[1..])
  {
    assert Keys(b) == [b[0].0] + Keys(b[1..]);
  }

  /** A key other than the first is looked up in the rest. */
  lemma GetTail<V>(b: Dict<V>, k: string)
    requires b != [] && k != b[0].0
    ensures Get(b, k) == Get(b[1..], k)
  {
    KeysCons(b, k);
  }

  /** Behind the first pair of a dictionary with distinct keys, its key
      does not recur. */
  lemma UniqueTail<V>(b: Dict<V>)
    requires Unique(b) && b != []
    ensures Unique(b[1..]) && b[0].0 !in Keys(b[1..])
  {
    forall i | 0 <= i < |b| - 1 ensures b[1..][i].0 != b[0].0 {
      assert b[1..][i] == b[i + 1];
    }
  }

  /** A key of `b` takes `b`'s value in the union; any other key keeps the
      value it has in `a`. */
  lemma {:induction false} GetUpdate<V>(a: Dict<V>, b: Dict<V>, k: string)
    requires Unique(b)
    ensures Get(Update(a, b), k) == if k in Keys(b) then Get(b, k) else Get(a, k)
    decreases |b|
  {
    if b != [] {
      var a', b' := Set(a, b[0].0, b[0].1), b[1..];
      assert Update(a, b) == Update(a', b');
      UniqueTail(b);
      KeysCons(b, k);
      GetUpdate(a', b', k);
      GetSet(a, b[0].0, b[0].1, k);
      if k == b[0].0 {
        GetUnique(b, k, 0);
      } else {
        GetTail(b, k);
      }
    }
  }

  /** A key `b` lacks keeps its value from `a`, whatever `b` repeats. */
  lemma {:induction false} GetUpdateAbsent<V>(a: Dict<V>, b: Dict<V>, k: string)
    requires k !in Keys(b)
    ensures Get(Update(a, b), k) == Get(a, k)
    decreases |b|
  {
    if b != [] {
      KeysCons(b, k);
      GetSet(a, b[0].0, b[0].1, k);
      GetUpdateAbsent(Set(a, b[0].0, b[0].1), b[1..], k);
    }
  }

  /** Distinct keys stay distinct in the union. */
  lemma {:induction false} UpdateUnique<V>(a: Dict<V>, b: Dict<V>)
    requires Unique(a)
    ensures Unique(Update(a, b))
    decreases |b|
  {
    if b != [] {
      SetUnique(a, b[0].0, b[0].1);
      UpdateUnique(Set(a, b[0].0, b[0].1), b[1..]);
    }
  }

  /** The keys of `a` come first in the union, in their order. */
  lemma {:induction false} KeysUpdatePrefix<V>(a: Dict<V>, b: Dict<V>)
    ensures Keys(a) <= Keys(Update(a, b))
    decreases |b|
  {
    if b != [] {
      var a' := Set(a, b[0].0, b[0].1);
      KeysSet(a, b[0].0, b[0].1);
      KeysUpdatePrefix(a', b[1..]);
      assert Keys(a) <= Keys(a');
    }
  }

  /** The union's keys are exactly those of `a` and of `b`. */
  lemma {:induction false} KeysUpdate<V>(a: Dict<V>, b: Dict<V>, k: string)
    ensures k in Keys(Update(a, b)) <==> k in Keys(a) || k in Keys(b)
    decreases |b|
  {
    if b != [] {
      var a', b' := Set(a, b[0].0, b[0].1), b[1..];
      assert Update(a, b) == Update(a', b');
      KeysSet(a, b[0].0, b[0].1);
      assert k in Keys(a') <==> k in Keys(a) || k == b[0].0;
      KeysUpdate(a', b', k);
      KeysCons(b, k);
    }
  }

  /** The test "not yet a key of `a`". */
  function Lacks<V>(a: Dict<V>): string -> bool {
    k => k !in Keys(a)
  }

  /** The union's keys are those of `a`, in their order, followed by the
      keys `b` adds, in `b`'s order. */
  lemma {:induction false} KeysUpdateOrder<V>(a: Dict<V>, b: Dict<V>)
    requires Unique(b)
    ensures Keys(Update(a, b)) == Keys(a) + Filter(Lacks(a), Keys(b))
    decreases |b|
  {
    if b == [] {
      assert Keys(b) == [];
    } else {
      var a', b' := Set(a, b[0].0, b[0].1), b[1..];
      assert Update(a, b) == Update(a', b');
      UniqueTail(b);
      KeysSet(a, b[0].0, b[0].1);
      KeysUpdateOrder(a', b');
      assert Keys(b)[1..] == Keys(b') && Keys(b)[0] == b[0].0;
      FilterAgree(Lacks(a'), Lacks(a), Keys(b'));
      var tail := Filter(Lacks(a), Keys(b'));
      assert Keys(Update(a, b)) == Keys(a') + tail;
      if b[0].0 in Keys(a) {
        assert Filter(Lacks(a), Keys(b)) == tail;
        assert Keys(a') == Keys(a);
      } else {
        assert Filter(Lacks(a), Keys(b)) == [b[0].0] + tail;
        assert Keys(a') == Keys(a) + [b[0].0];
        ConcatAssoc(Keys(a), [b[0].0], tail);
      }
    }
  }
}
