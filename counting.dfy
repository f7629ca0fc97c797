/**
  Python dictionaries from strings to counts, as the three programs use them:
  `d[k] = d.get(k, 0) + 1` in a loop. A dictionary remembers the order in which
  its keys were first inserted, and both the stable sort of the stacked chart
  and the bar order of the section chart depend on that order, so a dictionary
  is a key sequence in insertion order together with a map.
*/
module Counting {

  datatype Dict = Dict(keys: seq<string>, vals: map<string, int>)

  /** The keys are exactly the map's domain, each listed once. */
  predicate Valid(d: Dict) {
    && (forall k :: k in d.vals ==> k in d.keys)
    && (forall k :: k in d.keys ==> k in d.vals)
    && (forall i, j :: 0 <= i < j < |d.keys| ==> d.keys[i] != d.keys[j])
  }

  const Empty: Dict := Dict([], map[])

  /** `d.get(k, default)` */
  function Get(d: Dict, k: string, default: int): int {
    if k in d.vals then d.vals[k] else default
  }

  /** `d[k] = v`: an existing key keeps its place, a new key goes last. */
  function Put(d: Dict, k: string, v: int): (r: Dict)
    requires Valid(d)
    ensures Valid(r)
    ensures r.vals == d.vals[k := v]
    ensures r.keys == if k in d.vals then d.keys else d.keys + [k]
  {
    if k in d.vals then Dict(d.keys, d.vals[k := v]) else Dict(d.keys + [k], d.vals[k := v])
  }

  /** `d[k] = d.get(k, 0) + 1` */
  function Increment(d: Dict, k: string): Dict
    requires Valid(d)
  {
    Put(d, k, Get(d, k, 0) + 1)
  }

  /** The dictionary that counting the elements of `s` one by one, from the
      first to the last, produces. */
  function Tally(s: seq<string>): (r: Dict)
    ensures Valid(r)
  {
    if s == [] then Empty else Increment(Tally(s[..|s| - 1]), s[|s| - 1])
  }

  /** `[d[k] for k in d]`: the values in key order. */
  function Values(d: Dict): (r: seq<int>)
    requires Valid(d)
    ensures |r| == |d.keys|
  {
    seq(|d.keys|, i requires 0 <= i < |d.keys| => d.vals[d.keys[i]])
  }

  /** `sum(s)` */
  function SeqSum(s: seq<int>): int {
    if s == [] then 0 else SeqSum(s[..|s| - 1]) + s[|s| - 1]
  }

  /** The position of the first occurrence of `x` in `s`, or `|s|` when absent. */
  function FirstIndex(s: seq<string>, x: string): (r: nat)
    ensures r <= |s|
    ensures r < |s| <==> x in s
  {
    if s == [] then 0 else if s[0] == x then 0 else 1 + FirstIndex(s[1..], x)
  }

  /** `d[k] += 1` for a present key and `d[k] = 1` for a new one are both `Increment`. */
  lemma IncrementCases(d: Dict, k: string)
    requires Valid(d)
    ensures k in d.vals ==> Increment(d, k) == Put(d, k, d.vals[k] + 1)
    ensures k !in d.vals ==> Increment(d, k) == Put(d, k, 1)
  {
  }

  /** The tally has a key for exactly the elements of `s`, and each key
      counts the elements equal to it. */
  lemma {:induction false} TallyCounts(s: seq<string>)
    ensures forall k :: k in Tally(s).vals <==> k in s
    ensures forall k :: k in Tally(s).vals ==> Tally(s).vals[k] == multiset(s)[k]
  {
    if s != [] {
      var p, x := s[..|s| - 1], s[|s| - 1];
      assert s == p + [x];
      TallyCounts(p);
      var t, tp := Tally(s), Tally(p);
      assert t == Increment(tp, x) by {
        TallySnoc(p, x);
      }
      assert multiset(s) == multiset(p) + multiset{x};
      forall k ensures k in t.vals <==> k in s {
        assert k in s <==> k in p || k == x;
      }
      forall k | k in t.vals ensures t.vals[k] == multiset(s)[k] {
        if k != x {
          assert k in tp.vals;
        }
      }
    }
  }

  lemma {:induction false} FirstIndexAppend(s: seq<string>, x: string, y: string)
    requires x in s
    ensures FirstIndex(s + [y], x) == FirstIndex(s, x)
  {
    if s[0] != x {
      assert (s + [y])[1..] == s[1..] + [y];
      FirstIndexAppend(s[1..], x, y);
    }
  }

  lemma {:induction false} FirstIndexOfNew(s: seq<string>, x: string)
    requires x !in s
    ensures FirstIndex(s + [x], x) == |s|
  {
    if s != [] {
      assert (s + [x])[1..] == s[1..] + [x];
      FirstIndexOfNew(s[1..], x);
    }
  }

  /** `keys` are listed in the order in which they first occur in `s`. */
  predicate InFirstOccurrenceOrder(keys: seq<string>, s: seq<string>) {
    forall i, j :: 0 <= i < j < |keys| ==> FirstIndex(s, keys[i]) < FirstIndex(s, keys[j])
  }

  /** Appending to `s` keeps the order of keys already in it, and an element
      new to `s` may be listed after them. */
  lemma FirstOccurrenceOrderSnoc(keys: seq<string>, s: seq<string>, x: string)
    requires InFirstOccurrenceOrder(keys, s)
    requires forall k :: k in keys ==> k in s
    ensures InFirstOccurrenceOrder(keys, s + [x])
    ensures x !in s ==> InFirstOccurrenceOrder(keys + [x], s + [x])
  {
    forall k | k in keys ensures FirstIndex(s, k) < |s| && FirstIndex(s + [x], k) == FirstIndex(s, k) {
      FirstIndexAppend(s, k, x);
    }
    if x !in s {
      FirstIndexOfNew(s, x);
      var ks := keys + [x];
      forall i, j | 0 <= i < j < |ks| ensures FirstIndex(s + [x], ks[i]) < FirstIndex(s + [x], ks[j]) {
        assert ks[i] == keys[i] && ks[i] in keys;
        if j < |keys| {
          assert ks[j] == keys[j] && ks[j] in keys;
        }
      }
    }
  }

  /** The keys of the tally are listed in the order in which they first occur in `s`. */
  lemma {:induction false} TallyKeyOrder(s: seq<string>)
    ensures InFirstOccurrenceOrder(Tally(s).keys, s)
  {
    if s != [] {
      var p, x := s[..|s| - 1], s[|s| - 1];
      assert s == p + [x];
      var d, dp := Tally(s), Tally(p);
      assert d.keys == if x in p then dp.keys else dp.keys + [x] by {
        TallySnoc(p, x);
        TallyCounts(p);
      }
      TallyKeyOrder(p);
      assert forall k :: k in dp.keys ==> k in p by {
        TallyCounts(p);
      }
      FirstOccurrenceOrderSnoc(dp.keys, p, x);
    }
  }

  lemma {:induction false} SeqSumBump(s: seq<int>, i: nat)
    requires i < |s|
    ensures SeqSum(s[i := s[i] + 1]) == SeqSum(s) + 1
  {
    var t := s[i := s[i] + 1];
    if i < |s| - 1 {
      assert t[..|t| - 1] == s[..|s| - 1][i := s[i] + 1];
      SeqSumBump(s[..|s| - 1], i);
    } else {
      assert t[..|t| - 1] == s[..|s| - 1];
    }
  }

  lemma IncrementValues(d: Dict, k: string)
    requires Valid(d)
    ensures SeqSum(Values(Increment(d, k))) == SeqSum(Values(d)) + 1
  {
    if k in d.vals {
      var i :| 0 <= i < |d.keys| && d.keys[i] == k;
      var v := Values(d);
      assert Values(Increment(d, k)) == v[i := v[i] + 1] by {
        IncrementPresentValues(d, i);
      }
      SeqSumBump(v, i);
    } else {
      var v := Values(d);
      assert Values(Increment(d, k)) == v + [1] by {
        IncrementNewValues(d, k);
      }
      assert (v + [1])[..|v|] == v;
    }
  }

  lemma IncrementPresentValues(d: Dict, i: nat)
    requires Valid(d) && i < |d.keys|
    ensures Values(Increment(d, d.keys[i])) == Values(d)[i := Values(d)[i] + 1]
  {
    var k := d.keys[i];
    var r := Increment(d, k);
    assert r.keys == d.keys && r.vals == d.vals[k := d.vals[k] + 1];
    forall j | 0 <= j < |d.keys| ensures Values(r)[j] == Values(d)[i := Values(d)[i] + 1][j] {
      if j != i {
        assert d.keys[j] != k;
      }
    }
  }

  lemma IncrementNewValues(d: Dict, k: string)
    requires Valid(d) && k !in d.vals
    ensures Values(Increment(d, k)) == Values(d) + [1]
  {
    var r := Increment(d, k);
    var v, vr := Values(d), Values(r);
    assert r.keys == d.keys + [k] && r.vals == d.vals[k := 1];
    forall j | 0 <= j < |vr| ensures vr[j] == (v + [1])[j] {
      if j < |v| {
        assert r.keys[j] == d.keys[j] && d.keys[j] != k;
      }
    }
    assert vr == v + [1];
  }

  /** The counts of the tally add up to the length of `s`. */
  lemma {:induction false} TallySum(s: seq<string>)
    ensures SeqSum(Values(Tally(s))) == |s|
  {
    if s != [] {
      TallySum(s[..|s| - 1]);
      IncrementValues(Tally(s[..|s| - 1]), s[|s| - 1]);
    }
  }

  /** Counting one more element extends the tally of the prefix. */
  lemma TallySnoc(s: seq<string>, x: string)
    ensures Tally(s + [x]) == Increment(Tally(s), x)
  {
    assert (s + [x])[..|s|] == s;
  }

  /** Counting the prefix one element further extends its tally. */
  lemma TallyPrefix(s: seq<string>, i: nat)
    requires i < |s|
    ensures Tally(s[..i + 1]) == Increment(Tally(s[..i]), s[i])
  {
    assert s[..i + 1][..i] == s[..i];
  }

  /** One element is counted once. */
  lemma TallySingle(t: string)
    ensures var d := Tally([t]);
      d.keys == [t] && t in d.vals && d.vals[t] == 1
  {
    assert [t][..0] == [];
  }

  /** Counting a key that is already present keeps the key order and adds one to its count. */
  lemma IncrementPresent(d: Dict, k: string)
    requires Valid(d) && k in d.vals
    ensures var r := Increment(d, k);
      r.keys == d.keys && k in r.vals && r.vals[k] == d.vals[k] + 1
  {
  }

  /** The same element twice is one key counted twice. */
  lemma TallyPair(t: string)
    ensures var d := Tally([t, t]);
      d.keys == [t] && t in d.vals && d.vals[t] == 2
  {
    var s := [t, t];
    assert s[..2] == s && s[..1] == [t];
    TallyPrefix(s, 1);
    TallySingle(t);
    IncrementPresent(Tally([t]), t);
  }
}
