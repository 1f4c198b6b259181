/** Counting entities by a key, as the `query count` and `info domains`
    commands do: a `Map` from key to count filled in one pass (keys in order
    of first appearance, as a JavaScript `Map` keeps them), then listed and
    sorted by decreasing count with the stable `Array.prototype.sort`. */
module Grouping {
  import opened Seqs

  datatype KeyCount = KeyCount(name: string, count: nat)

  /** No key is listed twice. */
  predicate DistinctNames(t: seq<KeyCount>) {
    forall i, j :: 0 <= i < j < |t| ==> t[i].name != t[j].name
  }

  function Names(t: seq<KeyCount>): set<string> {
    set e | e in t :: e.name
  }

  /** The count listed for `key`, 0 when it is absent. */
  function CountOf(t: seq<KeyCount>, key: string): nat {
    if |t| == 0 then 0
    else (if t[0].name == key then t[0].count else 0) + CountOf(t[1..], key)
  }

  /** The sum of all counts. */
  function Total(t: seq<KeyCount>): nat {
    if |t| == 0 then 0 else t[0].count + Total(t[1..])
  }

  /** A list with a head is free of repeated keys iff its tail is and the
      head's key is not in the tail. */
  lemma DistinctCons(h: KeyCount, t: seq<KeyCount>)
    ensures DistinctNames([h] + t) <==> h.name !in Names(t) && DistinctNames(t)
    ensures Names([h] + t) == {h.name} + Names(t)
  {
    var r := [h] + t;
    if DistinctNames(r) {
      forall e | e in t ensures e.name != h.name {
        var k :| 0 <= k < |t| && t[k] == e;
        assert r[0] == h && r[k + 1] == e;
        assert r[0].name != r[k + 1].name;
      }
      forall i, j | 0 <= i < j < |t| ensures t[i].name != t[j].name {
        assert r[i + 1] == t[i] && r[j + 1] == t[j];
      }
    }
    if h.name !in Names(t) && DistinctNames(t) {
      forall i, j | 0 <= i < j < |r| ensures r[i].name != r[j].name {
        if i == 0 {
          assert r[j] in t;
        } else {
          assert r[i] == t[i - 1] && r[j] == t[j - 1];
        }
      }
    }
    forall n ensures n in Names(r) <==> n == h.name || n in Names(t) {
      if n in Names(t) {
        var e :| e in t && e.name == n;
        assert e in r;
      }
      if n in Names(r) {
        var e :| e in r && e.name == n;
        assert e == h || e in t;
      }
    }
  }

  // ---------------------------------------------------------------------
  // One pass of counting
  // ---------------------------------------------------------------------

  /** `counts.set(key, (counts.get(key) || 0) + 1)`: an existing key keeps
      its place, a new key goes at the end. */
  function Bump(t: seq<KeyCount>, key: string): seq<KeyCount> {
    if |t| == 0 then [KeyCount(key, 1)]
    else if t[0].name == key then [KeyCount(key, t[0].count + 1)] + t[1..]
    else [t[0]] + Bump(t[1..], key)
  }

  /** The map after counting every key of `keys`, in the map's order. */
  function Tally(keys: seq<string>): seq<KeyCount> {
    if |keys| == 0 then [] else Bump(Tally(keys[..|keys| - 1]), keys[|keys| - 1])
  }

  /** One bump adds one to the bumped key and nothing elsewhere, keeps the
      keys distinct, and adds the key when it is new. */
  lemma BumpFacts(t: seq<KeyCount>, key: string)
    requires DistinctNames(t)
    ensures DistinctNames(Bump(t, key))
    ensures forall k :: CountOf(Bump(t, key), k) == CountOf(t, k) + (if k == key then 1 else 0)
    ensures Total(Bump(t, key)) == Total(t) + 1
    ensures Names(Bump(t, key)) == Names(t) + {key}
    ensures (forall e :: e in t ==> e.count > 0) ==> forall e :: e in Bump(t, key) ==> e.count > 0
  {
    BumpKeys(t, key);
    forall k ensures CountOf(Bump(t, key), k) == CountOf(t, k) + (if k == key then 1 else 0) {
      BumpCount(t, key, k);
    }
    BumpTotal(t, key);
    BumpPositive(t, key);
  }

  lemma {:induction false} BumpKeys(t: seq<KeyCount>, key: string)
    requires DistinctNames(t)
    ensures DistinctNames(Bump(t, key))
    ensures Names(Bump(t, key)) == Names(t) + {key}
  {
    if |t| > 0 {
      var rest := t[1..];
      assert t == [t[0]] + rest;
      DistinctCons(t[0], rest);
      var r := Bump(t, key);
      if t[0].name == key {
        assert r == [KeyCount(key, t[0].count + 1)] + rest;
        DistinctCons(KeyCount(key, t[0].count + 1), rest);
      } else {
        BumpKeys(rest, key);
        assert r == [t[0]] + Bump(rest, key);
        DistinctCons(t[0], Bump(rest, key));
      }
    }
  }

  lemma {:induction false} BumpCount(t: seq<KeyCount>, key: string, k: string)
    ensures CountOf(Bump(t, key), k) == CountOf(t, k) + (if k == key then 1 else 0)
  {
    if |t| > 0 {
      var r := Bump(t, key);
      if t[0].name == key {
        assert r[1..] == t[1..];
      } else {
        BumpCount(t[1..], key, k);
        assert r[1..] == Bump(t[1..], key);
      }
    }
  }

  lemma {:induction false} BumpTotal(t: seq<KeyCount>, key: string)
    ensures Total(Bump(t, key)) == Total(t) + 1
  {
    if |t| > 0 {
      var r := Bump(t, key);
      if t[0].name == key {
        assert r[1..] == t[1..];
      } else {
        BumpTotal(t[1..], key);
        assert r[1..] == Bump(t[1..], key);
      }
    }
  }

  lemma {:induction false} BumpPositive(t: seq<KeyCount>, key: string)
    ensures (forall e :: e in t ==> e.count > 0) ==> forall e :: e in Bump(t, key) ==> e.count > 0
  {
    if |t| > 0 && t[0].name != key {
      BumpPositive(t[1..], key);
      assert forall e :: e in t[1..] ==> e in t;
      assert Bump(t, key) == [t[0]] + Bump(t[1..], key);
    }
  }

  /** Counting `keys` lists each distinct key once, with the number of times
      it occurs; every listed count is positive and they add up to `|keys|`. */
  lemma {:induction false} TallyFacts(keys: seq<string>)
    ensures DistinctNames(Tally(keys))
    ensures forall k :: CountOf(Tally(keys), k) == multiset(keys)[k]
    ensures Total(Tally(keys)) == |keys|
    ensures Names(Tally(keys)) == set k | k in keys
    ensures forall e :: e in Tally(keys) ==> e.count > 0
  {
    if |keys| > 0 {
      var init, last := keys[..|keys| - 1], keys[|keys| - 1];
      TallyFacts(init);
      BumpFacts(Tally(init), last);
      assert keys == init + [last];
      assert multiset(keys) == multiset(init) + multiset{last};
    }
  }

  /** With distinct keys, the count listed for a key is the count of its entry. */
  lemma {:induction false} CountOfEntry(t: seq<KeyCount>, i: nat)
    requires DistinctNames(t) && i < |t|
    ensures CountOf(t, t[i].name) == t[i].count
  {
    if i == 0 {
      CountOfAbsent(t[1..], t[0].name);
    } else {
      assert DistinctNames(t[1..]);
      CountOfEntry(t[1..], i - 1);
    }
  }

  lemma {:induction false} CountOfAbsent(t: seq<KeyCount>, key: string)
    requires forall e :: e in t ==> e.name != key
    ensures CountOf(t, key) == 0
  {
    if |t| > 0 {
      assert t[0] in t;
      assert forall e :: e in t[1..] ==> e in t;
      CountOfAbsent(t[1..], key);
    }
  }

  /** A list with distinct keys has one entry per key. */
  lemma {:induction false} DistinctLength(t: seq<KeyCount>)
    requires DistinctNames(t)
    ensures |Names(t)| == |t|
  {
    if |t| > 0 {
      var rest := t[1..];
      assert t == [t[0]] + rest;
      DistinctCons(t[0], rest);
      DistinctLength(rest);
    }
  }

  /** The counting loop of the commands. */
  method CountKeys(keys: seq<string>) returns (counts: seq<KeyCount>)
    ensures counts == Tally(keys)
  {
    counts := [];
    var i := 0;
    while i < |keys|
      invariant 0 <= i <= |keys|
      invariant counts == Tally(keys[..i])
    {
      assert keys[..i + 1][..i] == keys[..i];
      counts := Bump(counts, keys[i]);
      i := i + 1;
    }
    assert keys[..i] == keys;
  }

  // ---------------------------------------------------------------------
  // Sorting by decreasing count
  // ---------------------------------------------------------------------

  predicate SortedByCountDesc(t: seq<KeyCount>) {
    forall i, j :: 0 <= i < j < |t| ==> t[i].count >= t[j].count
  }

  /** Insert `x` after every entry with a larger count, before the others. */
  function InsertDesc(x: KeyCount, ys: seq<KeyCount>): seq<KeyCount> {
    if |ys| == 0 || ys[0].count <= x.count then [x] + ys
    else [ys[0]] + InsertDesc(x, ys[1..])
  }

  /** `sort((a, b) => b.count - a.count)` on a stable sort. */
  function SortByCountDesc(xs: seq<KeyCount>): seq<KeyCount> {
    if |xs| == 0 then [] else InsertDesc(xs[0], SortByCountDesc(xs[1..]))
  }

  lemma InsertDescFacts(x: KeyCount, ys: seq<KeyCount>)
    requires SortedByCountDesc(ys)
    ensures SortedByCountDesc(InsertDesc(x, ys))
    ensures multiset(InsertDesc(x, ys)) == multiset{x} + multiset(ys)
    ensures Total(InsertDesc(x, ys)) == x.count + Total(ys)
  {
    InsertDescSorted(x, ys);
    InsertDescMultiset(x, ys);
    InsertDescTotal(x, ys);
  }

  lemma {:induction false} InsertDescSorted(x: KeyCount, ys: seq<KeyCount>)
    requires SortedByCountDesc(ys)
    ensures SortedByCountDesc(InsertDesc(x, ys))
  {
    if |ys| > 0 && ys[0].count > x.count {
      var rest := ys[1..];
      assert SortedByCountDesc(rest) by {
        forall i, j | 0 <= i < j < |rest| ensures rest[i].count >= rest[j].count {
          assert rest[i] == ys[i + 1] && rest[j] == ys[j + 1];
        }
      }
      InsertDescSorted(x, rest);
      var s := InsertDesc(x, rest);
      assert InsertDesc(x, ys) == [ys[0]] + s;
      HeadBoundsSorted(ys);
      InsertDescMembers(x, rest);
      assert forall e :: e in rest ==> e in ys;
      SortedCons(ys[0], s);
    } else if |ys| > 0 {
      HeadBoundsSorted(ys);
      SortedCons(x, ys);
    }
  }

  lemma {:induction false} InsertDescMultiset(x: KeyCount, ys: seq<KeyCount>)
    ensures multiset(InsertDesc(x, ys)) == multiset{x} + multiset(ys)
  {
    if |ys| > 0 && ys[0].count > x.count {
      InsertDescMultiset(x, ys[1..]);
      assert ys == [ys[0]] + ys[1..];
      assert InsertDesc(x, ys) == [ys[0]] + InsertDesc(x, ys[1..]);
    }
  }

  lemma {:induction false} InsertDescTotal(x: KeyCount, ys: seq<KeyCount>)
    ensures Total(InsertDesc(x, ys)) == x.count + Total(ys)
  {
    if |ys| > 0 && ys[0].count > x.count {
      InsertDescTotal(x, ys[1..]);
      assert InsertDesc(x, ys)[1..] == InsertDesc(x, ys[1..]);
    } else {
      assert InsertDesc(x, ys)[1..] == ys;
    }
  }

  /** An insertion holds the inserted entry and the old ones, nothing else. */
  lemma {:induction false} InsertDescMembers(x: KeyCount, ys: seq<KeyCount>)
    ensures forall e :: e in InsertDesc(x, ys) ==> e == x || e in ys
  {
    if |ys| > 0 && ys[0].count > x.count {
      InsertDescMembers(x, ys[1..]);
      assert InsertDesc(x, ys) == [ys[0]] + InsertDesc(x, ys[1..]);
      assert forall e :: e in ys[1..] ==> e in ys;
    }
  }

  /** The head of a sorted list has the largest count. */
  lemma HeadBoundsSorted(ys: seq<KeyCount>)
    requires SortedByCountDesc(ys) && |ys| > 0
    ensures forall e :: e in ys ==> ys[0].count >= e.count
  {
    forall e | e in ys ensures ys[0].count >= e.count {
      var k :| 0 <= k < |ys| && ys[k] == e;
      if k > 0 {
        assert ys[0].count >= ys[k].count;
      }
    }
  }

  lemma SortedCons(h: KeyCount, t: seq<KeyCount>)
    requires SortedByCountDesc(t) && forall e :: e in t ==> h.count >= e.count
    ensures SortedByCountDesc([h] + t)
  {
    var r := [h] + t;
    forall i, j | 0 <= i < j < |r| ensures r[i].count >= r[j].count {
      if i == 0 {
        assert r[j] in t;
      } else {
        assert r[i] == t[i - 1] && r[j] == t[j - 1];
      }
    }
  }

  /** The sort gives a permutation of its input in non-increasing count. */
  lemma {:induction false} SortFacts(xs: seq<KeyCount>)
    ensures SortedByCountDesc(SortByCountDesc(xs))
    ensures multiset(SortByCountDesc(xs)) == multiset(xs)
    ensures Total(SortByCountDesc(xs)) == Total(xs)
  {
    if |xs| > 0 {
      SortFacts(xs[1..]);
      InsertDescFacts(xs[0], SortByCountDesc(xs[1..]));
      assert xs == [xs[0]] + xs[1..];
    }
  }

  function WithCount(c: nat): KeyCount -> bool {
    (e: KeyCount) => e.count == c
  }

  lemma {:induction false} InsertDescStable(x: KeyCount, ys: seq<KeyCount>, c: nat)
    requires SortedByCountDesc(ys)
    ensures Filter(InsertDesc(x, ys), WithCount(c))
         == (if x.count == c then [x] else []) + Filter(ys, WithCount(c))
  {
    if |ys| > 0 && ys[0].count > x.count {
      InsertDescStable(x, ys[1..], c);
      assert InsertDesc(x, ys)[1..] == InsertDesc(x, ys[1..]);
      if x.count == c {
        assert !WithCount(c)(ys[0]);
        FilterEmptyOfSorted(ys, c);
      }
    }
  }

  /** In a sorted list whose head has a larger count than `c`, no entry
      before the first entry of count `c` has count `c` — stated as: the
      filtered list starts after the head. */
  lemma FilterEmptyOfSorted(ys: seq<KeyCount>, c: nat)
    requires |ys| > 0 && ys[0].count > c
    ensures Filter(ys, WithCount(c)) == Filter(ys[1..], WithCount(c))
  {
  }

  /** Stability: among entries of equal count the input order is kept. */
  lemma {:induction false} SortStable(xs: seq<KeyCount>, c: nat)
    ensures Filter(SortByCountDesc(xs), WithCount(c)) == Filter(xs, WithCount(c))
  {
    if |xs| > 0 {
      SortStable(xs[1..], c);
      SortFacts(xs[1..]);
      InsertDescStable(xs[0], SortByCountDesc(xs[1..]), c);
    }
  }

  lemma {:induction false} InsertDescDistinct(x: KeyCount, ys: seq<KeyCount>)
    requires DistinctNames(ys) && x.name !in Names(ys)
    ensures DistinctNames(InsertDesc(x, ys))
    ensures Names(InsertDesc(x, ys)) == Names(ys) + {x.name}
  {
    DistinctCons(x, ys);
    if |ys| > 0 && ys[0].count > x.count {
      var rest := ys[1..];
      assert ys == [ys[0]] + rest;
      DistinctCons(ys[0], rest);
      InsertDescDistinct(x, rest);
      DistinctCons(ys[0], InsertDesc(x, rest));
    }
  }

  /** Sorting keeps the keys, and keeps them distinct. */
  lemma {:induction false} SortDistinct(xs: seq<KeyCount>)
    requires DistinctNames(xs)
    ensures DistinctNames(SortByCountDesc(xs))
    ensures Names(SortByCountDesc(xs)) == Names(xs)
  {
    if |xs| > 0 {
      assert xs == [xs[0]] + xs[1..];
      DistinctCons(xs[0], xs[1..]);
      SortDistinct(xs[1..]);
      InsertDescDistinct(xs[0], SortByCountDesc(xs[1..]));
    }
  }

  // ---------------------------------------------------------------------
  // The listing both commands print
  // ---------------------------------------------------------------------

  /** Count `keys` and sort by decreasing count. */
  function CountByKey(keys: seq<string>): seq<KeyCount> {
    SortByCountDesc(Tally(keys))
  }

  /** One row per distinct key, with the number of its occurrences, rows in
      non-increasing count, and the counts adding up to `|keys|`. */
  lemma CountByKeyFacts(keys: seq<string>)
    ensures var rows := CountByKey(keys);
      && DistinctNames(rows)
      && SortedByCountDesc(rows)
      && (forall i :: 0 <= i < |rows| ==> rows[i].count == multiset(keys)[rows[i].name] > 0)
      && Names(rows) == (set k | k in keys)
      && |rows| == |set k | k in keys|
      && Total(rows) == |keys|
  {
    var t := Tally(keys);
    var rows := CountByKey(keys);
    TallyFacts(keys);
    SortFacts(t);
    SortDistinct(t);
    DistinctLength(rows);
    forall i | 0 <= i < |rows| ensures rows[i].count == multiset(keys)[rows[i].name] > 0 {
      assert rows[i] in multiset(t);
      var p :| 0 <= p < |t| && t[p] == rows[i];
      CountOfEntry(t, p);
      assert t[p] in t;
    }
  }
}
