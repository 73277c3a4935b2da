/**
 * The result shaping done by `enrich_data`: the term names (column 1) and one chosen
 * column are taken from every record, and both are reordered by one argsort permutation.
 */
module Ranking {
  import opened Outcomes

  /** One entry of a record as parsed from the response. */
  datatype Cell = Num(x: real) | Text(s: string) | Strings(items: seq<string>)

  /** One enriched term: index, name, p-value, adjusted p-value, z-score, combined score, ... */
  type Record = seq<Cell>

  /** The two parallel lists `enrich_data` returns. */
  datatype Ranked = Ranked(names: seq<Cell>, values: seq<Cell>)

  const NameColumn: nat := 1
  const PValue: nat := 2
  const CombinedScore: nat := 5

  /** `-1` for the combined score, `1` for every other column. */
  function SortSign(field: int): int
  {
    if field == CombinedScore then -1 else 1
  }

  /** Python's `k * xs` on a list: `xs` repeated `k` times, the empty list when `k <= 0`. */
  function Repeat<T>(xs: seq<T>, k: int): (r: seq<T>)
    ensures |r| == if k <= 0 then 0 else k * |xs|
    decreases k
  {
    if k <= 0 then []
    else
      var rest := Repeat(xs, k - 1);
      assert |xs + rest| == |xs| + (k - 1) * |xs| == k * |xs|;
      xs + rest
  }

  /** `sort_sign * values` is a copy of `values`, except for the combined score, where it is empty. */
  lemma SignedKeys<T>(values: seq<T>, field: int)
    ensures Repeat(values, SortSign(field)) == if field == CombinedScore then [] else values
  {
    if field != CombinedScore {
      assert Repeat(values, 1) == values + [];
    }
  }

  /** Column `c` of every record, in record order. */
  function Column(data: seq<Record>, c: nat): seq<Cell>
    requires forall i :: 0 <= i < |data| ==> c < |data[i]|
  {
    seq(|data|, i requires 0 <= i < |data| => data[i][c])
  }

  predicate HasColumns(data: seq<Record>, field: nat)
  {
    forall i :: 0 <= i < |data| ==> NameColumn < |data[i]| && field < |data[i]|
  }

  predicate AllNumeric(cells: seq<Cell>)
  {
    forall i :: 0 <= i < |cells| ==> cells[i].Num?
  }

  function Keys(cells: seq<Cell>): seq<real>
    requires AllNumeric(cells)
  {
    seq(|cells|, i requires 0 <= i < |cells| => cells[i].x)
  }

  /** The keys with their signs flipped. */
  function Negated(keys: seq<real>): seq<real>
  {
    seq(|keys|, i requires 0 <= i < |keys| => -keys[i])
  }

  // ---------------------------------------------------------------- permutations

  /** The indices 0, 1, ..., n - 1. */
  function Range(n: nat): seq<int>
  {
    seq(n, i => i)
  }

  predicate InBounds(p: seq<int>, n: int)
  {
    forall k :: 0 <= k < |p| ==> 0 <= p[k] < n
  }

  /** `p` holds every index below `n` exactly once. */
  predicate IsPermutation(p: seq<int>, n: nat)
  {
    multiset(p) == multiset(Range(n))
  }

  /** Reading `keys` in the order `p` gives non-decreasing values. */
  predicate SortedBy(keys: seq<real>, p: seq<int>)
    requires InBounds(p, |keys|)
  {
    forall a, b :: 0 <= a < b < |p| ==> keys[p[a]] <= keys[p[b]]
  }

  /** `[s[i] for i in p]`. */
  function Permute<T>(s: seq<T>, p: seq<int>): seq<T>
    requires InBounds(p, |s|)
  {
    seq(|p|, k requires 0 <= k < |p| => s[p[k]])
  }

  // ---------------------------------------------------------------- argsort

  /** Places index `j` into the index list `p` before the first index whose key is at least `keys[j]`. */
  function Insert(keys: seq<real>, p: seq<int>, j: int): (r: seq<int>)
    requires 0 <= j < |keys| && InBounds(p, |keys|)
    ensures InBounds(r, |keys|)
  {
    if p == [] || keys[j] <= keys[p[0]] then [j] + p
    else [p[0]] + Insert(keys, p[1..], j)
  }

  /** Inserting adds one copy of `j` and nothing else. */
  lemma {:induction false} InsertMultiset(keys: seq<real>, p: seq<int>, j: int)
    requires 0 <= j < |keys| && InBounds(p, |keys|)
    ensures multiset(Insert(keys, p, j)) == multiset(p) + multiset{j}
  {
    if p != [] && keys[p[0]] < keys[j] {
      InsertMultiset(keys, p[1..], j);
      assert p == [p[0]] + p[1..];
    }
  }

  /** A lower bound of every key in `p` and of `keys[j]` bounds every key after the insertion. */
  lemma {:induction false} InsertAbove(keys: seq<real>, p: seq<int>, j: int, lo: real)
    requires 0 <= j < |keys| && InBounds(p, |keys|)
    requires lo <= keys[j] && forall k :: 0 <= k < |p| ==> lo <= keys[p[k]]
    ensures forall k :: 0 <= k < |Insert(keys, p, j)| ==> lo <= keys[Insert(keys, p, j)[k]]
  {
    if p != [] && keys[p[0]] < keys[j] {
      InsertAbove(keys, p[1..], j, lo);
    }
  }

  /** Inserting into a key-ordered index list keeps it key-ordered. */
  lemma {:induction false} InsertSorted(keys: seq<real>, p: seq<int>, j: int)
    requires 0 <= j < |keys| && InBounds(p, |keys|) && SortedBy(keys, p)
    ensures SortedBy(keys, Insert(keys, p, j))
  {
    if p != [] && keys[p[0]] < keys[j] {
      var rest := Insert(keys, p[1..], j);
      InsertSorted(keys, p[1..], j);
      InsertAbove(keys, p[1..], j, keys[p[0]]);
      var r := Insert(keys, p, j);
      assert r == [p[0]] + rest;
      forall a, b | 0 <= a < b < |r| ensures keys[r[a]] <= keys[r[b]] {
        if a > 0 {
          assert r[a] == rest[a - 1] && r[b] == rest[b - 1];
        } else {
          assert r[b] == rest[b - 1];
        }
      }
    }
  }

  lemma RangeSnoc(m: nat)
    requires 0 < m
    ensures multiset(Range(m)) == multiset(Range(m - 1)) + multiset{m - 1}
  {
    assert Range(m) == Range(m - 1) + [m - 1];
  }

  /** Adding the index `m - 1` to a permutation of the indices below `m - 1`. */
  lemma PermutesOneMore(prev: seq<int>, next: seq<int>, m: nat)
    requires 0 < m && multiset(prev) == multiset(Range(m - 1))
    requires multiset(next) == multiset(prev) + multiset{m - 1}
    ensures multiset(next) == multiset(Range(m))
  {
    RangeSnoc(m);
  }

  /** The indices below `m`, ordered by their keys. */
  function SortPrefix(keys: seq<real>, m: nat): (p: seq<int>)
    requires m <= |keys|
    ensures InBounds(p, |keys|)
  {
    if m == 0 then [] else Insert(keys, SortPrefix(keys, m - 1), m - 1)
  }

  /** The prefix order holds every index below `m` exactly once. */
  lemma {:induction false} SortPrefixPermutes(keys: seq<real>, m: nat)
    requires m <= |keys|
    ensures multiset(SortPrefix(keys, m)) == multiset(Range(m))
  {
    if m > 0 {
      var prev := SortPrefix(keys, m - 1);
      SortPrefixPermutes(keys, m - 1);
      InsertMultiset(keys, prev, m - 1);
      PermutesOneMore(prev, SortPrefix(keys, m), m);
    }
  }

  lemma {:induction false} SortPrefixSorted(keys: seq<real>, m: nat)
    requires m <= |keys|
    ensures SortedBy(keys, SortPrefix(keys, m))
  {
    if m > 0 {
      var prev := SortPrefix(keys, m - 1);
      SortPrefixSorted(keys, m - 1);
      InsertSorted(keys, prev, m - 1);
    }
  }

  /**
   * `np.argsort`: a permutation of the indices of `keys` that reads them in non-decreasing
   * order. The order among equal keys is not part of what is promised.
   */
  function ArgSort(keys: seq<real>): (p: seq<int>)
    ensures |p| == |keys| && InBounds(p, |keys|)
    ensures IsPermutation(p, |keys|)
    ensures SortedBy(keys, p)
  {
    var p := SortPrefix(keys, |keys|);
    SortPrefixPermutes(keys, |keys|);
    SortPrefixSorted(keys, |keys|);
    assert |multiset(p)| == |multiset(Range(|keys|))|;
    p
  }

  /**
   * `r` lists, for each position `k`, the name and the `field` value of record `p[k]`, where
   * `p` is a permutation of the records.
   */
  predicate ReadThrough(data: seq<Record>, field: nat, r: Ranked, p: seq<int>)
  {
    && HasColumns(data, field)
    && |p| == |data| && InBounds(p, |data|) && IsPermutation(p, |data|)
    && |r.names| == |data| && |r.values| == |data|
    && forall k :: 0 <= k < |data| ==> r.names[k] == data[p[k]][NameColumn] && r.values[k] == data[p[k]][field]
  }

  lemma PermuteColumns(data: seq<Record>, field: nat, p: seq<int>)
    requires HasColumns(data, field) && |p| == |data| && InBounds(p, |data|) && IsPermutation(p, |data|)
    ensures ReadThrough(data, field, Ranked(Permute(Column(data, NameColumn), p), Permute(Column(data, field), p)), p)
  {
  }

  // ---------------------------------------------------------------- enrich_data

  /**
   * `enrich_data` on the records of one library, as written: the keys are `sort_sign * values`,
   * which for the combined score is the empty list.
   */
  function EnrichData(data: seq<Record>, field: int := PValue): Result<Ranked>
    requires 0 <= field && field != NameColumn
  {
    if !HasColumns(data, field) then Failure(ColumnMissing)
    else
      var names := Column(data, NameColumn);
      var values := Column(data, field);
      var keys := Repeat(values, SortSign(field));
      if !AllNumeric(keys) then Failure(NotNumeric)
      else
        var order := ArgSort(Keys(keys));
        Success(Ranked(Permute(names, order), Permute(values, order)))
  }

  /** Where the keys are a copy of the values, `EnrichData` reads both columns through one argsort. */
  lemma EnrichDataUnfold(data: seq<Record>, field: int)
    requires 0 <= field && field != NameColumn && field != CombinedScore
    requires HasColumns(data, field) && AllNumeric(Column(data, field))
    ensures var order := ArgSort(Keys(Column(data, field)));
      EnrichData(data, field) == Success(Ranked(Permute(Column(data, NameColumn), order), Permute(Column(data, field), order)))
  {
    SignedKeys(Column(data, field), field);
  }

  /**
   * `enrich_data` reports a missing column for any record too short to have column 1 or
   * column `field`; otherwise it fails only when it has to sort by a column that is not numeric.
   */
  lemma EnrichDataFails(data: seq<Record>, field: int)
    requires 0 <= field && field != NameColumn
    ensures EnrichData(data, field) == Failure(ColumnMissing) <==> !HasColumns(data, field)
    ensures EnrichData(data, field) == Failure(NotNumeric)
        <==> HasColumns(data, field) && field != CombinedScore && !AllNumeric(Column(data, field))
    ensures EnrichData(data, field).Failure? ==> EnrichData(data, field).error in {ColumnMissing, NotNumeric}
  {
    if HasColumns(data, field) {
      SignedKeys(Column(data, field), field);
    }
  }

  /**
   * For every column but the combined score: both lists have one entry per record, one
   * permutation of the records gives both (so every name stays paired with its own value),
   * and the values are non-decreasing.
   */
  lemma EnrichDataAscending(data: seq<Record>, field: int)
    requires 0 <= field && field != NameColumn && field != CombinedScore
    requires EnrichData(data, field).Success?
    ensures var r := EnrichData(data, field).value;
      && |r.names| == |data| && |r.values| == |data|
      && (exists p :: ReadThrough(data, field, r, p))
      && AllNumeric(r.values)
      && forall a, b :: 0 <= a < b < |data| ==> r.values[a].x <= r.values[b].x
  {
    var values := Column(data, field);
    SignedKeys(values, field);
    var order := ArgSort(Keys(values));
    EnrichDataUnfold(data, field);
    PermuteColumns(data, field, order);
  }

  /** For the combined score the source's `-1 * values` is empty, so nothing is returned. */
  lemma EnrichDataCombinedScore(data: seq<Record>)
    requires HasColumns(data, CombinedScore)
    ensures EnrichData(data, CombinedScore) == Success(Ranked([], []))
  {
    var values := Column(data, CombinedScore);
    SignedKeys(values, CombinedScore);
    var keys: seq<Cell> := [];
    assert Repeat(values, SortSign(CombinedScore)) == keys;
    assert Keys(keys) == [];
    var order := ArgSort(Keys(keys));
    assert order == [];
    assert AllNumeric(keys);
    assert Permute(Column(data, NameColumn), order) == [];
    assert Permute(values, order) == [];
  }

  // ---------------------------------------------------------------- pairs

  /** The (name, value) pairs of two parallel lists. */
  function Pairs(names: seq<Cell>, values: seq<Cell>): seq<(Cell, Cell)>
    requires |names| == |values|
  {
    seq(|names|, i requires 0 <= i < |names| => (names[i], values[i]))
  }

  /** Permuting two parallel lists permutes their pairs the same way. */
  lemma PairsPermute(names: seq<Cell>, values: seq<Cell>, p: seq<int>)
    requires |names| == |values| && InBounds(p, |names|)
    ensures Pairs(Permute(names, p), Permute(values, p)) == Permute(Pairs(names, values), p)
  {
  }

  /** Taking out the element at `i` takes one copy of it out of the multiset. */
  lemma RemoveAt<T>(t: seq<T>, i: int)
    requires 0 <= i < |t|
    ensures multiset(t) == multiset(t[..i] + t[i + 1..]) + multiset{t[i]}
  {
    assert t == t[..i] + [t[i]] + t[i + 1..];
  }

  lemma Cancel<T>(a: multiset<T>, b: multiset<T>, x: T)
    requires a + multiset{x} == b + multiset{x}
    ensures a == b
  {
    assert forall y :: a[y] == (a + multiset{x})[y] - multiset{x}[y];
  }

  /** Leaving out the index at `i` leaves out one copy of the element it selects. */
  lemma PermuteRemoveAt<T>(s: seq<T>, q: seq<int>, i: int)
    requires InBounds(q, |s|) && 0 <= i < |q|
    ensures InBounds(q[..i] + q[i + 1..], |s|)
    ensures multiset(Permute(s, q)) == multiset(Permute(s, q[..i] + q[i + 1..])) + multiset{s[q[i]]}
  {
    var sq := Permute(s, q);
    RemoveAt(sq, i);
    assert sq[..i] + sq[i + 1..] == Permute(s, q[..i] + q[i + 1..]);
  }

  /** Matching the first index of `p` with an equal one of `q` leaves two lists with equal multisets. */
  lemma MatchFirst(p: seq<int>, q: seq<int>, i: int)
    requires p != [] && 0 <= i < |q| && q[i] == p[0] && multiset(p) == multiset(q)
    ensures multiset(p[1..]) == multiset(q[..i] + q[i + 1..])
  {
    RemoveAt(q, i);
    RemoveAt(p, 0);
    assert p[..0] + p[1..] == p[1..];
    Cancel(multiset(p[1..]), multiset(q[..i] + q[i + 1..]), p[0]);
  }

  /** Dropping the first index drops one copy of the element it selects. */
  lemma PermuteDropFirst<T>(s: seq<T>, p: seq<int>)
    requires InBounds(p, |s|) && p != []
    ensures InBounds(p[1..], |s|)
    ensures multiset(Permute(s, p)) == multiset(Permute(s, p[1..])) + multiset{s[p[0]]}
  {
    assert Permute(s, p) == [s[p[0]]] + Permute(s, p[1..]);
  }

  /** An element of a sequence's multiset sits at some index. */
  lemma IndexOf<T>(q: seq<T>, x: T) returns (i: int)
    requires x in multiset(q)
    ensures 0 <= i < |q| && q[i] == x
  {
    assert x in q;
    i :| 0 <= i < |q| && q[i] == x;
  }

  /** Two index lists holding the same indices select the same multiset of elements. */
  lemma {:induction false} PermuteAgree<T>(s: seq<T>, p: seq<int>, q: seq<int>)
    requires InBounds(p, |s|) && InBounds(q, |s|) && multiset(p) == multiset(q)
    ensures multiset(Permute(s, p)) == multiset(Permute(s, q))
    decreases |p|
  {
    if p == [] {
      assert |multiset(q)| == 0;
    } else {
      var i := IndexOf(q, p[0]);
      var p', q' := p[1..], q[..i] + q[i + 1..];
      MatchFirst(p, q, i);
      PermuteRemoveAt(s, q, i);
      PermuteDropFirst(s, p);
      PermuteAgree(s, p', q');
      assert multiset(Permute(s, p)) == multiset(Permute(s, p')) + multiset{s[p[0]]};
      assert multiset(Permute(s, q)) == multiset(Permute(s, q')) + multiset{s[q[i]]};
    }
  }

  /** Reading a sequence through a permutation of its indices rearranges its elements. */
  lemma PermuteMultiset<T>(s: seq<T>, p: seq<int>)
    requires InBounds(p, |s|) && IsPermutation(p, |s|)
    ensures multiset(Permute(s, p)) == multiset(s)
  {
    PermuteAgree(s, p, Range(|s|));
    assert Permute(s, Range(|s|)) == s;
  }

  /** The returned (name, value) pairs are the records' own pairs, rearranged. */
  lemma EnrichDataKeepsPairs(data: seq<Record>, field: int)
    requires 0 <= field && field != NameColumn && field != CombinedScore
    requires EnrichData(data, field).Success?
    ensures var r := EnrichData(data, field).value;
      |r.names| == |r.values| == |data|
      && multiset(Pairs(r.names, r.values)) == multiset(Pairs(Column(data, NameColumn), Column(data, field)))
  {
    var names, values := Column(data, NameColumn), Column(data, field);
    SignedKeys(values, field);
    var order := ArgSort(Keys(values));
    EnrichDataUnfold(data, field);
    PairsPermute(names, values, order);
    PermuteMultiset(Pairs(names, values), order);
  }

  // ---------------------------------------------------------------- the combined-score order

  /**
   * `enrich_data` as its documentation describes it: like `EnrichData`, except that the
   * combined score is ranked by its negated values, that is in decreasing order.
   */
  function EnrichDataIntended(data: seq<Record>, field: int): Result<Ranked>
    requires 0 <= field && field != NameColumn
  {
    if !HasColumns(data, field) then Failure(ColumnMissing)
    else
      var names := Column(data, NameColumn);
      var values := Column(data, field);
      if !AllNumeric(values) then Failure(NotNumeric)
      else
        var keys := if field == CombinedScore then Negated(Keys(values)) else Keys(values);
        var order := ArgSort(keys);
        Success(Ranked(Permute(names, order), Permute(values, order)))
  }

  /** The corrected ranking, unfolded over already computed columns and order. */
  lemma IntendedUnfoldWith(data: seq<Record>, names: seq<Cell>, scores: seq<Cell>, order: seq<int>)
    requires HasColumns(data, CombinedScore)
    requires names == Column(data, NameColumn) && scores == Column(data, CombinedScore)
    requires AllNumeric(scores) && order == ArgSort(Negated(Keys(scores)))
    ensures EnrichDataIntended(data, CombinedScore) == Success(Ranked(Permute(names, order), Permute(scores, order)))
  {
    IntendedUnfold(data);
  }

  /** The corrected combined-score ranking reads both columns through the argsort of the negated scores. */
  lemma IntendedUnfold(data: seq<Record>)
    requires HasColumns(data, CombinedScore) && AllNumeric(Column(data, CombinedScore))
    ensures var order := ArgSort(Negated(Keys(Column(data, CombinedScore))));
      EnrichDataIntended(data, CombinedScore)
        == Success(Ranked(Permute(Column(data, NameColumn), order), Permute(Column(data, CombinedScore), order)))
  {
  }

  /** Away from the combined score the corrected ranking is the one the code computes. */
  lemma IntendedAgreesElsewhere(data: seq<Record>, field: int)
    requires 0 <= field && field != NameColumn && field != CombinedScore
    ensures EnrichDataIntended(data, field) == EnrichData(data, field)
  {
    if HasColumns(data, field) {
      SignedKeys(Column(data, field), field);
    }
  }

  /**
   * The corrected combined-score ranking keeps every record, pairs every name with its own
   * score through one permutation, and lists the scores in non-increasing order.
   */
  lemma IntendedCombinedScoreDescending(data: seq<Record>)
    requires EnrichDataIntended(data, CombinedScore).Success?
    ensures var r := EnrichDataIntended(data, CombinedScore).value;
      && |r.names| == |data| && |r.values| == |data|
      && (exists p :: ReadThrough(data, CombinedScore, r, p))
      && AllNumeric(r.values)
      && forall a, b :: 0 <= a < b < |data| ==> r.values[a].x >= r.values[b].x
  {
    var values := Column(data, CombinedScore);
    var keys := Negated(Keys(values));
    var order := ArgSort(keys);
    IntendedUnfold(data);
    PermuteColumns(data, CombinedScore, order);
    var r := EnrichDataIntended(data, CombinedScore).value;
    forall a, b | 0 <= a < b < |data| ensures r.values[a].x >= r.values[b].x {
      assert r.values[a] == values[order[a]] && r.values[b] == values[order[b]];
      assert keys[order[a]] <= keys[order[b]];
    }
  }

  // ---------------------------------------------------------------- a worked example

  /** Two terms of one library, as the server reports them. */
  function TwoTerms(): seq<Record>
  {
    [ [Num(0.0), Text("Pathway A"), Num(0.5), Num(0.6), Num(1.2), Num(3.0)],
      [Num(1.0), Text("Pathway B"), Num(0.1), Num(0.2), Num(2.5), Num(9.0)] ]
  }

  /** Two distinct keys are put in order by one comparison. */
  lemma ArgSortPair(a: real, b: real)
    requires a != b
    ensures ArgSort([a, b]) == if b < a then [1, 0] else [0, 1]
  {
    var keys := [a, b];
    assert SortPrefix(keys, 0) == [];
    assert Insert(keys, [], 0) == [0];
    assert SortPrefix(keys, 1) == [0];
    assert Insert(keys, [], 1) == [1];
    assert SortPrefix(keys, 2) == Insert(keys, [0], 1);
  }

  lemma TwoTermsColumns()
    ensures HasColumns(TwoTerms(), CombinedScore)
    ensures Column(TwoTerms(), NameColumn) == [Text("Pathway A"), Text("Pathway B")]
    ensures Column(TwoTerms(), PValue) == [Num(0.5), Num(0.1)]
    ensures Column(TwoTerms(), CombinedScore) == [Num(3.0), Num(9.0)]
  {
  }

  lemma ColumnOfTwo(r0: Record, r1: Record, c: nat)
    requires c < |r0| && c < |r1|
    ensures Column([r0, r1], c) == [r0[c], r1[c]]
  {
  }

  lemma KeysOfTwo(a: Cell, b: Cell)
    requires a.Num? && b.Num?
    ensures AllNumeric([a, b]) && Keys([a, b]) == [a.x, b.x]
  {
  }

  lemma NegatedOfTwo(a: real, b: real)
    ensures Negated([a, b]) == [-a, -b]
  {
  }

  lemma PermuteSwap<T>(s: seq<T>)
    requires |s| == 2
    ensures Permute(s, [1, 0]) == [s[1], s[0]]
  {
  }

  /** On two records whose second key is below the first, the ranking swaps them. */
  lemma EnrichDataTwo(r0: Record, r1: Record, field: int)
    requires 0 <= field && field != NameColumn && field != CombinedScore
    requires NameColumn < |r0| && field < |r0| && NameColumn < |r1| && field < |r1|
    requires r0[field].Num? && r1[field].Num? && r1[field].x < r0[field].x
    ensures EnrichData([r0, r1], field) == Success(Ranked([r1[NameColumn], r0[NameColumn]], [r1[field], r0[field]]))
  {
    var data := [r0, r1];
    assert HasColumns(data, field);
    ColumnOfTwo(r0, r1, field);
    ColumnOfTwo(r0, r1, NameColumn);
    KeysOfTwo(r0[field], r1[field]);
    ArgSortPair(r0[field].x, r1[field].x);
    EnrichDataUnfold(data, field);
    PermuteSwap([r0[NameColumn], r1[NameColumn]]);
    PermuteSwap([r0[field], r1[field]]);
  }

  /** Ranking by p-value puts the smaller p-value first. */
  lemma TwoTermsByPValue()
    ensures EnrichData(TwoTerms(), PValue)
         == Success(Ranked([Text("Pathway B"), Text("Pathway A")], [Num(0.1), Num(0.5)]))
  {
    EnrichDataTwo(TwoTerms()[0], TwoTerms()[1], PValue);
    assert TwoTerms() == [TwoTerms()[0], TwoTerms()[1]];
  }

  /** Two numeric cells whose first is below the second are ranked second first. */
  lemma DescendingOrderOfTwo(a: Cell, b: Cell)
    requires a.Num? && b.Num? && a.x < b.x
    ensures AllNumeric([a, b]) && ArgSort(Negated(Keys([a, b]))) == [1, 0]
  {
    KeysOfTwo(a, b);
    NegatedOfTwo(a.x, b.x);
    ArgSortPair(-a.x, -b.x);
  }

  /** On two records whose second combined score is above the first, the corrected ranking swaps them. */
  lemma IntendedTwoByCombinedScore(r0: Record, r1: Record)
    requires NameColumn < |r0| && CombinedScore < |r0| && NameColumn < |r1| && CombinedScore < |r1|
    requires r0[CombinedScore].Num? && r1[CombinedScore].Num? && r0[CombinedScore].x < r1[CombinedScore].x
    ensures EnrichDataIntended([r0, r1], CombinedScore)
         == Success(Ranked([r1[NameColumn], r0[NameColumn]], [r1[CombinedScore], r0[CombinedScore]]))
  {
    var data := [r0, r1];
    var names := [r0[NameColumn], r1[NameColumn]];
    var scores := [r0[CombinedScore], r1[CombinedScore]];
    assert HasColumns(data, CombinedScore);
    ColumnOfTwo(r0, r1, CombinedScore);
    ColumnOfTwo(r0, r1, NameColumn);
    DescendingOrderOfTwo(scores[0], scores[1]);
    IntendedUnfoldWith(data, names, scores, [1, 0]);
    PermuteSwap(names);
    PermuteSwap(scores);
  }

  /**
   * The code returns nothing for the combined score, where its documentation promises the
   * terms by decreasing score (see `TwoTermsByCombinedScoreIntended`).
   */
  lemma TwoTermsByCombinedScore()
    ensures EnrichData(TwoTerms(), CombinedScore) == Success(Ranked([], []))
  {
    TwoTermsColumns();
    EnrichDataCombinedScore(TwoTerms());
  }

  /** The corrected definition lists the two terms by decreasing combined score. */
  lemma TwoTermsByCombinedScoreIntended()
    ensures EnrichDataIntended(TwoTerms(), CombinedScore)
         == Success(Ranked([Text("Pathway B"), Text("Pathway A")], [Num(9.0), Num(3.0)]))
  {
    IntendedTwoByCombinedScore(TwoTerms()[0], TwoTerms()[1]);
    assert TwoTerms() == [TwoTerms()[0], TwoTerms()[1]];
  }
}
