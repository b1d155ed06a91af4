/**
 * The loyalty-tier and customer-segment breakdowns: a `reduce` that counts the
 * records per label into a plain object, then `Object.entries` of that object.
 *
 * A plain object lists its own keys in the order ECMAScript prescribes: the
 * keys that are array indices ("0", "7", "42", ...) first, in ascending
 * numeric order, then every other key in the order it was created. So the
 * entries are guaranteed to come in order of first appearance when no label
 * is an array index; otherwise the array-index labels are moved to the front
 * in ascending order.
 */
module Distribution {
  import opened JsNumber
  import opened Records

  const Unknown := "Unknown"

  /** `r.f || 'Unknown'`: a missing or empty cell is counted under "Unknown". */
  function Label(r: Record, f: string): (k: string)
    ensures HasText(r, f) ==> k == r[f]
    ensures !HasText(r, f) ==> k == Unknown
    ensures k != []
  {
    if HasText(r, f) then r[f] else Unknown
  }

  function Labels(rs: Dataset, f: string): (ls: seq<string>)
    ensures |ls| == |rs|
    ensures forall j :: 0 <= j < |rs| ==> ls[j] == Label(rs[j], f)
  {
    seq(|rs|, j requires 0 <= j < |rs| => Label(rs[j], f))
  }

  predicate Distinct(s: seq<string>) {
    forall i, j :: 0 <= i < j < |s| ==> s[i] != s[j]
  }

  // ---------------------------------------------------------------------
  // Key order of a plain object

  const MaxArrayIndex: nat := 4294967294

  /** A canonical decimal numeral below 2^32 - 1: the keys an object lists first. */
  predicate IsArrayIndex(k: string) {
    k != [] && AllDigits(k) && (k[0] != '0' || k == "0") && DigitsValue(k) <= MaxArrayIndex
  }

  /** The numeric value of an array-index key; the other keys are never compared. */
  function IndexRank(k: string): nat {
    if IsArrayIndex(k) then DigitsValue(k) else 0
  }

  predicate AllIndices(s: seq<string>) {
    forall i :: 0 <= i < |s| ==> IsArrayIndex(s[i])
  }

  predicate SortedBy(rank: string -> nat, s: seq<string>) {
    forall i, j :: 0 <= i < j < |s| ==> rank(s[i]) <= rank(s[j])
  }

  /** The array-index keys of `ks`, in their order in `ks`. */
  function IndexKeys(ks: seq<string>): (r: seq<string>)
    ensures AllIndices(r)
    ensures forall x :: x in r <==> x in ks && IsArrayIndex(x)
  {
    if ks == [] then []
    else if IsArrayIndex(ks[0]) then [ks[0]] + IndexKeys(ks[1..])
    else IndexKeys(ks[1..])
  }

  /** The other keys of `ks`, in their order in `ks`. */
  function NamedKeys(ks: seq<string>): (r: seq<string>)
    ensures forall i :: 0 <= i < |r| ==> !IsArrayIndex(r[i])
    ensures forall x :: x in r <==> x in ks && !IsArrayIndex(x)
  {
    if ks == [] then []
    else if IsArrayIndex(ks[0]) then NamedKeys(ks[1..])
    else [ks[0]] + NamedKeys(ks[1..])
  }

  lemma SortedCons(rank: string -> nat, x: string, s: seq<string>)
    requires SortedBy(rank, s) && (s != [] ==> rank(x) <= rank(s[0]))
    ensures SortedBy(rank, [x] + s)
  {
    var r := [x] + s;
    forall i, j | 0 <= i < j < |r| ensures rank(r[i]) <= rank(r[j]) {
      assert r[j] == s[j - 1];
      if i == 0 {
        assert rank(s[0]) <= rank(s[j - 1]) || j - 1 == 0;
      } else {
        assert r[i] == s[i - 1];
      }
    }
  }

  /** Inserts `k` before the first key that does not rank below it. */
  function InsertBy(rank: string -> nat, k: string, s: seq<string>): (r: seq<string>)
    requires SortedBy(rank, s)
    ensures SortedBy(rank, r)
    ensures multiset(r) == multiset(s) + multiset{k}
    ensures r[0] == k || (s != [] && r[0] == s[0])
  {
    if s == [] then [k]
    else if rank(k) <= rank(s[0]) then
      assert s == [s[0]] + s[1..];
      SortedCons(rank, k, s);
      [k] + s
    else
      assert SortedBy(rank, s[1..]);
      var t := InsertBy(rank, k, s[1..]);
      assert s == [s[0]] + s[1..];
      assert multiset([s[0]] + t) == multiset{s[0]} + multiset(t);
      assert rank(s[0]) <= rank(t[0]);
      SortedCons(rank, s[0], t);
      [s[0]] + t
  }

  /** Insertion sort by `rank`. */
  function SortBy(rank: string -> nat, s: seq<string>): (r: seq<string>)
    ensures SortedBy(rank, r)
    ensures multiset(r) == multiset(s)
  {
    if s == [] then []
    else
      assert s == [s[0]] + s[1..];
      InsertBy(rank, s[0], SortBy(rank, s[1..]))
  }

  /** The own keys of an object whose keys were created in the order `created`. */
  function OwnKeys(created: seq<string>): seq<string> {
    SortBy(IndexRank, IndexKeys(created)) + NamedKeys(created)
  }

  // ---------------------------------------------------------------------
  // The counting object and its entries

  datatype Entry = Entry(key: string, count: nat)

  function EntriesIn(ks: seq<string>, values: map<string, nat>): (es: seq<Entry>)
    requires forall x :: x in ks ==> x in values
    ensures |es| == |ks|
    ensures forall i :: 0 <= i < |ks| ==> es[i] == Entry(ks[i], values[ks[i]])
  {
    if ks == [] then [] else [Entry(ks[0], values[ks[0]])] + EntriesIn(ks[1..], values)
  }

  /** `Object.entries(o).map(...)` for an object with keys created in order `created`. */
  function ObjectEntries(created: seq<string>, values: map<string, nat>): seq<Entry>
    requires forall x :: x in created ==> x in values
  {
    assert forall x :: x in OwnKeys(created) ==> x in created by {
      forall x | x in OwnKeys(created) ensures x in created {
        if x in SortBy(IndexRank, IndexKeys(created)) {
          assert x in multiset(SortBy(IndexRank, IndexKeys(created)));
        }
      }
    }
    EntriesIn(OwnKeys(created), values)
  }

  function KeysOf(es: seq<Entry>): (ks: seq<string>)
    ensures |ks| == |es| && forall i :: 0 <= i < |es| ==> ks[i] == es[i].key
  {
    seq(|es|, i requires 0 <= i < |es| => es[i].key)
  }

  function SumCounts(es: seq<Entry>): nat {
    if es == [] then 0 else es[0].count + SumCounts(es[1..])
  }

  /** The distinct labels, in the order in which each first occurs. */
  function FirstAppearance(ls: seq<string>): seq<string> {
    if ls == [] then []
    else
      var init := FirstAppearance(ls[..|ls| - 1]);
      if ls[|ls| - 1] in init then init else init + [ls[|ls| - 1]]
  }

  /** The value the `reduce` leaves under each label: how many times it occurs. */
  function CountMap(ls: seq<string>): map<string, nat> {
    map k | k in ls :: multiset(ls)[k]
  }

  /** The breakdown the dashboard charts for column `f`. */
  function TallyOf(rs: Dataset, f: string): seq<Entry> {
    var ls := Labels(rs, f);
    FirstAppearanceMembers(ls);
    ObjectEntries(FirstAppearance(ls), CountMap(ls))
  }

  // ---------------------------------------------------------------------
  // Facts about first appearance

  /** Every label occurs in the first-appearance list exactly once. */
  lemma {:induction false} FirstAppearanceMembers(ls: seq<string>)
    ensures forall x :: x in FirstAppearance(ls) <==> x in ls
    ensures Distinct(FirstAppearance(ls))
  {
    if ls != [] {
      var init := ls[..|ls| - 1];
      assert ls == init + [ls[|ls| - 1]];
      FirstAppearanceMembers(init);
    }
  }

  /**
   * Labels are only ever appended: the list for the first `p` labels is a
   * prefix of the list for all of them.
   */
  lemma {:induction false} FirstAppearancePrefix(ls: seq<string>, p: nat)
    requires p <= |ls|
    ensures FirstAppearance(ls[..p]) <= FirstAppearance(ls)
  {
    if p < |ls| {
      var init := ls[..|ls| - 1];
      assert init[..p] == ls[..p];
      FirstAppearancePrefix(init, p);
    } else {
      assert ls[..p] == ls;
    }
  }

  // ---------------------------------------------------------------------
  // The key order

  lemma {:induction false} NamedKeysPrefix(a: seq<string>, b: seq<string>)
    requires a <= b
    ensures NamedKeys(a) <= NamedKeys(b)
  {
    if a != [] {
      assert b[0] == a[0] && a[1..] <= b[1..];
      NamedKeysPrefix(a[1..], b[1..]);
    }
  }

  lemma {:induction false} NamedKeysAppend(a: seq<string>, b: seq<string>)
    ensures NamedKeys(a + b) == NamedKeys(a) + NamedKeys(b)
  {
    if a != [] {
      assert (a + b)[1..] == a[1..] + b;
      NamedKeysAppend(a[1..], b);
    } else {
      assert a + b == b;
    }
  }

  lemma {:induction false} NamedKeysOfIndices(s: seq<string>)
    requires AllIndices(s)
    ensures NamedKeys(s) == []
  {
    if s != [] {
      NamedKeysOfIndices(s[1..]);
    }
  }

  lemma {:induction false} NamedKeysIdempotent(s: seq<string>)
    ensures NamedKeys(NamedKeys(s)) == NamedKeys(s)
  {
    if s != [] {
      NamedKeysIdempotent(s[1..]);
      if !IsArrayIndex(s[0]) {
        assert NamedKeys(s)[1..] == NamedKeys(s[1..]);
      }
    }
  }

  lemma SortKeepsMembers(rank: string -> nat, s: seq<string>)
    ensures forall x :: x in SortBy(rank, s) <==> x in s
  {
    forall x ensures x in SortBy(rank, s) <==> x in s {
      assert x in multiset(SortBy(rank, s)) <==> x in multiset(s);
    }
  }

  lemma SortedIndexKeys(created: seq<string>)
    ensures AllIndices(SortBy(IndexRank, IndexKeys(created)))
  {
    var ik := IndexKeys(created);
    var s := SortBy(IndexRank, ik);
    SortKeepsMembers(IndexRank, ik);
    forall i | 0 <= i < |s| ensures IsArrayIndex(s[i]) {
      assert s[i] in ik;
    }
  }

  /** Only the array-index keys are reordered: the other keys keep their creation order. */
  lemma NamedOwnKeys(created: seq<string>)
    ensures NamedKeys(OwnKeys(created)) == NamedKeys(created)
  {
    var s := SortBy(IndexRank, IndexKeys(created));
    var n := NamedKeys(created);
    assert OwnKeys(created) == s + n;
    NamedKeysAppend(s, n);
    SortedIndexKeys(created);
    NamedKeysOfIndices(s);
    NamedKeysIdempotent(created);
    assert NamedKeys(s + n) == [] + n;
  }

  lemma {:induction false} NoIndexKeys(ks: seq<string>)
    requires forall i :: 0 <= i < |ks| ==> !IsArrayIndex(ks[i])
    ensures IndexKeys(ks) == [] && NamedKeys(ks) == ks
  {
    if ks != [] {
      NoIndexKeys(ks[1..]);
    }
  }

  lemma {:induction false} DistinctSort(rank: string -> nat, s: seq<string>)
    requires Distinct(s)
    ensures Distinct(SortBy(rank, s))
  {
    if s != [] {
      var t := SortBy(rank, s[1..]);
      DistinctSort(rank, s[1..]);
      assert s[0] !in s[1..];
      assert s[0] !in multiset(t);
      DistinctInsert(rank, s[0], t);
    }
  }

  lemma {:induction false} DistinctInsert(rank: string -> nat, k: string, s: seq<string>)
    requires SortedBy(rank, s) && Distinct(s) && k !in s
    ensures Distinct(InsertBy(rank, k, s))
  {
    if s != [] && rank(k) > rank(s[0]) {
      DistinctInsert(rank, k, s[1..]);
      var t := InsertBy(rank, k, s[1..]);
      assert s[0] !in s[1..];
      assert s[0] !in multiset(t);
    }
  }

  lemma {:induction false} DistinctIndexKeys(ks: seq<string>)
    requires Distinct(ks)
    ensures Distinct(IndexKeys(ks)) && Distinct(NamedKeys(ks))
  {
    if ks != [] {
      DistinctIndexKeys(ks[1..]);
      assert ks[0] !in ks[1..];
    }
  }

  lemma DistinctAppend(a: seq<string>, b: seq<string>)
    requires Distinct(a) && Distinct(b)
    requires forall x :: x in a ==> x !in b
    ensures Distinct(a + b)
  {
    var ab := a + b;
    forall i, j | 0 <= i < j < |ab| ensures ab[i] != ab[j] {
      if j < |a| {
        assert ab[i] == a[i] && ab[j] == a[j];
      } else if i >= |a| {
        assert ab[i] == b[i - |a|] && ab[j] == b[j - |a|];
      } else {
        assert ab[i] in a && ab[j] in b;
      }
    }
  }

  /** The own keys are the created keys, each once, index keys first and ascending, the rest in creation order. */
  lemma OwnKeysShape(created: seq<string>)
    requires Distinct(created)
    ensures var ok := OwnKeys(created); var m := |IndexKeys(created)|;
      && |ok| == m + |NamedKeys(created)|
      && (forall x :: x in ok <==> x in created)
      && Distinct(ok)
      && AllIndices(ok[..m]) && SortedBy(IndexRank, ok[..m])
      && ok[m..] == NamedKeys(created)
  {
    var ik := IndexKeys(created);
    var s := SortBy(IndexRank, ik);
    var n := NamedKeys(created);
    DistinctIndexKeys(created);
    DistinctSort(IndexRank, ik);
    SortKeepsMembers(IndexRank, ik);
    SortedIndexKeys(created);
    assert |s| == |ik| by {
      assert |multiset(s)| == |multiset(ik)|;
    }
    DistinctAppend(s, n);
    var ok := s + n;
    assert ok == OwnKeys(created);
    assert ok[..|s|] == s && ok[|s|..] == n;
  }

  // ---------------------------------------------------------------------
  // Sums of counts

  function SumIn(ks: seq<string>, values: map<string, nat>): nat
    requires forall x :: x in ks ==> x in values
  {
    if ks == [] then 0 else values[ks[0]] + SumIn(ks[1..], values)
  }

  lemma {:induction false} SumCountsIn(ks: seq<string>, values: map<string, nat>)
    requires forall x :: x in ks ==> x in values
    ensures SumCounts(EntriesIn(ks, values)) == SumIn(ks, values)
  {
    if ks != [] {
      assert EntriesIn(ks, values)[1..] == EntriesIn(ks[1..], values);
      SumCountsIn(ks[1..], values);
    }
  }

  lemma {:induction false} SumInAppend(a: seq<string>, b: seq<string>, values: map<string, nat>)
    requires forall x :: x in a + b ==> x in values
    ensures SumIn(a + b, values) == SumIn(a, values) + SumIn(b, values)
  {
    if a != [] {
      assert (a + b)[1..] == a[1..] + b;
      SumInAppend(a[1..], b, values);
    } else {
      assert a + b == b;
    }
  }

  lemma {:induction false} SumInInsert(rank: string -> nat, k: string, s: seq<string>, values: map<string, nat>)
    requires SortedBy(rank, s)
    requires k in values && forall x :: x in s ==> x in values
    ensures forall x :: x in InsertBy(rank, k, s) ==> x in values
    ensures SumIn(InsertBy(rank, k, s), values) == values[k] + SumIn(s, values)
  {
    forall x | x in InsertBy(rank, k, s) ensures x in values {
      assert x in multiset(InsertBy(rank, k, s));
    }
    if s != [] && rank(k) > rank(s[0]) {
      SumInInsert(rank, k, s[1..], values);
    }
  }

  lemma {:induction false} SumInSort(rank: string -> nat, s: seq<string>, values: map<string, nat>)
    requires forall x :: x in s ==> x in values
    ensures forall x :: x in SortBy(rank, s) ==> x in values
    ensures SumIn(SortBy(rank, s), values) == SumIn(s, values)
  {
    forall x | x in SortBy(rank, s) ensures x in values {
      assert x in multiset(SortBy(rank, s));
    }
    if s != [] {
      SumInSort(rank, s[1..], values);
      SumInInsert(rank, s[0], SortBy(rank, s[1..]), values);
    }
  }

  lemma {:induction false} SumInSplit(ks: seq<string>, values: map<string, nat>)
    requires forall x :: x in ks ==> x in values
    ensures SumIn(IndexKeys(ks), values) + SumIn(NamedKeys(ks), values) == SumIn(ks, values)
  {
    if ks != [] {
      SumInSplit(ks[1..], values);
    }
  }

  lemma {:induction false} SumInAgree(ks: seq<string>, a: map<string, nat>, b: map<string, nat>)
    requires forall x :: x in ks ==> x in a && x in b && a[x] == b[x]
    ensures SumIn(ks, a) == SumIn(ks, b)
  {
    if ks != [] {
      SumInAgree(ks[1..], a, b);
    }
  }

  /** Adding one to the value of a key that occurs once in `ks` adds one to the sum. */
  lemma {:induction false} SumInBump(ks: seq<string>, a: map<string, nat>, x: string)
    requires Distinct(ks) && x in ks && x in a
    requires forall y :: y in ks ==> y in a
    ensures SumIn(ks, a[x := a[x] + 1]) == SumIn(ks, a) + 1
  {
    var b := a[x := a[x] + 1];
    if ks[0] == x {
      assert x !in ks[1..];
      SumInAgree(ks[1..], a, b);
    } else {
      SumInBump(ks[1..], a, x);
    }
  }

  lemma {:induction false} SumInSnoc(ks: seq<string>, x: string, values: map<string, nat>)
    requires forall y :: y in ks + [x] ==> y in values
    ensures SumIn(ks + [x], values) == SumIn(ks, values) + values[x]
  {
    SumInAppend(ks, [x], values);
  }

  lemma CountMapSnoc(ls: seq<string>, x: string)
    ensures CountMap(ls + [x]) == CountMap(ls)[x := if x in ls then CountMap(ls)[x] + 1 else 1]
  {
    var l2 := ls + [x];
    assert multiset(l2) == multiset(ls) + multiset{x};
    var m1 := CountMap(l2);
    var m2 := CountMap(ls)[x := if x in ls then CountMap(ls)[x] + 1 else 1];
    assert m1.Keys == m2.Keys;
    forall k | k in m1 ensures m1[k] == m2[k] {
      if k != x {
        assert k in ls;
      } else if x !in ls {
        assert multiset(ls)[x] == 0;
      }
    }
  }

  /** The counts, summed over the labels in first-appearance order, give the number of labels. */
  lemma {:induction false} SumOfCountMap(ls: seq<string>)
    ensures forall x :: x in FirstAppearance(ls) ==> x in CountMap(ls)
    ensures SumIn(FirstAppearance(ls), CountMap(ls)) == |ls|
  {
    FirstAppearanceMembers(ls);
    if ls != [] {
      var x := ls[|ls| - 1];
      var init := ls[..|ls| - 1];
      assert ls == init + [x];
      SumOfCountMap(init);
      FirstAppearanceMembers(init);
      CountMapSnoc(init, x);
      var fa := FirstAppearance(init);
      var m := CountMap(init);
      if x in init {
        SumInBump(fa, m, x);
      } else {
        SumInAgree(fa, m, CountMap(ls));
        SumInSnoc(fa, x, CountMap(ls));
      }
    }
  }

  lemma {:induction false} MultisetCountIsSetSize(ls: seq<string>, k: string)
    ensures multiset(ls)[k] == |set j | 0 <= j < |ls| && ls[j] == k|
  {
    if ls != [] {
      var n := |ls| - 1;
      var init := ls[..n];
      assert ls == init + [ls[n]];
      MultisetCountIsSetSize(init, k);
      assert forall j :: 0 <= j < n ==> init[j] == ls[j];
      if ls[n] == k {
        assert (set j | 0 <= j < |ls| && ls[j] == k) == (set j | 0 <= j < n && init[j] == k) + {n};
      } else {
        assert (set j | 0 <= j < |ls| && ls[j] == k) == (set j | 0 <= j < n && init[j] == k);
      }
    }
  }

  // ---------------------------------------------------------------------
  // What the breakdown promises

  /** The keys of the breakdown are the labels that occur, each exactly once. */
  lemma TallyKeys(rs: Dataset, f: string)
    ensures forall k :: k in KeysOf(TallyOf(rs, f)) <==> k in Labels(rs, f)
    ensures Distinct(KeysOf(TallyOf(rs, f)))
  {
    var ls := Labels(rs, f);
    FirstAppearanceMembers(ls);
    OwnKeysShape(FirstAppearance(ls));
    assert KeysOf(TallyOf(rs, f)) == OwnKeys(FirstAppearance(ls));
  }

  /** The breakdown once the helper facts about its keys are in place. */
  lemma TallyUnfold(rs: Dataset, f: string)
    ensures var ls := Labels(rs, f); var ok := OwnKeys(FirstAppearance(ls));
      && (forall x :: x in ok <==> x in ls)
      && (forall x :: x in ok ==> x in CountMap(ls))
      && TallyOf(rs, f) == EntriesIn(ok, CountMap(ls))
  {
    var ls := Labels(rs, f);
    FirstAppearanceMembers(ls);
    OwnKeysShape(FirstAppearance(ls));
  }

  /** Each entry's count is the number of records carrying its label. */
  lemma TallyCounts(rs: Dataset, f: string, i: nat)
    requires i < |TallyOf(rs, f)|
    ensures TallyOf(rs, f)[i].count == |set j | 0 <= j < |rs| && Label(rs[j], f) == TallyOf(rs, f)[i].key|
  {
    var ls := Labels(rs, f);
    var ok := OwnKeys(FirstAppearance(ls));
    TallyUnfold(rs, f);
    var k := ok[i];
    assert TallyOf(rs, f)[i] == Entry(k, CountMap(ls)[k]);
    assert k in ls;
    MultisetCountIsSetSize(ls, k);
    assert (set j | 0 <= j < |ls| && ls[j] == k) == (set j | 0 <= j < |rs| && Label(rs[j], f) == k);
  }

  /** The counts add up to the number of records: every record is counted once. */
  lemma TallySum(rs: Dataset, f: string)
    ensures SumCounts(TallyOf(rs, f)) == |rs|
  {
    var ls := Labels(rs, f);
    var fa := FirstAppearance(ls);
    var m := CountMap(ls);
    var s := SortBy(IndexRank, IndexKeys(fa));
    var n := NamedKeys(fa);
    TallyUnfold(rs, f);
    SumOfCountMap(ls);
    assert OwnKeys(fa) == s + n;
    SumCountsIn(s + n, m);
    SumInSort(IndexRank, IndexKeys(fa), m);
    SumInAppend(s, n, m);
    SumInSplit(fa, m);
  }

  /**
   * The order of the breakdown: first the labels that are array indices, in
   * ascending numeric order, then the other labels in the order in which they
   * first occur.
   */
  lemma TallyOrder(rs: Dataset, f: string)
    ensures var ks := KeysOf(TallyOf(rs, f));
      exists m :: 0 <= m <= |ks| &&
        AllIndices(ks[..m]) && SortedBy(IndexRank, ks[..m]) &&
        ks[m..] == NamedKeys(FirstAppearance(Labels(rs, f)))
  {
    var fa := FirstAppearance(Labels(rs, f));
    FirstAppearanceMembers(Labels(rs, f));
    OwnKeysShape(fa);
    assert KeysOf(TallyOf(rs, f)) == OwnKeys(fa);
    var m := |IndexKeys(fa)|;
  }

  /**
   * Records only append labels: the non-index keys of the breakdown of the
   * first `p` records are a prefix of those of the breakdown of all of them.
   */
  lemma TallyOrderGrows(rs: Dataset, f: string, p: nat)
    requires p <= |rs|
    ensures NamedKeys(KeysOf(TallyOf(rs[..p], f))) <= NamedKeys(KeysOf(TallyOf(rs, f)))
  {
    var ls := Labels(rs, f);
    assert Labels(rs[..p], f) == ls[..p];
    FirstAppearanceMembers(ls);
    FirstAppearanceMembers(ls[..p]);
    assert KeysOf(TallyOf(rs, f)) == OwnKeys(FirstAppearance(ls));
    assert KeysOf(TallyOf(rs[..p], f)) == OwnKeys(FirstAppearance(ls[..p]));
    NamedOwnKeys(FirstAppearance(ls));
    NamedOwnKeys(FirstAppearance(ls[..p]));
    FirstAppearancePrefix(ls, p);
    NamedKeysPrefix(FirstAppearance(ls[..p]), FirstAppearance(ls));
  }

  /** When no label is an array index the breakdown lists the labels exactly in order of first appearance. */
  lemma TallyFirstAppearance(rs: Dataset, f: string)
    requires forall j :: 0 <= j < |rs| ==> !IsArrayIndex(Label(rs[j], f))
    ensures KeysOf(TallyOf(rs, f)) == FirstAppearance(Labels(rs, f))
  {
    var ls := Labels(rs, f);
    var fa := FirstAppearance(ls);
    FirstAppearanceMembers(ls);
    forall i | 0 <= i < |fa| ensures !IsArrayIndex(fa[i]) {
      assert fa[i] in ls;
    }
    NoIndexKeys(fa);
    assert KeysOf(TallyOf(rs, f)) == OwnKeys(fa);
  }

  /** One record of the `reduce`: a new label is created at the end with count 1, a known one is incremented. */
  lemma TallyStep(ls: seq<string>, x: string)
    ensures x in CountMap(ls) <==> x in ls
    ensures CountMap(ls + [x]) == CountMap(ls)[x := if x in ls then CountMap(ls)[x] + 1 else 1]
    ensures FirstAppearance(ls + [x]) == if x in ls then FirstAppearance(ls) else FirstAppearance(ls) + [x]
  {
    FirstAppearanceMembers(ls);
    CountMapSnoc(ls, x);
    assert (ls + [x])[..|ls|] == ls;
  }

  /** The `reduce` step on the counting object and its key order, as the loop below performs it. */
  lemma CountStep(ls: seq<string>, key: string, created: seq<string>, acc: map<string, nat>)
    requires created == FirstAppearance(ls) && acc == CountMap(ls)
    ensures key in acc ==> FirstAppearance(ls + [key]) == created
    ensures key in acc ==> CountMap(ls + [key]) == acc[key := acc[key] + 1]
    ensures key !in acc ==> FirstAppearance(ls + [key]) == created + [key]
    ensures key !in acc ==> CountMap(ls + [key]) == acc[key := 1]
  {
    TallyStep(ls, key);
  }

  /** The labels of one more record are the labels so far and that record's label. */
  lemma LabelsSnoc(rs: Dataset, f: string, i: nat)
    requires i < |rs|
    ensures Labels(rs[..i + 1], f) == Labels(rs[..i], f) + [Label(rs[i], f)]
  {
    assert rs[..i + 1] == rs[..i] + [rs[i]];
  }

  /**
   * The `reduce` over the records: `acc[tier] = (acc[tier] || 0) + 1`, the
   * object remembering the order in which its keys were created.
   */
  method CountLabels(rs: Dataset, f: string) returns (created: seq<string>, acc: map<string, nat>)
    ensures created == FirstAppearance(Labels(rs, f))
    ensures acc == CountMap(Labels(rs, f))
  {
    created, acc := [], map[];
    ghost var ls: seq<string> := [];
    var i := 0;
    assert CountMap([]) == map[];
    while i < |rs|
      invariant 0 <= i <= |rs|
      invariant ls == Labels(rs[..i], f)
      invariant created == FirstAppearance(ls)
      invariant acc == CountMap(ls)
    {
      var key := Label(rs[i], f);
      LabelsSnoc(rs, f, i);
      CountStep(ls, key, created, acc);
      if key in acc {
        acc := acc[key := acc[key] + 1];
      } else {
        acc := acc[key := 1];
        created := created + [key];
      }
      ls := ls + [key];
      i := i + 1;
    }
    assert rs[..|rs|] == rs;
  }

  /** The counting `reduce` followed by `Object.entries(...).map(...)`. */
  method Tally(rs: Dataset, f: string) returns (entries: seq<Entry>)
    ensures entries == TallyOf(rs, f)
  {
    var created, acc := CountLabels(rs, f);
    FirstAppearanceMembers(Labels(rs, f));
    entries := ObjectEntries(created, acc);
  }
}
