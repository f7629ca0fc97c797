/**
  The pie chart of errors by type: `load_data` keeps the records whose error
  count is positive, orders them by count (largest first) and then by type name,
  and splits them into aligned lists of labels and counts; `main` stops early
  when nothing is left and otherwise shows the total next to the pie.
  The records are taken as already parsed from JSON.
*/
module PieChart {
  import opened Common
  import opened Counting

  /** One parsed record; either field may be missing from the JSON object. */
  datatype Row = Row(rtype: Option<string>, errors: Option<int>)

  /** A record that survived the filter, reduced to what the chart uses. */
  datatype Entry = Entry(etype: string, errors: int)

  /** What `load_data` returns: index-aligned labels and counts. */
  datatype Slices = Slices(labels: seq<string>, counts: seq<int>)

  /** What `main` ends with: the early "No errors to display." notice or a pie. */
  datatype Outcome = NoErrors | Pie(labels: seq<string>, counts: seq<int>, totalErrors: int)

  /** `int(r.get("errors", 0))` */
  function ErrorsOf(row: Row): int {
    row.errors.GetOr(0)
  }

  // ---------------------------------------------------------------------------
  // Python's ordering of strings and of the sort key (-errors, type)
  // ---------------------------------------------------------------------------

  /** `a <= b` on Python strings: lexicographic on code points, a prefix first. */
  predicate StrLe(a: string, b: string) {
    a == [] || (b != [] && (a[0] < b[0] || (a[0] == b[0] && StrLe(a[1..], b[1..]))))
  }

  lemma {:induction false} StrLeTotal(a: string, b: string)
    ensures StrLe(a, b) || StrLe(b, a)
  {
    if a != [] && b != [] && a[0] == b[0] {
      StrLeTotal(a[1..], b[1..]);
    }
  }

  lemma {:induction false} StrLeAntisymmetric(a: string, b: string)
    requires StrLe(a, b) && StrLe(b, a)
    ensures a == b
  {
    if a != [] {
      StrLeAntisymmetric(a[1..], b[1..]);
      assert a == [a[0]] + a[1..] && b == [b[0]] + b[1..];
    }
  }

  lemma {:induction false} StrLeTransitive(a: string, b: string, c: string)
    requires StrLe(a, b) && StrLe(b, c)
    ensures StrLe(a, c)
  {
    if a != [] && b != [] && c != [] && a[0] == b[0] && b[0] == c[0] {
      StrLeTransitive(a[1..], b[1..], c[1..]);
    }
  }

  /** `x` may come before `y`: the key `(-x.errors, x.etype)` is at most that of `y`. */
  predicate KeyLe(x: Entry, y: Entry) {
    x.errors > y.errors || (x.errors == y.errors && StrLe(x.etype, y.etype))
  }

  lemma KeyLeTotal(x: Entry, y: Entry)
    ensures KeyLe(x, y) || KeyLe(y, x)
  {
    StrLeTotal(x.etype, y.etype);
  }

  lemma KeyLeAntisymmetric(x: Entry, y: Entry)
    requires KeyLe(x, y) && KeyLe(y, x)
    ensures x == y
  {
    StrLeAntisymmetric(x.etype, y.etype);
  }

  lemma KeyLeTransitive(x: Entry, y: Entry, z: Entry)
    requires KeyLe(x, y) && KeyLe(y, z)
    ensures KeyLe(x, z)
  {
    if x.errors == y.errors == z.errors {
      StrLeTransitive(x.etype, y.etype, z.etype);
    }
  }

  predicate Sorted(s: seq<Entry>) {
    forall i, j :: 0 <= i < j < |s| ==> KeyLe(s[i], s[j])
  }

  // ---------------------------------------------------------------------------
  // rows.sort(key=lambda r: (-int(r["errors"]), r["type"]))
  // ---------------------------------------------------------------------------

  /** Places `x` before the first element it may precede; stable, as equal
      keys keep `x` ahead of the elements that followed it. */
  function Insert(x: Entry, s: seq<Entry>): (r: seq<Entry>)
    ensures multiset(r) == multiset(s) + multiset{x}
  {
    if s == [] then [x]
    else if KeyLe(x, s[0]) then [x] + s
    else
      assert s == [s[0]] + s[1..];
      [s[0]] + Insert(x, s[1..])
  }

  /** A sorted list stays sorted under a new head that may precede all of it. */
  lemma SortedCons(h: Entry, t: seq<Entry>)
    requires Sorted(t)
    requires forall k :: 0 <= k < |t| ==> KeyLe(h, t[k])
    ensures Sorted([h] + t)
  {
    var r := [h] + t;
    forall i, j | 0 <= i < j < |r| ensures KeyLe(r[i], r[j]) {
      assert r[j] == t[j - 1];
      if i > 0 {
        assert r[i] == t[i - 1];
      }
    }
  }

  /** An entry that may precede `x` and all of `s` may precede everything in the insertion. */
  lemma {:induction false} InsertLowerBound(x: Entry, s: seq<Entry>, b: Entry)
    requires KeyLe(b, x) && forall k :: 0 <= k < |s| ==> KeyLe(b, s[k])
    ensures forall k :: 0 <= k < |Insert(x, s)| ==> KeyLe(b, Insert(x, s)[k])
  {
    if s != [] && !KeyLe(x, s[0]) {
      assert Insert(x, s) == [s[0]] + Insert(x, s[1..]);
      InsertLowerBound(x, s[1..], b);
    }
  }

  /** Inserting into a sorted list keeps it sorted. */
  lemma {:induction false} InsertSorted(x: Entry, s: seq<Entry>)
    requires Sorted(s)
    ensures Sorted(Insert(x, s))
  {
    if s == [] {
    } else if KeyLe(x, s[0]) {
      forall k | 0 <= k < |s| ensures KeyLe(x, s[k]) {
        if k > 0 {
          KeyLeTransitive(x, s[0], s[k]);
        }
      }
      SortedCons(x, s);
    } else {
      KeyLeTotal(x, s[0]);
      InsertSorted(x, s[1..]);
      InsertLowerBound(x, s[1..], s[0]);
      SortedCons(s[0], Insert(x, s[1..]));
    }
  }

  /** Insertion sort; any sorting of the same entries gives the same list
      (`SortedUnique`), so this stands for Python's stable sort. */
  function Sort(s: seq<Entry>): (r: seq<Entry>)
    ensures multiset(r) == multiset(s)
    ensures Sorted(r)
  {
    if s == [] then []
    else
      assert s == [s[0]] + s[1..];
      InsertSorted(s[0], Sort(s[1..]));
      Insert(s[0], Sort(s[1..]))
  }

  /** The key is a total order on entries, so the sorted arrangement of a
      collection of entries is unique. */
  lemma {:induction false} SortedUnique(a: seq<Entry>, b: seq<Entry>)
    requires Sorted(a) && Sorted(b)
    requires multiset(a) == multiset(b)
    ensures a == b
  {
    if a != [] {
      SortedHeads(a, b);
      assert multiset(a[1..]) == multiset(b[1..]) by {
        TailMultiset(a);
        TailMultiset(b);
      }
      SortedTail(a);
      SortedTail(b);
      SortedUnique(a[1..], b[1..]);
      assert a == [a[0]] + a[1..] && b == [b[0]] + b[1..];
    }
  }

  /** Two sorted arrangements of the same non-empty collection start alike. */
  lemma SortedHeads(a: seq<Entry>, b: seq<Entry>)
    requires Sorted(a) && Sorted(b)
    requires multiset(a) == multiset(b)
    requires a != []
    ensures b != [] && a[0] == b[0]
  {
    assert a[0] in multiset(b);
    assert b[0] in multiset(a);
    if a[0] != b[0] {
      var i :| 0 < i < |a| && a[i] == b[0];
      var j :| 0 < j < |b| && b[j] == a[0];
      assert KeyLe(a[0], a[i]) && KeyLe(b[0], b[j]);
      KeyLeAntisymmetric(a[0], b[0]);
    }
  }

  lemma TailMultiset(a: seq<Entry>)
    requires a != []
    ensures multiset(a[1..]) == multiset(a) - multiset{a[0]}
  {
    assert a == [a[0]] + a[1..];
  }

  lemma SortedTail(a: seq<Entry>)
    requires Sorted(a) && a != []
    ensures Sorted(a[1..])
  {
    forall i, j | 0 <= i < j < |a| - 1 ensures KeyLe(a[1..][i], a[1..][j]) {
      assert a[1..][i] == a[i + 1] && a[1..][j] == a[j + 1];
    }
  }

  // ---------------------------------------------------------------------------
  // load_data
  // ---------------------------------------------------------------------------

  /** `[r for r in rows if int(r.get("errors", 0)) > 0]` */
  function Surviving(rows: seq<Row>): (r: seq<Row>)
    ensures forall x :: x in r ==> ErrorsOf(x) > 0
    ensures forall x :: multiset(r)[x] == if ErrorsOf(x) > 0 then multiset(rows)[x] else 0
  {
    if rows == [] then []
    else
      var last := rows[|rows| - 1];
      assert rows == rows[..|rows| - 1] + [last];
      Surviving(rows[..|rows| - 1]) + if ErrorsOf(last) > 0 then [last] else []
  }

  predicate AllTyped(rows: seq<Row>) {
    forall x :: x in rows ==> x.rtype.Some?
  }

  function Entries(rows: seq<Row>): (r: seq<Entry>)
    requires AllTyped(rows)
    ensures |r| == |rows|
  {
    seq(|rows|, i requires 0 <= i < |rows| => Entry(rows[i].rtype.value, ErrorsOf(rows[i])))
  }

  /** The chart's slices read back as entries, label next to count. */
  function Pairs(s: Slices): seq<Entry>
    requires |s.labels| == |s.counts|
  {
    seq(|s.labels|, i requires 0 <= i < |s.labels| => Entry(s.labels[i], s.counts[i]))
  }

  /** `load_data` on the parsed records. A surviving record without a
      "type" makes the sort key raise KeyError. */
  function LoadData(rows: seq<Row>): (r: Result<Slices>)
    ensures r.Err? <==> exists x :: x in rows && ErrorsOf(x) > 0 && x.rtype.None?
    ensures r.Err? ==> r.error == MissingTypeField
    ensures r.Ok? ==> |r.value.labels| == |r.value.counts|
  {
    var kept := Surviving(rows);
    if !AllTyped(kept) then
      Err(MissingTypeField)
    else
      var sorted := Sort(Entries(kept));
      Ok(Slices(seq(|sorted|, i requires 0 <= i < |sorted| => sorted[i].etype),
                seq(|sorted|, i requires 0 <= i < |sorted| => sorted[i].errors)))
  }

  /** Each kept record with type `t` and count `c > 0` becomes one entry `Entry(t, c)`. */
  lemma {:induction false} EntriesCount(rows: seq<Row>, t: string, c: int)
    requires AllTyped(rows)
    requires forall x :: x in rows ==> ErrorsOf(x) > 0
    requires c > 0
    ensures multiset(Entries(rows))[Entry(t, c)] == multiset(rows)[Row(Some(t), Some(c))]
  {
    if rows != [] {
      var n := |rows| - 1;
      var init := rows[..n];
      assert rows == init + [rows[n]];
      assert Entries(rows) == Entries(init) + [Entry(rows[n].rtype.value, ErrorsOf(rows[n]))];
      EntriesCount(init, t, c);
      assert Entry(rows[n].rtype.value, ErrorsOf(rows[n])) == Entry(t, c)
        <==> rows[n] == Row(Some(t), Some(c));
    }
  }

  /** The slices are the surviving records, each exactly as often as it
      occurs, arranged by count descending and then by type ascending; every
      count is positive. */
  lemma LoadDataSlices(rows: seq<Row>)
    requires LoadData(rows).Ok?
    ensures var s := LoadData(rows).value;
      && Sorted(Pairs(s))
      && (forall i :: 0 <= i < |s.counts| ==> s.counts[i] > 0)
      && (forall t, c :: multiset(Pairs(s))[Entry(t, c)] ==
            if c > 0 then multiset(rows)[Row(Some(t), Some(c))] else 0)
  {
    var kept := Surviving(rows);
    var s := LoadData(rows).value;
    LoadDataPairs(rows);
    SortedPositive(kept);
    var p := Pairs(s);
    forall i | 0 <= i < |s.counts| ensures s.counts[i] > 0 {
      assert p[i] in p;
    }
    forall t, c ensures multiset(p)[Entry(t, c)] ==
        if c > 0 then multiset(rows)[Row(Some(t), Some(c))] else 0
    {
      if c > 0 {
        EntriesCount(kept, t, c);
        assert ErrorsOf(Row(Some(t), Some(c))) == c;
      }
    }
  }

  /** The slices read back as entries are the sorted kept records. */
  lemma LoadDataPairs(rows: seq<Row>)
    requires LoadData(rows).Ok?
    ensures AllTyped(Surviving(rows))
    ensures Pairs(LoadData(rows).value) == Sort(Entries(Surviving(rows)))
  {
    var sorted := Sort(Entries(Surviving(rows)));
    assert Pairs(LoadData(rows).value) == sorted;
  }

  /** Sorting the entries of records with positive counts leaves only positive counts. */
  lemma SortedPositive(kept: seq<Row>)
    requires AllTyped(kept)
    requires forall x :: x in kept ==> ErrorsOf(x) > 0
    ensures forall e :: e in Sort(Entries(kept)) ==> e.errors > 0
  {
    forall e | e in Sort(Entries(kept)) ensures e.errors > 0 {
      assert e in multiset(Entries(kept));
      var j :| 0 <= j < |kept| && Entries(kept)[j] == e;
      assert kept[j] in kept;
    }
  }

  // ---------------------------------------------------------------------------
  // main
  // ---------------------------------------------------------------------------

  /** `sum` of the entries' counts. */
  function ErrorSum(s: seq<Entry>): int {
    if s == [] then 0 else ErrorSum(s[..|s| - 1]) + s[|s| - 1].errors
  }

  /** The reference total: every positive error count among the records. */
  function PositiveErrors(rows: seq<Row>): int {
    if rows == [] then 0
    else PositiveErrors(rows[..|rows| - 1]) + if ErrorsOf(rows[|rows| - 1]) > 0 then ErrorsOf(rows[|rows| - 1]) else 0
  }

  /** `main` after the JSON is parsed: the early return when no counts are
      left, and otherwise the labels, counts and `total_errors` that the pie,
      its legend and its footnote show. */
  function MainOutcome(rows: seq<Row>): (r: Result<Outcome>)
    ensures r.Err? <==> LoadData(rows).Err?
    ensures r.Err? ==> r.error == MissingTypeField
    ensures r.Ok? ==> (r.value.NoErrors? <==> forall x :: x in rows ==> ErrorsOf(x) <= 0)
  {
    var loaded := LoadData(rows);
    if loaded.Err? then Err(loaded.error)
    else
      var s := loaded.value;
      if s.counts == [] then
        assert |Surviving(rows)| == 0;
        assert forall x :: x in rows ==> ErrorsOf(x) <= 0 by {
          forall x | x in rows ensures ErrorsOf(x) <= 0 {
            assert multiset(Surviving(rows))[x] == 0;
          }
        }
        Ok(NoErrors)
      else
        assert Surviving(rows)[0] in multiset(Surviving(rows));
        Ok(Pie(s.labels, s.counts, SeqSum(s.counts)))
  }

  /** Removing one entry removes its count from the sum. */
  lemma {:induction false} ErrorSumRemove(s: seq<Entry>, j: nat)
    requires j < |s|
    ensures ErrorSum(s) == ErrorSum(s[..j] + s[j + 1..]) + s[j].errors
  {
    var n := |s| - 1;
    if j < n {
      var t := s[..n];
      var u := s[..j] + s[j + 1..];
      ErrorSumRemove(t, j);
      assert |u| == n && u[n - 1] == s[n];
      assert u[..n - 1] == t[..j] + t[j + 1..];
      assert ErrorSum(u) == ErrorSum(u[..n - 1]) + s[n].errors;
    } else {
      assert s[..j] + s[j + 1..] == s[..n];
    }
  }

  /** The sum does not depend on the order of the entries. */
  lemma {:induction false} ErrorSumPermutation(a: seq<Entry>, b: seq<Entry>)
    requires multiset(a) == multiset(b)
    ensures ErrorSum(a) == ErrorSum(b)
    decreases |a|
  {
    if a != [] {
      var n := |a| - 1;
      var x := a[n];
      assert x in multiset(b) by {
        assert a == a[..n] + [x];
      }
      var j :| 0 <= j < |b| && b[j] == x;
      var b' := b[..j] + b[j + 1..];
      RemoveBoth(a, b, j);
      ErrorSumPermutation(a[..n], b');
      ErrorSumRemove(b, j);
      assert ErrorSum(a) == ErrorSum(a[..n]) + x.errors;
    }
  }

  /** Taking the last entry of `a` and an equal entry of `b` out of two
      permutations of each other leaves permutations of each other. */
  lemma RemoveBoth(a: seq<Entry>, b: seq<Entry>, j: nat)
    requires multiset(a) == multiset(b) && a != [] && j < |b| && b[j] == a[|a| - 1]
    ensures multiset(b[..j] + b[j + 1..]) == multiset(a[..|a| - 1])
  {
    var n, x := |a| - 1, b[j];
    assert a == a[..n] + [x];
    assert b == b[..j] + [x] + b[j + 1..];
    assert multiset(b) == multiset(b[..j]) + multiset{x} + multiset(b[j + 1..]);
    assert multiset(a[..n]) == multiset(a) - multiset{x};
  }

  lemma {:induction false} CountsSum(s: seq<Entry>, counts: seq<int>)
    requires |counts| == |s|
    requires forall i :: 0 <= i < |s| ==> counts[i] == s[i].errors
    ensures SeqSum(counts) == ErrorSum(s)
  {
    if s != [] {
      CountsSum(s[..|s| - 1], counts[..|counts| - 1]);
    }
  }

  lemma {:induction false} SurvivingSum(rows: seq<Row>)
    requires AllTyped(Surviving(rows))
    ensures ErrorSum(Entries(Surviving(rows))) == PositiveErrors(rows)
  {
    if rows != [] {
      var n := |rows| - 1;
      var kept := Surviving(rows[..n]);
      SurvivingPrefixTyped(rows);
      SurvivingSum(rows[..n]);
      SurvivingStep(rows);
    }
  }

  lemma SurvivingPrefixTyped(rows: seq<Row>)
    requires rows != []
    requires AllTyped(Surviving(rows))
    ensures AllTyped(Surviving(rows[..|rows| - 1]))
  {
    var init := rows[..|rows| - 1];
    forall x | x in Surviving(init) ensures x.rtype.Some? {
      assert multiset(Surviving(init))[x] > 0;
      assert x in init;
      assert x in rows;
      assert multiset(Surviving(rows))[x] > 0;
    }
  }

  lemma SurvivingStep(rows: seq<Row>)
    requires rows != []
    requires AllTyped(Surviving(rows))
    requires AllTyped(Surviving(rows[..|rows| - 1]))
    ensures var last := rows[|rows| - 1];
      ErrorSum(Entries(Surviving(rows))) ==
      ErrorSum(Entries(Surviving(rows[..|rows| - 1]))) + if ErrorsOf(last) > 0 then ErrorsOf(last) else 0
  {
    var last := rows[|rows| - 1];
    var kept := Surviving(rows[..|rows| - 1]);
    if ErrorsOf(last) > 0 {
      assert Surviving(rows) == kept + [last];
      EntriesSnoc(kept, last);
      var es := Entries(kept) + [Entry(last.rtype.value, ErrorsOf(last))];
      assert es[..|es| - 1] == Entries(kept);
    } else {
      assert Surviving(rows) == kept;
    }
  }

  lemma EntriesSnoc(rows: seq<Row>, last: Row)
    requires AllTyped(rows + [last])
    ensures AllTyped(rows)
    ensures Entries(rows + [last]) == Entries(rows) + [Entry(last.rtype.value, ErrorsOf(last))]
  {
    assert forall x :: x in rows ==> x in rows + [last];
  }

  /** `total_errors` is the sum of the positive error counts of all records,
      and the pie shows exactly what `load_data` returned. */
  lemma TotalErrors(rows: seq<Row>)
    requires MainOutcome(rows).Ok? && MainOutcome(rows).value.Pie?
    ensures var p := MainOutcome(rows).value;
      && LoadData(rows) == Ok(Slices(p.labels, p.counts))
      && p.totalErrors == PositiveErrors(rows)
      && p.totalErrors > 0
  {
    var kept := Surviving(rows);
    var entries := Entries(kept);
    var sorted := Sort(entries);
    var p := MainOutcome(rows).value;
    CountsSum(sorted, p.counts);
    ErrorSumPermutation(sorted, entries);
    SurvivingSum(rows);
    LoadDataSlices(rows);
    PositiveSum(p.counts);
  }

  lemma {:induction false} PositiveSum(s: seq<int>)
    requires s != []
    requires forall i :: 0 <= i < |s| ==> s[i] > 0
    ensures SeqSum(s) > 0
  {
    if |s| > 1 {
      PositiveSum(s[..|s| - 1]);
    }
  }
}
