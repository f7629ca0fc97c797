/**
  The stacked per-type chart: a test's questions are tagged with a type, the
  user enters the numbers of the questions missed, and each type gets a bar of
  its total split into correct and missed, labelled "correct/total".
*/
module LayeredGraph {
  import opened Common
  import opened Text
  import opened Counting

  /** One entry of a test's "questions" list. */
  datatype Question = Question(number: int, qtype: string)

  /** One bar of the chart: the numbers it is drawn from. Its caption is
      `Label(correct, total)`. */
  datatype Bar = Bar(qtype: string, total: int, missed: int, correct: int)

  /** What reaches the charting library: the bars in drawing order and the top of the y axis. */
  datatype Chart = Chart(bars: seq<Bar>, ymax: int)

  // ---------------------------------------------------------------- question map

  /** `{q['number']: q['type'] for q in questions}`: later entries overwrite earlier ones. */
  function BuildQuestionMap(questions: seq<Question>): map<int, string> {
    if questions == [] then map[]
    else
      var q := questions[|questions| - 1];
      BuildQuestionMap(questions[..|questions| - 1])[q.number := q.qtype]
  }

  /** The question map has a key for exactly the question numbers of the test,
      and maps each to the type of the LAST question carrying that number. */
  lemma {:induction false} QuestionMapLastWins(questions: seq<Question>)
    ensures forall n :: n in BuildQuestionMap(questions) <==>
      exists i :: 0 <= i < |questions| && questions[i].number == n
    ensures forall i :: 0 <= i < |questions| ==>
      (forall j :: i < j < |questions| ==> questions[j].number != questions[i].number) ==>
      BuildQuestionMap(questions)[questions[i].number] == questions[i].qtype
  {
    if questions != [] {
      var p, q := questions[..|questions| - 1], questions[|questions| - 1];
      QuestionMapLastWins(p);
      var m := BuildQuestionMap(questions);
      forall n ensures n in m <==> exists i :: 0 <= i < |questions| && questions[i].number == n {
        if n in BuildQuestionMap(p) {
          var i :| 0 <= i < |p| && p[i].number == n;
          assert questions[i].number == n;
        }
        if exists i :: 0 <= i < |questions| && questions[i].number == n {
          var i :| 0 <= i < |questions| && questions[i].number == n;
          if i < |p| {
            assert p[i].number == n;
          }
        }
      }
      forall i | 0 <= i < |questions| &&
        (forall j :: i < j < |questions| ==> questions[j].number != questions[i].number)
        ensures m[questions[i].number] == questions[i].qtype
      {
        if i < |p| {
          assert p[i] == questions[i];
          assert forall j :: i < j < |p| ==> p[j].number != p[i].number by {
            forall j | i < j < |p| ensures p[j].number != p[i].number {
              assert p[j] == questions[j];
            }
          }
          assert q.number != questions[i].number by {
            assert q == questions[|questions| - 1];
          }
        }
      }
    }
  }

  /** The types of the questions, in test order. */
  function TypesOf(questions: seq<Question>): (r: seq<string>)
    ensures |r| == |questions|
  {
    seq(|questions|, i requires 0 <= i < |questions| => questions[i].qtype)
  }

  // ---------------------------------------------------------------- totals per type

  /** `total_questions_by_type`: the dictionary the loop builds is the tally
      of the question types, in question order. */
  method TotalQuestionsByType(questions: seq<Question>) returns (totals: Dict)
    ensures totals == Tally(TypesOf(questions))
  {
    ghost var types := TypesOf(questions);
    totals := Empty;
    for i := 0 to |questions|
      invariant totals == Tally(types[..i])
    {
      var qtype := questions[i].qtype;
      assert types[i] == qtype;
      TallyPrefix(types, i);
      totals := Increment(totals, qtype);
    }
    assert types[..|questions|] == types;
  }

  /** The totals by type: one key per type in order of first appearance,
      counting the questions of exactly that type; the counts add up to the
      number of questions. */
  lemma TypeTotals(questions: seq<Question>)
    ensures var totals := Tally(TypesOf(questions));
      && Valid(totals)
      && (forall t :: t in totals.vals <==> exists i :: 0 <= i < |questions| && questions[i].qtype == t)
      && (forall t :: t in totals.vals ==> totals.vals[t] == multiset(TypesOf(questions))[t])
      && (forall i, j :: 0 <= i < j < |totals.keys| ==>
            FirstIndex(TypesOf(questions), totals.keys[i]) < FirstIndex(TypesOf(questions), totals.keys[j]))
      && SeqSum(Values(totals)) == |questions|
  {
    var types := TypesOf(questions);
    TallyCounts(types);
    TypesOfMembers(questions);
    TallyKeyOrder(types);
    TallySum(types);
  }

  lemma TypesOfMembers(questions: seq<Question>)
    ensures forall t :: t in TypesOf(questions) <==> exists i :: 0 <= i < |questions| && questions[i].qtype == t
  {
    var types := TypesOf(questions);
    forall t ensures t in types <==> exists i :: 0 <= i < |questions| && questions[i].qtype == t {
      if t in types {
        var i :| 0 <= i < |types| && types[i] == t;
        assert questions[i].qtype == t;
      }
      if exists i :: 0 <= i < |questions| && questions[i].qtype == t {
        var i :| 0 <= i < |questions| && questions[i].qtype == t;
        assert types[i] == t;
      }
    }
  }

  // ---------------------------------------------------------------- collecting the misses

  /** The sentinel that ends the input: 'q' in either case, surrounding whitespace ignored. */
  predicate IsQuit(token: string) {
    Lower(Strip(token)) == "q"
  }

  /** A token is kept when, stripped, it is all digits and names a question of the test. */
  predicate Accepts(token: string, questionMap: map<int, string>) {
    var raw := Strip(token);
    IsDigits(raw) && DecimalValue(raw) in questionMap
  }

  /** What one token adds to the missed list: its number when accepted, nothing otherwise. */
  function Kept(token: string, questionMap: map<int, string>): (r: seq<int>)
    ensures forall n :: n in r ==> n in questionMap
  {
    if Accepts(token, questionMap) then [DecimalValue(Strip(token))] else []
  }

  /** The numbers of the accepted tokens, in entry order, repeats included. */
  function Accepted(tokens: seq<string>, questionMap: map<int, string>): (r: seq<int>)
    ensures AllKnown(r, questionMap)
  {
    if tokens == [] then []
    else
      var token := tokens[|tokens| - 1];
      Accepted(tokens[..|tokens| - 1], questionMap) + Kept(token, questionMap)
  }

  /** `k` is the position of the first sentinel among the tokens. */
  predicate FirstQuit(input: seq<string>, k: int) {
    0 <= k < |input| && IsQuit(input[k]) && forall j :: 0 <= j < k ==> !IsQuit(input[j])
  }

  /** The tokens have at most one first sentinel. */
  lemma FirstQuitUnique(input: seq<string>, a: int, b: int)
    requires FirstQuit(input, a) && FirstQuit(input, b)
    ensures a == b
  {
    assert IsQuit(input[a]) && IsQuit(input[b]);
  }

  /** `collect_missed_questions` over the tokens `input()` would return. It
      reads up to and including the first sentinel and no further; running out
      of tokens before a sentinel is `input()`'s EOFError. Only tokens that are
      all digits and name a question are kept, in entry order. */
  method CollectMissedQuestions(questionMap: map<int, string>, input: seq<string>)
    returns (r: Result<seq<int>>, consumed: nat)
    ensures consumed <= |input|
    ensures r.Ok? <==> exists j :: 0 <= j < |input| && IsQuit(input[j])
    ensures r.Err? ==> r.error == EndOfInput && consumed == |input|
    ensures r.Ok? ==>
      && 0 < consumed
      && IsQuit(input[consumed - 1])
      && (forall j :: 0 <= j < consumed - 1 ==> !IsQuit(input[j]))
      && r.value == Accepted(input[..consumed - 1], questionMap)
    ensures r.Ok? ==> AllKnown(r.value, questionMap)
  {
    var missed: seq<int> := [];
    consumed := 0;
    while consumed < |input|
      invariant consumed <= |input|
      invariant forall j :: 0 <= j < consumed ==> !IsQuit(input[j])
      invariant missed == Accepted(input[..consumed], questionMap)
    {
      var token := input[consumed];
      assert Accepted(input[..consumed + 1], questionMap) == missed + Kept(token, questionMap) by {
        AcceptedStep(input, consumed, questionMap);
      }
      var raw := Strip(token);
      consumed := consumed + 1;
      if IsQuit(token) {
        assert input[consumed - 1] == token;
        return Ok(missed), consumed;
      }
      assert forall j :: 0 <= j < consumed ==> !IsQuit(input[j]) by {
        forall j | 0 <= j < consumed ensures !IsQuit(input[j]) {
          if j == consumed - 1 {
            assert input[j] == token;
          }
        }
      }
      KeptCases(token, questionMap);
      if !IsDigits(raw) {
        continue;
      }
      var qnum := DecimalValue(raw);
      if qnum !in questionMap {
        continue;
      }
      missed := missed + [qnum];
    }
    assert input[..consumed] == input;
    assert !exists j :: 0 <= j < |input| && IsQuit(input[j]);
    return Err(EndOfInput), consumed;
  }

  /** What one token adds, case by case as the loop tests it. */
  lemma KeptCases(token: string, questionMap: map<int, string>)
    ensures var raw := Strip(token);
      && (!IsDigits(raw) ==> Kept(token, questionMap) == [])
      && (IsDigits(raw) && DecimalValue(raw) !in questionMap ==> Kept(token, questionMap) == [])
      && (IsDigits(raw) && DecimalValue(raw) in questionMap ==> Kept(token, questionMap) == [DecimalValue(raw)])
  {
  }

  lemma AcceptedStep(input: seq<string>, n: nat, questionMap: map<int, string>)
    requires n < |input|
    ensures Accepted(input[..n + 1], questionMap) == Accepted(input[..n], questionMap) + Kept(input[n], questionMap)
  {
    assert input[..n + 1][..n] == input[..n];
  }

  /** A token that is not all digits once stripped, or that names no question,
      adds nothing. */
  lemma RejectedAddsNothing(tokens: seq<string>, token: string, questionMap: map<int, string>)
    requires !Accepts(token, questionMap)
    ensures Accepted(tokens + [token], questionMap) == Accepted(tokens, questionMap)
  {
    assert (tokens + [token])[..|tokens|] == tokens;
  }

  /** Entering a valid number twice records it twice. */
  lemma RepeatIsKept(tokens: seq<string>, token: string, questionMap: map<int, string>)
    requires Accepts(token, questionMap)
    ensures var n := DecimalValue(Strip(token));
      Accepted(tokens + [token, token], questionMap) == Accepted(tokens, questionMap) + [n, n]
  {
    var n := DecimalValue(Strip(token));
    assert Kept(token, questionMap) == [n];
    var once := tokens + [token];
    var twice := once + [token];
    assert tokens + [token, token] == twice;
    assert once[..|once| - 1] == tokens;
    assert twice[..|twice| - 1] == once;
    assert Accepted(once, questionMap) == Accepted(tokens, questionMap) + [n];
    assert Accepted(twice, questionMap) == Accepted(once, questionMap) + [n];
  }

  // ---------------------------------------------------------------- misses per type

  /** Every missed number is a question of the map. */
  predicate AllKnown(missed: seq<int>, questionMap: map<int, string>) {
    forall i :: 0 <= i < |missed| ==> missed[i] in questionMap
  }

  /** The type of each missed number, in the order of the missed list. */
  function MissedTypes(missed: seq<int>, questionMap: map<int, string>): (r: seq<string>)
    requires AllKnown(missed, questionMap)
    ensures |r| == |missed|
  {
    seq(|missed|, i requires 0 <= i < |missed| => questionMap[missed[i]])
  }

  /** `count_missed_by_type`: a KeyError for the first missed number that is not
      a question of the map; otherwise one key per type met, counting the missed
      entries of that type (repeats included), adding up to the number of misses. */
  method CountMissedByType(missed: seq<int>, questionMap: map<int, string>) returns (r: Result<Dict>)
    ensures r.Ok? <==> AllKnown(missed, questionMap)
    ensures r.Err? ==> exists i ::
      && 0 <= i < |missed| && r.error == UnknownQuestion(missed[i]) && missed[i] !in questionMap
      && AllKnown(missed[..i], questionMap)
    ensures r.Ok? ==> r.value == Tally(MissedTypes(missed, questionMap))
  {
    var missedCounts := Empty;
    ghost var types: seq<string> := [];
    for i := 0 to |missed|
      invariant AllKnown(missed[..i], questionMap)
      invariant types == MissedTypes(missed[..i], questionMap)
      invariant missedCounts == Tally(types)
    {
      var qnum := missed[i];
      if qnum !in questionMap {
        assert !AllKnown(missed, questionMap) by {
          assert missed[i] !in questionMap;
        }
        return Err(UnknownQuestion(qnum));
      }
      var qtype := questionMap[qnum];
      assert AllKnown(missed[..i + 1], questionMap)
        && MissedTypes(missed[..i + 1], questionMap) == types + [qtype] by {
        MissedTypesSnoc(missed, i, questionMap);
      }
      assert Tally(types + [qtype]) == Increment(missedCounts, qtype) by {
        TallySnoc(types, qtype);
      }
      missedCounts := Increment(missedCounts, qtype);
      types := types + [qtype];
    }
    assert missed[..|missed|] == missed;
    r := Ok(missedCounts);
  }

  /** The misses by type: one key per type met, counting the missed entries of
      that type (repeats included); the counts add up to the number of misses. */
  lemma MissedTypeCounts(missed: seq<int>, questionMap: map<int, string>)
    requires AllKnown(missed, questionMap)
    ensures var types := MissedTypes(missed, questionMap);
      var counts := Tally(types);
      && (forall t :: t in counts.vals <==> exists i :: 0 <= i < |missed| && types[i] == t)
      && (forall t :: t in counts.vals ==> counts.vals[t] == multiset(types)[t])
      && SeqSum(Values(counts)) == |missed|
  {
    var types := MissedTypes(missed, questionMap);
    TallyCounts(types);
    TallySum(types);
  }

  lemma MissedTypesSnoc(missed: seq<int>, i: nat, questionMap: map<int, string>)
    requires i < |missed| && AllKnown(missed[..i], questionMap) && missed[i] in questionMap
    ensures AllKnown(missed[..i + 1], questionMap)
    ensures MissedTypes(missed[..i + 1], questionMap) == MissedTypes(missed[..i], questionMap) + [questionMap[missed[i]]]
  {
    assert missed[..i + 1] == missed[..i] + [missed[i]];
  }

  // ---------------------------------------------------------------- ordering the types

  /** Every element of `s` has a total in `w`. */
  predicate Weighted(s: seq<string>, w: map<string, int>) {
    forall i :: 0 <= i < |s| ==> s[i] in w
  }

  /** The totals never increase along `s`. */
  predicate Descending(s: seq<string>, w: map<string, int>)
    requires Weighted(s, w)
  {
    forall i, j :: 0 <= i < j < |s| ==> w[s[i]] >= w[s[j]]
  }

  /** The elements of `s` whose total is `v`, in their order in `s`. */
  function WithTotal(s: seq<string>, w: map<string, int>, v: int): seq<string>
    requires Weighted(s, w)
  {
    if s == [] then []
    else (if w[s[0]] == v then [s[0]] else []) + WithTotal(s[1..], w, v)
  }

  /** Puts `x` before the first element whose total is not larger than its own. */
  function InsertByTotal(x: string, s: seq<string>, w: map<string, int>): (r: seq<string>)
    requires x in w && Weighted(s, w)
    ensures multiset(r) == multiset([x] + s)
    ensures Weighted(r, w)
  {
    if s == [] || w[s[0]] <= w[x] then [x] + s
    else
      var rest := InsertByTotal(x, s[1..], w);
      assert s == [s[0]] + s[1..];
      assert multiset([x] + s) == multiset{s[0]} + multiset([x] + s[1..]);
      assert multiset([s[0]] + rest) == multiset{s[0]} + multiset(rest);
      assert forall k :: 0 < k <= |rest| ==> ([s[0]] + rest)[k] == rest[k - 1];
      [s[0]] + rest
  }

  /** `sorted(items, key=total, reverse=True)` on the keys: a stable sort,
      largest total first. */
  function SortByTotal(s: seq<string>, w: map<string, int>): (r: seq<string>)
    requires Weighted(s, w)
    ensures multiset(r) == multiset(s)
    ensures Weighted(r, w)
  {
    if s == [] then []
    else
      assert s == [s[0]] + s[1..];
      InsertByTotal(s[0], SortByTotal(s[1..], w), w)
  }

  lemma {:induction false} InsertByTotalDescending(x: string, s: seq<string>, w: map<string, int>)
    requires x in w && Weighted(s, w) && Descending(s, w)
    ensures Descending(InsertByTotal(x, s, w), w)
  {
    if s != [] && w[s[0]] > w[x] {
      var rest := InsertByTotal(x, s[1..], w);
      assert InsertByTotal(x, s, w) == [s[0]] + rest;
      assert Descending(s[1..], w) by {
        forall i, j | 0 <= i < j < |s[1..]| ensures w[s[1..][i]] >= w[s[1..][j]] {
          assert s[1..][i] == s[i + 1] && s[1..][j] == s[j + 1];
        }
      }
      InsertByTotalDescending(x, s[1..], w);
      InsertByTotalBound(x, s[1..], w, w[s[0]]);
      DescendingCons(s[0], rest, w);
    } else {
      assert forall k :: 0 <= k < |s| ==> w[s[k]] <= w[x] by {
        forall k | 0 <= k < |s| ensures w[s[k]] <= w[x] {
          if k > 0 {
            assert w[s[0]] >= w[s[k]];
          }
        }
      }
      DescendingCons(x, s, w);
    }
  }

  /** A head with a total no smaller than any in a descending tail keeps it descending. */
  lemma DescendingCons(h: string, t: seq<string>, w: map<string, int>)
    requires h in w && Weighted(t, w) && Descending(t, w)
    requires forall k :: 0 <= k < |t| ==> w[t[k]] <= w[h]
    ensures Weighted([h] + t, w) && Descending([h] + t, w)
  {
    var r := [h] + t;
    forall i, j | 0 <= i < j < |r| ensures w[r[i]] >= w[r[j]] {
      assert r[j] == t[j - 1];
      if i > 0 {
        assert r[i] == t[i - 1];
      }
    }
  }

  /** Insertion brings in no total above a bound that `x` and `s` respect. */
  lemma {:induction false} InsertByTotalBound(x: string, s: seq<string>, w: map<string, int>, b: int)
    requires x in w && Weighted(s, w)
    requires w[x] <= b && forall k :: 0 <= k < |s| ==> w[s[k]] <= b
    ensures forall k :: 0 <= k < |InsertByTotal(x, s, w)| ==> w[InsertByTotal(x, s, w)[k]] <= b
  {
    if s != [] && w[s[0]] > w[x] {
      var rest := InsertByTotal(x, s[1..], w);
      assert InsertByTotal(x, s, w) == [s[0]] + rest;
      InsertByTotalBound(x, s[1..], w, b);
    }
  }

  lemma {:induction false} SortByTotalDescending(s: seq<string>, w: map<string, int>)
    requires Weighted(s, w)
    ensures Descending(SortByTotal(s, w), w)
  {
    if s != [] {
      SortByTotalDescending(s[1..], w);
      InsertByTotalDescending(s[0], SortByTotal(s[1..], w), w);
    }
  }

  lemma {:induction false} InsertByTotalWithTotal(x: string, s: seq<string>, w: map<string, int>, v: int)
    requires x in w && Weighted(s, w)
    ensures WithTotal(InsertByTotal(x, s, w), w, v) ==
      (if w[x] == v then [x] else []) + WithTotal(s, w, v)
  {
    if s == [] || w[s[0]] <= w[x] {
      WithTotalCons(x, s, w, v);
    } else {
      var rest := InsertByTotal(x, s[1..], w);
      assert InsertByTotal(x, s, w) == [s[0]] + rest;
      InsertByTotalWithTotal(x, s[1..], w, v);
      WithTotalCons(s[0], rest, w, v);
      assert s == [s[0]] + s[1..];
      WithTotalCons(s[0], s[1..], w, v);
    }
  }

  lemma WithTotalCons(h: string, t: seq<string>, w: map<string, int>, v: int)
    requires h in w && Weighted(t, w)
    ensures Weighted([h] + t, w)
    ensures WithTotal([h] + t, w, v) == (if w[h] == v then [h] else []) + WithTotal(t, w, v)
  {
    assert ([h] + t)[1..] == t;
  }

  /** Stability: among types with equal totals, the sort keeps the dictionary's order. */
  lemma {:induction false} SortByTotalStable(s: seq<string>, w: map<string, int>, v: int)
    requires Weighted(s, w)
    ensures WithTotal(SortByTotal(s, w), w, v) == WithTotal(s, w, v)
  {
    if s != [] {
      SortByTotalStable(s[1..], w, v);
      InsertByTotalWithTotal(s[0], SortByTotal(s[1..], w), w, v);
    }
  }

  /** The types in drawing order: every type of the dictionary once, totals
      non-increasing, and types with equal totals in the dictionary's order. */
  function OrderByTotal(totals: Dict): (types: seq<string>)
    requires Valid(totals)
    ensures |types| == |totals.keys| && multiset(types) == multiset(totals.keys)
    ensures Weighted(types, totals.vals) && Descending(types, totals.vals)
  {
    var w := totals.vals;
    assert Weighted(totals.keys, w);
    SortByTotalDescending(totals.keys, w);
    SortByTotal(totals.keys, w)
  }

  /** Types with equal totals are drawn in the dictionary's insertion order. */
  lemma OrderByTotalStable(totals: Dict, v: int)
    requires Valid(totals)
    ensures Weighted(totals.keys, totals.vals)
    ensures WithTotal(OrderByTotal(totals), totals.vals, v) == WithTotal(totals.keys, totals.vals, v)
  {
    assert Weighted(totals.keys, totals.vals);
    SortByTotalStable(totals.keys, totals.vals, v);
  }

  // ---------------------------------------------------------------- the bars

  /** The text drawn above a bar: `f"{c}/{total}"`. */
  function Label(correct: int, total: int): string {
    IntToDecimal(correct) + "/" + IntToDecimal(total)
  }

  /** The label splits at its only '/' into the two numbers it was made from. */
  lemma LabelReadsBack(correct: int, total: int)
    ensures var l, k := Label(correct, total), |IntToDecimal(correct)|;
      && k < |l| && l[k] == '/'
      && (forall j :: 0 <= j < k ==> l[j] != '/')
      && ParseInt(l[..k]) == Some(correct)
      && ParseInt(l[k + 1..]) == Some(total)
  {
    var c, t := IntToDecimal(correct), IntToDecimal(total);
    IntToDecimalRoundTrip(correct);
    IntToDecimalRoundTrip(total);
    var l := Label(correct, total);
    assert l[..|c|] == c;
    assert l[|c| + 1..] == t;
  }

  /** `max(s)` */
  function MaxOf(s: seq<int>): (m: int)
    requires |s| > 0
    ensures forall i :: 0 <= i < |s| ==> s[i] <= m
    ensures exists i :: 0 <= i < |s| && s[i] == m
  {
    if |s| == 1 then s[0]
    else
      var m := MaxOf(s[1..]);
      if s[0] >= m then s[0] else m
  }

  /** One bar: `correct = total - missed`. */
  function MakeBar(qtype: string, total: int, missed: int): Bar {
    Bar(qtype, total, missed, total - missed)
  }

  /** The largest of a list that starts with its largest element is the first one. */
  lemma MaxOfFirst(s: seq<int>)
    requires |s| > 0 && forall i :: 0 <= i < |s| ==> s[0] >= s[i]
    ensures MaxOf(s) == s[0]
  {
  }

  /** `totals_list`: the total of each type, in the given order. */
  function TotalsList(types: seq<string>, w: map<string, int>): seq<int>
    requires Weighted(types, w)
  {
    seq(|types|, i requires 0 <= i < |types| => w[types[i]])
  }

  /** One bar per type, in the given order, with `missed_by_type.get(t, 0)` misses. */
  function StackedBars(types: seq<string>, w: map<string, int>, missedByType: Dict): seq<Bar>
    requires Weighted(types, w)
  {
    seq(|types|, i requires 0 <= i < |types| => MakeBar(types[i], w[types[i]], Get(missedByType, types[i], 0)))
  }

  /** The numbers computed in `plot_per_type_stacked`; `max()` of no totals is a ValueError. */
  function PlotPerTypeStacked(totals: Dict, missedByType: Dict): (r: Result<Chart>)
    requires Valid(totals)
    ensures r.Err? <==> totals.keys == []
    ensures r.Err? ==> r.error == EmptyMaxArgument
  {
    var types := OrderByTotal(totals);
    var bars := StackedBars(types, totals.vals, missedByType);
    if |types| == 0 then Err(EmptyMaxArgument)
    else Ok(Chart(bars, MaxOf(TotalsList(types, totals.vals)) + 1))
  }

  /** Bar `b` is drawn for type `t`: its total, its misses (0 for a type
      nobody missed) and its correct count `total - missed`. */
  predicate ShowsType(b: Bar, t: string, w: map<string, int>, missedByType: Dict) {
    && b.qtype == t && t in w && b.total == w[t]
    && b.missed == Get(missedByType, t, 0)
    && b.correct == b.total - b.missed
  }

  /** One bar per type, in drawing order, each showing its type's numbers. */
  lemma PlotPerTypeStackedBars(totals: Dict, missedByType: Dict)
    requires Valid(totals) && totals.keys != []
    ensures PlotPerTypeStacked(totals, missedByType).Ok?
    ensures var bars := PlotPerTypeStacked(totals, missedByType).value.bars;
      && |bars| == |totals.keys|
      && forall i :: 0 <= i < |bars| ==> ShowsType(bars[i], OrderByTotal(totals)[i], totals.vals, missedByType)
  {
    var types := OrderByTotal(totals);
    var w := totals.vals;
    var bars := StackedBars(types, w, missedByType);
    assert PlotPerTypeStacked(totals, missedByType).value.bars == bars;
    forall i | 0 <= i < |bars| ensures ShowsType(bars[i], types[i], w, missedByType) {
      assert bars[i] == MakeBar(types[i], w[types[i]], Get(missedByType, types[i], 0));
    }
  }

  /** The bars' totals never increase from left to right. */
  lemma PlotPerTypeStackedDescending(totals: Dict, missedByType: Dict)
    requires Valid(totals) && totals.keys != []
    ensures PlotPerTypeStacked(totals, missedByType).Ok?
    ensures var bars := PlotPerTypeStacked(totals, missedByType).value.bars;
      forall i, j :: 0 <= i < j < |bars| ==> bars[i].total >= bars[j].total
  {
    var types := OrderByTotal(totals);
    var w := totals.vals;
    var bars := StackedBars(types, w, missedByType);
    assert PlotPerTypeStacked(totals, missedByType).value.bars == bars;
    forall i, j | 0 <= i < j < |bars| ensures bars[i].total >= bars[j].total {
      assert bars[i].total == w[types[i]] && bars[j].total == w[types[j]];
    }
  }

  /** The top of the y axis is one above the largest total, which is the first bar's. */
  lemma PlotPerTypeStackedYmax(totals: Dict, missedByType: Dict)
    requires Valid(totals) && totals.keys != []
    ensures PlotPerTypeStacked(totals, missedByType).Ok?
    ensures var chart := PlotPerTypeStacked(totals, missedByType).value;
      && |chart.bars| == |totals.keys|
      && (forall i :: 0 <= i < |chart.bars| ==> chart.bars[i].total < chart.ymax)
      && chart.ymax == chart.bars[0].total + 1
  {
    var types := OrderByTotal(totals);
    var w := totals.vals;
    var totalsList := TotalsList(types, w);
    var bars := StackedBars(types, w, missedByType);
    assert PlotPerTypeStacked(totals, missedByType).value == Chart(bars, MaxOf(totalsList) + 1);
    DescendingBars(types, w, missedByType);
  }

  /** Over types in descending order of total, the largest total is the first
      one and every bar's total is at most that. */
  lemma DescendingBars(types: seq<string>, w: map<string, int>, missedByType: Dict)
    requires Weighted(types, w) && Descending(types, w) && types != []
    ensures MaxOf(TotalsList(types, w)) == w[types[0]]
    ensures var bars := StackedBars(types, w, missedByType);
      forall i :: 0 <= i < |bars| ==> bars[i].total == w[types[i]] <= w[types[0]]
  {
    var totalsList := TotalsList(types, w);
    var bars := StackedBars(types, w, missedByType);
    forall i | 0 <= i < |totalsList| ensures totalsList[0] >= totalsList[i] {
      if i > 0 {
        assert w[types[0]] >= w[types[i]];
      }
    }
    MaxOfFirst(totalsList);
    forall i | 0 <= i < |bars| ensures bars[i].total == w[types[i]] <= w[types[0]] {
      assert bars[i] == MakeBar(types[i], w[types[i]], Get(missedByType, types[i], 0));
      if i > 0 {
        assert w[types[0]] >= w[types[i]];
      }
    }
  }

  // ---------------------------------------------------------------- bounds and the whole run

  lemma SubsetCard(a: set<int>, b: set<int>)
    requires a <= b
    ensures |a| <= |b|
  {
    assert b == a + (b - a);
  }

  /** No number is listed twice. */
  predicate NoRepeats(s: seq<int>) {
    forall i, j :: 0 <= i < j < |s| ==> s[i] != s[j]
  }

  /** The numbers of the map whose type is `t`. */
  function NumbersOfType(questionMap: map<int, string>, t: string): set<int> {
    set n | n in questionMap && questionMap[n] == t
  }

  /** The numbers of `missed` whose type is `t`. */
  function MissedOfType(missed: seq<int>, questionMap: map<int, string>, t: string): set<int> {
    set n | n in missed && n in questionMap && questionMap[n] == t
  }

  /** A type has no more question numbers than questions. */
  lemma {:induction false} NumbersOfTypeBound(questions: seq<Question>, t: string)
    ensures |NumbersOfType(BuildQuestionMap(questions), t)| <= multiset(TypesOf(questions))[t]
  {
    if questions != [] {
      var p, q := questions[..|questions| - 1], questions[|questions| - 1];
      NumbersOfTypeBound(p, t);
      var before := NumbersOfType(BuildQuestionMap(p), t);
      var after := NumbersOfType(BuildQuestionMap(questions), t);
      assert TypesOf(questions) == TypesOf(p) + [q.qtype];
      if q.qtype == t {
        SubsetCard(after, before + {q.number});
      } else {
        SubsetCard(after, before);
      }
    }
  }

  /** Without repeats, the misses of type `t` are as many as the distinct missed numbers of that type. */
  lemma {:induction false} MissedCountIsDistinct(missed: seq<int>, questionMap: map<int, string>, t: string)
    requires NoRepeats(missed) && AllKnown(missed, questionMap)
    ensures multiset(MissedTypes(missed, questionMap))[t] == |MissedOfType(missed, questionMap, t)|
  {
    if missed != [] {
      var p, x := missed[..|missed| - 1], missed[|missed| - 1];
      assert missed == p + [x];
      assert AllKnown(p, questionMap) && NoRepeats(p);
      MissedCountIsDistinct(p, questionMap, t);
      assert MissedTypes(missed, questionMap) == MissedTypes(p, questionMap) + [questionMap[x]];
      assert x !in p;
      MissedOfTypeSnoc(p, x, questionMap, t);
    }
  }

  lemma MissedOfTypeSnoc(p: seq<int>, x: int, questionMap: map<int, string>, t: string)
    requires x in questionMap
    ensures MissedOfType(p + [x], questionMap, t) ==
      MissedOfType(p, questionMap, t) + if questionMap[x] == t then {x} else {}
  {
    forall n ensures n in p + [x] <==> n in p || n == x {
    }
  }

  /** When the missed list has no repeats and every number is a question of the
      same test, no type has more misses than questions. */
  lemma MissedWithinTotal(questions: seq<Question>, missed: seq<int>, t: string)
    requires NoRepeats(missed) && AllKnown(missed, BuildQuestionMap(questions))
    ensures multiset(MissedTypes(missed, BuildQuestionMap(questions)))[t] <= multiset(TypesOf(questions))[t]
  {
    var m := BuildQuestionMap(questions);
    MissedCountIsDistinct(missed, m, t);
    SubsetCard(MissedOfType(missed, m, t), NumbersOfType(m, t));
    NumbersOfTypeBound(questions, t);
  }

  /** The same bound read through the two dictionaries the chart is drawn from. */
  lemma TypeWithinTotal(questions: seq<Question>, missed: seq<int>, t: string)
    requires NoRepeats(missed) && AllKnown(missed, BuildQuestionMap(questions))
    requires t in Tally(TypesOf(questions)).vals
    ensures 0 <= Get(Tally(MissedTypes(missed, BuildQuestionMap(questions))), t, 0)
              <= Tally(TypesOf(questions)).vals[t]
  {
    var missedTypes := MissedTypes(missed, BuildQuestionMap(questions));
    TallyCounts(TypesOf(questions));
    TallyCounts(missedTypes);
    MissedWithinTotal(questions, missed, t);
  }

  /** With a repeat-free missed list validated against the same test, every
      bar has `0 <= missed <= total` and a non-negative correct count. */
  lemma CorrectNeverNegative(questions: seq<Question>, missed: seq<int>)
    requires questions != []
    requires NoRepeats(missed) && AllKnown(missed, BuildQuestionMap(questions))
    ensures var r := PlotPerTypeStacked(Tally(TypesOf(questions)),
                                        Tally(MissedTypes(missed, BuildQuestionMap(questions))));
      r.Ok? && BarsInRange(r.value.bars)
  {
    var types := TypesOf(questions);
    var totals, missedByType := Tally(types), Tally(MissedTypes(missed, BuildQuestionMap(questions)));
    assert totals.keys != [] by {
      TallyCounts(types);
      assert types[0] in totals.vals;
    }
    forall t | t in totals.vals ensures 0 <= Get(missedByType, t, 0) <= totals.vals[t] {
      TypeWithinTotal(questions, missed, t);
    }
    BarsWithinTotals(totals, missedByType);
  }

  /** Every bar's misses lie between 0 and its total, and its correct count is not negative. */
  predicate BarsInRange(bars: seq<Bar>) {
    forall i :: 0 <= i < |bars| ==> 0 <= bars[i].missed <= bars[i].total && bars[i].correct >= 0
  }

  /** When no type has more misses than questions, every bar's misses lie
      between 0 and its total, so its correct count is not negative. */
  lemma BarsWithinTotals(totals: Dict, missedByType: Dict)
    requires Valid(totals) && totals.keys != []
    requires forall t :: t in totals.vals ==> 0 <= Get(missedByType, t, 0) <= totals.vals[t]
    ensures var r := PlotPerTypeStacked(totals, missedByType);
      r.Ok? && BarsInRange(r.value.bars)
  {
    PlotPerTypeStackedBars(totals, missedByType);
    var order := OrderByTotal(totals);
    var bars := PlotPerTypeStacked(totals, missedByType).value.bars;
    forall i | 0 <= i < |bars|
      ensures 0 <= bars[i].missed <= bars[i].total && bars[i].correct >= 0
    {
      assert ShowsType(bars[i], order[i], totals.vals, missedByType);
    }
  }

  // The dictionaries of a one-question test whose question was entered twice.

  /** A test of one question, number 1 of type "Detail", maps 1 to "Detail". */
  lemma OneQuestionMap()
    ensures BuildQuestionMap([Question(1, "Detail")]) == map[1 := "Detail"]
  {
    assert [Question(1, "Detail")][..0] == [];
  }

  lemma OneQuestionTotals()
    ensures var d := Tally(TypesOf([Question(1, "Detail")]));
      d.keys == ["Detail"] && "Detail" in d.vals && d.vals["Detail"] == 1
  {
    assert TypesOf([Question(1, "Detail")]) == ["Detail"];
    TallySingle("Detail");
  }

  lemma RepeatedMissTallies()
    ensures var m := BuildQuestionMap([Question(1, "Detail")]);
      && AllKnown([1, 1], m)
      && var d := Tally(MissedTypes([1, 1], m));
      && d.keys == ["Detail"] && "Detail" in d.vals && d.vals["Detail"] == 2
  {
    OneQuestionMap();
    assert AllKnown([1, 1], map[1 := "Detail"]);
    assert MissedTypes([1, 1], map[1 := "Detail"]) == ["Detail", "Detail"];
    TallyPair("Detail");
  }

  /** A number entered twice is counted twice, so the correct count can go negative. */
  lemma RepeatedMissGoesNegative()
    ensures var questions := [Question(1, "Detail")];
      var m := BuildQuestionMap(questions);
      && AllKnown([1, 1], m)
      && var r := PlotPerTypeStacked(Tally(TypesOf(questions)), Tally(MissedTypes([1, 1], m)));
      && r.Ok? && |r.value.bars| == 1
      && r.value.bars[0].total == 1 && r.value.bars[0].missed == 2
      && r.value.bars[0].correct == -1 && Label(r.value.bars[0].correct, r.value.bars[0].total) == "-1/1"
  {
    OneQuestionTotals();
    RepeatedMissTallies();
    var totals := Tally(TypesOf([Question(1, "Detail")]));
    var missedByType := Tally(MissedTypes([1, 1], map[1 := "Detail"]));
    PlotPerTypeStackedBars(totals, missedByType);
    var r := PlotPerTypeStacked(totals, missedByType);
    var bar := r.value.bars[0];
    assert bar.qtype == "Detail" by {
      assert bar.qtype in totals.keys;
    }
    assert bar.total == 1 && bar.missed == 2 && bar.correct == -1;
    NegativeLabel();
  }

  lemma NegativeLabel()
    ensures Label(-1, 1) == "-1/1"
  {
    assert NatToDecimal(1) == "1";
  }

  /** `main` once a test is chosen: build the map and the totals, collect the
      misses up to the first sentinel, count them by type and shape the chart.
      The count by type never raises, since every collected number is a question. */
  method AnalyzeTest(questions: seq<Question>, input: seq<string>) returns (r: Result<Chart>)
    ensures (forall j :: 0 <= j < |input| ==> !IsQuit(input[j])) ==> r == Err(EndOfInput)
    ensures forall k :: FirstQuit(input, k) ==>
      var m := BuildQuestionMap(questions);
      r == PlotPerTypeStacked(Tally(TypesOf(questions)), Tally(MissedTypes(Accepted(input[..k], m), m)))
  {
    var questionMap := BuildQuestionMap(questions);
    var totalsByType := TotalQuestionsByType(questions);
    var collected, consumed := CollectMissedQuestions(questionMap, input);
    if collected.Err? {
      assert forall k :: !FirstQuit(input, k);
      return Err(collected.error);
    }
    assert FirstQuit(input, consumed - 1);
    assert !forall j :: 0 <= j < |input| ==> !IsQuit(input[j]);
    forall k | FirstQuit(input, k) ensures k == consumed - 1 {
      FirstQuitUnique(input, k, consumed - 1);
    }
    var missedQuestions := collected.value;
    var missedByType := CountMissedByType(missedQuestions, questionMap);
    assert missedByType.Ok?;
    r := PlotPerTypeStacked(totalsByType, missedByType.value);
  }
}
