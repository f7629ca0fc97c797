/**
  The section script: read error types one per prompt, capitalise each, and
  count them in a dictionary until `.q` (in any case) is entered; the bar chart
  then shows the dictionary's keys in first-entry order, their counts, and
  the bar positions `0, 1, ...`.
  The prompts are a finite sequence of tokens; running out of them before the
  sentinel is `input()` raising EOFError.
*/
module SectionErrors {
  import opened Common
  import opened Text
  import opened Counting

  /** The numbers the bar chart is drawn from. */
  datatype Bars = Bars(errTypes: seq<string>, errCount: seq<int>, xPos: seq<int>)

  /** The loop condition `err.lower() != ".q"` fails. */
  predicate Ends(err: string) {
    Lower(err) == ".q"
  }

  /** The token whose capitalised form ends the loop. */
  predicate IsSentinel(token: string) {
    Ends(Capitalize(token))
  }

  /** Capitalising first does not change which tokens end the loop. */
  lemma SentinelIgnoresCapitalize(token: string)
    ensures IsSentinel(token) <==> Lower(token) == ".q"
  {
    LowerOfCapitalize(token);
  }

  /** The dictionary keys the tokens are counted under. */
  function Keys(tokens: seq<string>): (r: seq<string>)
    ensures |r| == |tokens|
  {
    seq(|tokens|, i requires 0 <= i < |tokens| => Capitalize(tokens[i]))
  }

  lemma KeysSnoc(input: seq<string>, i: nat)
    requires 0 < i <= |input|
    ensures Keys(input[..i]) == Keys(input[..i - 1]) + [Capitalize(input[i - 1])]
  {
    var a := Keys(input[..i]);
    var b := Keys(input[..i - 1]) + [Capitalize(input[i - 1])];
    forall k | 0 <= k < i ensures a[k] == b[k] {
      assert input[..i][k] == input[k];
      if k < i - 1 {
        assert input[..i - 1][k] == input[k];
      }
    }
  }

  /** `err_types`, `err_count` and `x_pos` from a dictionary. */
  function BarsOf(d: Dict): Bars
    requires Valid(d)
  {
    Bars(d.keys, Values(d), seq(|d.keys|, i requires 0 <= i < |d.keys| => i))
  }

  /** The script up to `plt.bar`: `consumed` tokens are read; the last one read
      is the first sentinel, and the chart counts the capitalised tokens
      before it. Without a sentinel every token is read and the next prompt
      raises EOFError. */
  method CountSectionErrors(input: seq<string>) returns (r: Result<Bars>, consumed: nat)
    ensures consumed <= |input|
    ensures r.Ok? <==> exists k :: 0 <= k < |input| && IsSentinel(input[k])
    ensures r.Err? ==> r.error == EndOfInput && consumed == |input|
    ensures r.Ok? ==> 0 < consumed && IsSentinel(input[consumed - 1])
    ensures r.Ok? ==> forall j :: 0 <= j < consumed - 1 ==> !IsSentinel(input[j])
    ensures r.Ok? ==> r.value == BarsOf(Tally(Keys(input[..consumed - 1])))
  {
    if |input| == 0 {
      return Err(EndOfInput), 0;
    }
    var err := Capitalize(input[0]);
    var i := 1;
    var errorDict := Empty;
    ghost var read: seq<string> := [];
    assert input[..0] == [];
    while !Ends(err)
      invariant 1 <= i <= |input|
      invariant err == Capitalize(input[i - 1])
      invariant forall j :: 0 <= j < i - 1 ==> !IsSentinel(input[j])
      invariant read == Keys(input[..i - 1])
      invariant errorDict == Tally(read)
      decreases |input| - i
    {
      assert !IsSentinel(input[i - 1]);
      assert forall j :: 0 <= j < i ==> !IsSentinel(input[j]) by {
        forall j | 0 <= j < i ensures !IsSentinel(input[j]) {
          if j < i - 1 {
            assert !IsSentinel(input[j]);
          }
        }
      }
      assert Keys(input[..i]) == read + [err] by {
        KeysSnoc(input, i);
      }
      assert Tally(read + [err]) == Increment(errorDict, err) by {
        TallySnoc(read, err);
      }
      IncrementCases(errorDict, err);
      if err in errorDict.vals {
        errorDict := Put(errorDict, err, errorDict.vals[err] + 1);
      } else {
        errorDict := Put(errorDict, err, 1);
      }
      read := read + [err];
      if i == |input| {
        return Err(EndOfInput), i;
      }
      err := Capitalize(input[i]);
      i := i + 1;
    }
    return Ok(BarsOf(errorDict)), i;
  }

  // The chart for the capitalised tokens `ks` read before the sentinel
  // (`Keys` of them), fact by fact.

  /** `x_pos` is `0 .. len(err_types) - 1`, one position per bar. */
  lemma SectionBarsPositions(ks: seq<string>)
    ensures var b := BarsOf(Tally(ks));
      && |b.errCount| == |b.errTypes| == |b.xPos|
      && forall i :: 0 <= i < |b.xPos| ==> b.xPos[i] == i
  {
  }

  /** Each distinct key is one bar, and its count is the number of tokens
      that capitalise to it. */
  lemma SectionBarsCounts(ks: seq<string>)
    ensures var b := BarsOf(Tally(ks));
      && (forall t :: t in b.errTypes <==> t in ks)
      && forall i :: 0 <= i < |b.errTypes| ==> b.errCount[i] == multiset(ks)[b.errTypes[i]]
  {
    var d := Tally(ks);
    var b := BarsOf(d);
    assert b.errTypes == d.keys && b.errCount == Values(d);
    TallyCounts(ks);
  }

  /** The bars are in order of first entry. */
  lemma SectionBarsOrder(ks: seq<string>)
    ensures InFirstOccurrenceOrder(BarsOf(Tally(ks)).errTypes, ks)
  {
    TallyKeyOrder(ks);
  }

  /** The counts add up to the number of tokens read before the sentinel. */
  lemma SectionBarsSum(ks: seq<string>)
    ensures SeqSum(BarsOf(Tally(ks)).errCount) == |ks|
  {
    TallySum(ks);
  }
}
