/** The sliding-window matcher: every start position of a run of tokens is
    checked against a search's filters, each hit is written as a row, and the
    hits of all searches are added up (`search_text_one`, `search_text`). */
module Matching {
  import opened Wrappers
  import opened Tsv
  import opened Loader
  import opened Filters
  import opened Rows

  /* ---------------------------------------------------------------------- */
  /* Where a pattern matches                                                 */
  /* ---------------------------------------------------------------------- */

  /** The pattern matches the tokens starting at `i`: position `j` of the
      pattern accepts the word of token `i + j`. */
  predicate MatchesAt(filters: seq<Filter>, tokens: seq<Token>, i: nat)
    requires i + |filters| <= |tokens|
  {
    forall j :: 0 <= j < |filters| ==> Matches(filters[j], tokens[i + j].wordId)
  }

  /** The starts below `k` where the pattern matches, in increasing order. */
  function HitsBelow(filters: seq<Filter>, tokens: seq<Token>, k: nat): (ps: seq<nat>)
    requires |filters| <= |tokens| && k <= |tokens| - |filters| + 1
    ensures forall x :: 0 <= x < |ps| ==> ps[x] < k
    ensures Fit(tokens, |filters|, ps)
  {
    if k == 0 then []
    else HitsBelow(filters, tokens, k - 1) + (if MatchesAt(filters, tokens, k - 1) then [k - 1] else [])
  }

  /** Every start where the pattern matches; none when the run is shorter
      than the pattern. */
  function HitPositions(filters: seq<Filter>, tokens: seq<Token>): seq<nat>
  {
    if |tokens| < |filters| then [] else HitsBelow(filters, tokens, |tokens| - |filters| + 1)
  }

  lemma HitPositionsBelow(filters: seq<Filter>, tokens: seq<Token>)
    ensures |tokens| >= |filters| ==> HitPositions(filters, tokens) == HitsBelow(filters, tokens, |tokens| - |filters| + 1)
    ensures |tokens| < |filters| ==> HitPositions(filters, tokens) == []
  {
  }

  predicate StrictlyIncreasing(ps: seq<nat>)
  {
    forall x, y :: 0 <= x < y < |ps| ==> ps[x] < ps[y]
  }

  /** The starts below `k` are exactly the matching ones, each once, in
      increasing order. */
  lemma {:induction false} HitsBelowSpec(filters: seq<Filter>, tokens: seq<Token>, k: nat)
    requires |filters| <= |tokens| && k <= |tokens| - |filters| + 1
    ensures forall i: nat :: i in HitsBelow(filters, tokens, k) <==>
      i < k && MatchesAt(filters, tokens, i)
    ensures StrictlyIncreasing(HitsBelow(filters, tokens, k))
  {
    if k > 0 {
      HitsBelowSpec(filters, tokens, k - 1);
      var prev := HitsBelow(filters, tokens, k - 1);
      var last := if MatchesAt(filters, tokens, k - 1) then [k - 1] else [];
      assert HitsBelow(filters, tokens, k) == prev + last;
      forall i: nat ensures i in prev + last <==> i < k && MatchesAt(filters, tokens, i) {
        if i == k - 1 {
          assert i !in prev;
        }
      }
    }
  }

  /** `search_text_one` counts exactly the starts `i` with `i + m <= n`
      whose every pattern position matches, each once and in order; a run
      shorter than the pattern has none. */
  lemma HitPositionsSpec(filters: seq<Filter>, tokens: seq<Token>)
    ensures forall i: nat :: i in HitPositions(filters, tokens) <==>
      i + |filters| <= |tokens| && MatchesAt(filters, tokens, i)
    ensures StrictlyIncreasing(HitPositions(filters, tokens))
    ensures |tokens| < |filters| ==> HitPositions(filters, tokens) == []
  {
    if |tokens| >= |filters| {
      HitsBelowSpec(filters, tokens, |tokens| - |filters| + 1);
    }
  }

  /** A pattern of `Any` filters matches at every start, overlapping hits
      included: `n - m + 1` hits for `n >= m`. */
  lemma {:induction false} AllAnyHitsBelow(filters: seq<Filter>, tokens: seq<Token>, k: nat)
    requires |filters| <= |tokens| && k <= |tokens| - |filters| + 1
    requires forall j :: 0 <= j < |filters| ==> filters[j] == Any
    ensures HitsBelow(filters, tokens, k) == seq(k, i => i)
  {
    if k > 0 {
      AllAnyHitsBelow(filters, tokens, k - 1);
      assert MatchesAt(filters, tokens, k - 1);
      assert seq(k, i => i) == seq(k - 1, i => i) + [k - 1];
    }
  }

  lemma AllAnyHits(filters: seq<Filter>, tokens: seq<Token>)
    requires forall j :: 0 <= j < |filters| ==> filters[j] == Any
    ensures |tokens| >= |filters| ==> HitPositions(filters, tokens) == seq(|tokens| - |filters| + 1, i => i)
  {
    if |tokens| >= |filters| {
      AllAnyHitsBelow(filters, tokens, |tokens| - |filters| + 1);
    }
  }

  /** The empty pattern is a vacuous hit at each of the `n + 1` positions. */
  lemma EmptyPatternHits(tokens: seq<Token>)
    ensures HitPositions([], tokens) == seq(|tokens| + 1, i => i)
  {
    AllAnyHits([], tokens);
  }

  /* ---------------------------------------------------------------------- */
  /* The rows of the hits                                                    */
  /* ---------------------------------------------------------------------- */

  /** Every start in `ps` leaves room for a pattern of `m` positions. */
  predicate Fit(tokens: seq<Token>, m: nat, ps: seq<nat>)
  {
    forall x :: 0 <= x < |ps| ==> ps[x] + m <= |tokens|
  }

  /** The rows written for hits at the starts `ps`, in order; a panic while
      writing any of them stops the search. */
  function HitRows(lex: Lexicon, source: Source, tokens: seq<Token>, m: nat, ps: seq<nat>): (r: Result<seq<Row>, Error>)
    requires Fit(tokens, m, ps)
    ensures r.Success? <==> forall x :: 0 <= x < |ps| ==> HitRow(lex, source, tokens, ps[x], m).Success?
    ensures r.Success? ==> |r.value| == |ps|
    ensures r.Success? ==> forall x :: 0 <= x < |ps| ==> r.value[x] == HitRow(lex, source, tokens, ps[x], m).value
    ensures r.Failure? ==> r.error == WordIndexPanic
  {
    if forall x :: 0 <= x < |ps| ==> HitRow(lex, source, tokens, ps[x], m).Success?
    then Success(seq(|ps|, x requires 0 <= x < |ps| => HitRow(lex, source, tokens, ps[x], m).value))
    else Failure(WordIndexPanic)
  }

  /** One more hit adds its row at the end. */
  lemma HitRowsSnoc(lex: Lexicon, source: Source, tokens: seq<Token>, m: nat, ps: seq<nat>, p: nat)
    requires Fit(tokens, m, ps) && p + m <= |tokens|
    requires HitRows(lex, source, tokens, m, ps).Success? && HitRow(lex, source, tokens, p, m).Success?
    ensures Fit(tokens, m, ps + [p])
    ensures HitRows(lex, source, tokens, m, ps + [p])
      == Success(HitRows(lex, source, tokens, m, ps).value + [HitRow(lex, source, tokens, p, m).value])
  {
    var longer := ps + [p];
    assert forall x :: 0 <= x < |ps| ==> longer[x] == ps[x];
    assert longer[|ps|] == p;
    assert forall x :: 0 <= x < |longer| ==> HitRow(lex, source, tokens, longer[x], m).Success?;
    var rows := HitRows(lex, source, tokens, m, ps).value;
    var ext := HitRows(lex, source, tokens, m, longer).value;
    assert forall x :: 0 <= x < |longer| ==> ext[x] == (rows + [HitRow(lex, source, tokens, p, m).value])[x];
    assert ext == rows + [HitRow(lex, source, tokens, p, m).value];
  }

  /** A hit whose row panics stops the whole search. */
  lemma HitPanics(lex: Lexicon, source: Source, filters: seq<Filter>, tokens: seq<Token>, i: nat)
    requires i + |filters| <= |tokens| && MatchesAt(filters, tokens, i)
    requires HitRow(lex, source, tokens, i, |filters|).Failure?
    ensures SearchOneRows(lex, source, filters, tokens).Failure?
  {
    HitPositionsSpec(filters, tokens);
    var ps := HitPositions(filters, tokens);
    assert i in ps;
    var x :| 0 <= x < |ps| && ps[x] == i;
  }

  /** Every start where the pattern matches leaves room for the pattern. */
  lemma HitPositionsFit(filters: seq<Filter>, tokens: seq<Token>)
    ensures Fit(tokens, |filters|, HitPositions(filters, tokens))
  {
    HitPositionsSpec(filters, tokens);
  }

  /** What `search_text_one` produces for one search: the number of hits and
      their rows. */
  function SearchOneRows(lex: Lexicon, source: Source, filters: seq<Filter>, tokens: seq<Token>): Result<seq<Row>, Error>
  {
    HitPositionsFit(filters, tokens);
    HitRows(lex, source, tokens, |filters|, HitPositions(filters, tokens))
  }

  /** The rows of every start below the last one that leaves room for the
      pattern, and no rows for a run shorter than the pattern, are what one
      search produces. */
  lemma SearchOneRowsOf(lex: Lexicon, source: Source, filters: seq<Filter>, tokens: seq<Token>, rows: seq<Row>)
    requires |filters| <= |tokens| ==>
      HitRows(lex, source, tokens, |filters|, HitsBelow(filters, tokens, |tokens| - |filters| + 1)) == Success(rows)
    requires |tokens| < |filters| ==> rows == []
    ensures SearchOneRows(lex, source, filters, tokens) == Success(rows)
    ensures |rows| == |HitPositions(filters, tokens)|
  {
    HitPositionsBelow(filters, tokens);
  }

  /** The inner loop of `search_text_one`: the positions of the pattern are
      checked in order from start `i`, and the first one that rejects its
      token ends the check (`continue 'outer`). */
  method AcceptsAt(filters: seq<Filter>, tokens: seq<Token>, i: nat) returns (ok: bool)
    requires i + |filters| <= |tokens|
    ensures ok <==> MatchesAt(filters, tokens, i)
  {
    for j := 0 to |filters|
      invariant forall k :: 0 <= k < j ==> Matches(filters[k], tokens[i + k].wordId)
    {
      var wordId := tokens[i + j].wordId;
      var accepted := match filters[j]
        case Any => true
        case Hash(x) => wordId in x;
      if !accepted {
        return false;
      }
    }
    return true;
  }

  /** A matching start whose row is written adds one hit, and its row after
      the rows of the earlier hits. */
  lemma HitRowsStep(lex: Lexicon, source: Source, filters: seq<Filter>, tokens: seq<Token>, i: nat, rows: seq<Row>)
    requires i + |filters| <= |tokens| && MatchesAt(filters, tokens, i)
    requires HitRows(lex, source, tokens, |filters|, HitsBelow(filters, tokens, i)) == Success(rows)
    requires HitRow(lex, source, tokens, i, |filters|).Success?
    ensures HitRows(lex, source, tokens, |filters|, HitsBelow(filters, tokens, i + 1))
      == Success(rows + [HitRow(lex, source, tokens, i, |filters|).value])
  {
    var ps := HitsBelow(filters, tokens, i);
    assert HitsBelow(filters, tokens, i + 1) == ps + [i];
    HitRowsSnoc(lex, source, tokens, |filters|, ps, i);
  }

  /** The `'outer` loop of `search_text_one`, over every start that leaves
      room for the pattern: each start is checked position by position, and
      each hit is written and counted. */
  method ScanStarts(lex: Lexicon, source: Source, filters: seq<Filter>, tokens: seq<Token>)
    returns (r: Result<nat, Error>, rows: seq<Row>)
    requires |filters| <= |tokens|
    ensures r.Success? ==> r.value == |rows|
    ensures r.Success? ==>
      HitRows(lex, source, tokens, |filters|, HitsBelow(filters, tokens, |tokens| - |filters| + 1)) == Success(rows)
    ensures r.Failure? ==> SearchOneRows(lex, source, filters, tokens).Failure? && r.error == WordIndexPanic
  {
    var m := |filters|;
    var n := |tokens|;
    var hits := 0;
    rows := [];
    for i := 0 to n - m + 1
      invariant HitRows(lex, source, tokens, m, HitsBelow(filters, tokens, i)) == Success(rows)
      invariant hits == |rows|
    {
      var ok := AcceptsAt(filters, tokens, i);
      if !ok {
        assert HitsBelow(filters, tokens, i + 1) == HitsBelow(filters, tokens, i);
        continue;
      }
      var row := WriteHit(lex, source, tokens, i, m);
      if row.Failure? {
        HitPanics(lex, source, filters, tokens, i);
        return Failure(row.error), rows;
      }
      HitRowsStep(lex, source, filters, tokens, i, rows);
      rows := rows + [row.value];
      hits := hits + 1;
    }
    r := Success(hits);
  }

  /** `search_text_one`: a run shorter than the pattern has no hits;
      otherwise every start is searched. */
  method SearchTextOne(lex: Lexicon, source: Source, filters: seq<Filter>, tokens: seq<Token>)
    returns (r: Result<nat, Error>, rows: seq<Row>)
    ensures r.Success? <==> SearchOneRows(lex, source, filters, tokens).Success?
    ensures r.Success? ==> r.value == |HitPositions(filters, tokens)|
    ensures r.Success? ==> rows == SearchOneRows(lex, source, filters, tokens).value
    ensures r.Failure? ==> r.error == WordIndexPanic
  {
    if |tokens| >= |filters| {
      r, rows := ScanStarts(lex, source, filters, tokens);
      if r.Failure? {
        return;
      }
    } else {
      r, rows := Success(0), [];
    }
    SearchOneRowsOf(lex, source, filters, tokens, rows);
  }

  /* ---------------------------------------------------------------------- */
  /* All searches over one run                                               */
  /* ---------------------------------------------------------------------- */

  /** What a text contributes: its hits over all searches, and each
      search's output with the text's rows appended. */
  datatype Outcome = Outcome(hits: nat, outputs: seq<seq<Row>>)

  /** The result of `search_text_one` for each of the first `k` searches. */
  function SearchResults(lex: Lexicon, source: Source, searches: seq<Search>, tokens: seq<Token>, k: nat)
    : (rs: seq<Result<seq<Row>, Error>>)
    requires k <= |searches|
    ensures |rs| == k && forall x :: 0 <= x < k ==> rs[x] == SearchOneRows(lex, source, searches[x].filterList, tokens)
  {
    seq(k, x requires 0 <= x < k => SearchOneRows(lex, source, searches[x].filterList, tokens))
  }

  /** Each of the first `|added|` outputs with its rows appended; the other
      outputs as they were. */
  function AppendEach(outs: seq<seq<Row>>, added: seq<seq<Row>>): (r: seq<seq<Row>>)
    requires |added| <= |outs|
    ensures |r| == |outs|
    ensures forall x :: 0 <= x < |added| ==> r[x] == outs[x] + added[x]
    ensures forall x :: |added| <= x < |outs| ==> r[x] == outs[x]
  {
    seq(|outs|, x requires 0 <= x < |outs| => if x < |added| then outs[x] + added[x] else outs[x])
  }

  /** Appending to one more output changes that output only. */
  lemma AppendEachSnoc(outs: seq<seq<Row>>, added: seq<seq<Row>>, rows: seq<Row>)
    requires |added| < |outs|
    ensures AppendEach(outs, added + [rows]) == AppendEach(outs, added)[|added| := outs[|added|] + rows]
  {
    var longer := added + [rows];
    assert forall x :: 0 <= x < |added| ==> longer[x] == added[x];
  }

  /** The hits of the first `k` searches, added up. */
  function TotalHits(searches: seq<Search>, tokens: seq<Token>, k: nat): nat
    requires k <= |searches|
  {
    if k == 0 then 0 else TotalHits(searches, tokens, k - 1) + |HitPositions(searches[k - 1].filterList, tokens)|
  }

  /** A run of tokens as `search_text` receives it: not empty, and of one
      text. */
  predicate IsRun(tokens: seq<Token>)
  {
    |tokens| > 0 && tokens[0].textId == tokens[|tokens| - 1].textId
  }

  /** What `search_text` does: nothing for a text missing from the
      sources; otherwise the searches paired with the outputs (as many as
      the shorter of the two) each append the rows of their hits, and the
      hits are the sum over those searches. A panic in any search stops
      the text. */
  function SearchTextSpec(lex: Lexicon, sources: Sources, searches: seq<Search>, tokens: seq<Token>,
                          outs: seq<seq<Row>>): (r: Result<Outcome, Error>)
    requires IsRun(tokens)
    ensures r.Success? ==> |r.value.outputs| == |outs|
    ensures r.Success? ==> forall x :: 0 <= x < |outs| ==> outs[x] <= r.value.outputs[x]
    ensures tokens[0].textId !in sources ==> r == Success(Outcome(0, outs))
    ensures r.Failure? ==> r.error == WordIndexPanic
  {
    var textId := tokens[0].textId;
    if textId !in sources then Success(Outcome(0, outs)) else
    var count := if |outs| < |searches| then |outs| else |searches|;
    var rs := SearchResults(lex, sources[textId], searches, tokens, count);
    if AllSucceed(rs) then Success(Outcome(TotalHits(searches, tokens, count), AppendEach(outs, Values(rs))))
    else Failure(WordIndexPanic)
  }

  /** The hits `search_text` counts in one run with `w` writers: none for a
      text without a source, otherwise the hit positions of the first `w`
      searches added up. */
  function RunHits(sources: Sources, searches: seq<Search>, run: seq<Token>, w: nat): nat
    requires IsRun(run)
  {
    if run[0].textId !in sources then 0
    else TotalHits(searches, run, if w < |searches| then w else |searches|)
  }

  /** The hits `search_text` reports depend only on the run and on how many
      writers there are, not on what they hold. */
  lemma SearchTextHits(lex: Lexicon, sources: Sources, searches: seq<Search>, run: seq<Token>,
                       outs: seq<seq<Row>>)
    requires IsRun(run)
    requires SearchTextSpec(lex, sources, searches, run, outs).Success?
    ensures SearchTextSpec(lex, sources, searches, run, outs).value.hits == RunHits(sources, searches, run, |outs|)
  {
  }

  /** `search_text`: the run's text is looked up; an unknown text has no
      hits, otherwise every search writes its hits to its own output. */
  method SearchText(lex: Lexicon, sources: Sources, searches: seq<Search>, tokens: seq<Token>, outs: seq<seq<Row>>)
    returns (r: Result<nat, Error>, outs': seq<seq<Row>>)
    requires IsRun(tokens)
    ensures r.Success? <==> SearchTextSpec(lex, sources, searches, tokens, outs).Success?
    ensures r.Success? ==> r.value == SearchTextSpec(lex, sources, searches, tokens, outs).value.hits
    ensures r.Success? ==> outs' == SearchTextSpec(lex, sources, searches, tokens, outs).value.outputs
    ensures r.Failure? ==> r.error == WordIndexPanic
  {
    var textId := tokens[0].textId;
    var hits := 0;
    outs' := outs;
    if textId !in sources {
      r := Success(0);
      return;
    }
    var source := sources[textId];
    var count := if |outs| < |searches| then |outs| else |searches|;
    ghost var rs := SearchResults(lex, source, searches, tokens, count);
    assert rs[..0] == [];
    for k := 0 to count
      invariant AllSucceed(rs[..k])
      invariant hits == TotalHits(searches, tokens, k)
      invariant outs' == AppendEach(outs, Values(rs[..k]))
    {
      var one, rows := SearchTextOne(lex, source, searches[k].filterList, tokens);
      ValuesSnoc(rs, k);
      if one.Failure? {
        assert !AllSucceed(rs);
        r := Failure(one.error);
        return;
      }
      AppendEachSnoc(outs, Values(rs[..k]), rows);
      hits := hits + one.value;
      outs' := outs'[k := outs'[k] + rows];
    }
    assert rs[..count] == rs;
    r := Success(hits);
  }
}
