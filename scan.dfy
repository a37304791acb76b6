/** Reading a corpus file (`CohaFile::search`): the tokens of the file are
    grouped into runs of one text each, every run is searched as soon as the
    next text starts (and the last one at the end of the file), and the file
    is rejected when token ids do not increase within a text. `Coha::search`
    does this for every corpus file. */
module Scan {
  import opened Wrappers
  import opened Text
  import opened Tsv
  import opened Loader
  import opened Filters
  import opened Rows
  import opened Matching

  const TOKEN_IDS_NOT_INCREASING := "token IDs not increasing"

  /** The path of a corpus file as its error messages show it. */
  function PathOf(file: CohaFile): Path
  {
    Join(file.corpusPath, "/")
  }

  /** The parse of every line of a corpus file. */
  function TokenResults(path: Path, lines: seq<string>): (rs: seq<Result<Token, Error>>)
    ensures |rs| == |lines| && forall i :: 0 <= i < |lines| ==> rs[i] == ParseToken(path, lines[i])
  {
    seq(|lines|, i requires 0 <= i < |lines| => ParseToken(path, lines[i]))
  }

  /** Within one text, every token id is larger than the one before it. */
  ghost predicate TokenIdsIncreasing(ts: seq<Token>)
  {
    forall i :: 0 <= i < |ts| - 1 && ts[i].textId == ts[i + 1].textId ==> ts[i].tokenId < ts[i + 1].tokenId
  }

  /** A run: a nonempty stretch of tokens that all belong to one text. */
  predicate OneText(run: seq<Token>)
  {
    |run| > 0 && forall i :: 0 <= i < |run| ==> run[i].textId == run[0].textId
  }

  /** The tokens of the runs, one after the other. */
  function Joined(runs: seq<seq<Token>>): seq<Token>
  {
    if runs == [] then [] else Joined(runs[..|runs| - 1]) + runs[|runs| - 1]
  }

  /** The grouping of a token stream into maximal runs of one text, as the
      buffer of `CohaFile::search` collects them: a token joins the current
      run when it has the run's text id and starts a new run otherwise. */
  function Runs(ts: seq<Token>): (runs: seq<seq<Token>>)
    ensures |runs| <= |ts|
    ensures runs == [] <==> ts == []
    ensures forall k :: 0 <= k < |runs| ==> OneText(runs[k])
  {
    if ts == [] then [] else
    var init := Runs(ts[..|ts| - 1]);
    var t := ts[|ts| - 1];
    if init != [] && init[|init| - 1][0].textId == t.textId
    then init[..|init| - 1] + [init[|init| - 1] + [t]]
    else init + [[t]]
  }

  /** A run is what `search_text` accepts. */
  lemma OneTextIsRun(run: seq<Token>)
    requires OneText(run)
    ensures IsRun(run)
  {
  }

  /** Grouping loses no token and reorders nothing. */
  lemma {:induction false} RunsJoined(ts: seq<Token>)
    ensures Joined(Runs(ts)) == ts
  {
    if ts != [] {
      var pre := ts[..|ts| - 1];
      var t := ts[|ts| - 1];
      var init: seq<seq<Token>> := Runs(pre);
      RunsJoined(pre);
      assert pre + [t] == ts;
      if init != [] && init[|init| - 1][0].textId == t.textId {
        var front := init[..|init| - 1];
        var last := init[|init| - 1];
        assert init == front + [last];
        JoinedSnoc(front, last);
        JoinedSnoc(front, last + [t]);
        assert Joined(front) + (last + [t]) == (Joined(front) + last) + [t];
      } else {
        JoinedSnoc(init, [t]);
      }
    }
  }

  /** Joining one more run appends its tokens. */
  lemma JoinedSnoc(runs: seq<seq<Token>>, run: seq<Token>)
    ensures Joined(runs + [run]) == Joined(runs) + run
  {
    assert (runs + [run])[..|runs|] == runs;
  }

  /** Runs are maximal: two neighbouring runs belong to different texts. */
  lemma {:induction false} RunsBoundaries(ts: seq<Token>)
    ensures forall k :: 0 <= k < |Runs(ts)| - 1 ==> Runs(ts)[k][0].textId != Runs(ts)[k + 1][0].textId
  {
    if ts != [] {
      var pre := ts[..|ts| - 1];
      var t := ts[|ts| - 1];
      var init: seq<seq<Token>> := Runs(pre);
      RunsBoundaries(pre);
      if init != [] && init[|init| - 1][0].textId == t.textId {
        var runs := init[..|init| - 1] + [init[|init| - 1] + [t]];
        assert forall k :: 0 <= k < |runs| - 1 ==> runs[k] == init[k];
        assert runs[|runs| - 1][0] == init[|init| - 1][0];
      } else {
        var runs := init + [[t]];
        assert forall k :: 0 <= k < |init| ==> runs[k] == init[k];
      }
    }
  }

  /** Every run but the last of a stream is a finished run of any longer
      stream; the number of runs never shrinks. */
  lemma {:induction false} RunsGrow(a: seq<Token>, b: seq<Token>)
    ensures |Runs(a)| <= |Runs(a + b)|
    ensures Runs(a) != [] ==> Runs(a)[..|Runs(a)| - 1] <= Runs(a + b)[..|Runs(a + b)| - 1]
    decreases |b|
  {
    if b != [] {
      var c := a + b[..|b| - 1];
      RunsGrow(a, b[..|b| - 1]);
      assert (a + b)[..|a + b| - 1] == c;
      var init: seq<seq<Token>> := Runs(c);
      var x := b[|b| - 1];
      if init != [] && init[|init| - 1][0].textId == x.textId {
        var runs := init[..|init| - 1] + [init[|init| - 1] + [x]];
        assert runs[..|runs| - 1] == init[..|init| - 1];
      } else {
        var runs := init + [[x]];
        assert runs[..|runs| - 1] == init;
      }
    } else {
      assert a + b == a;
    }
  }

  /** What the counters of `CohaFile::search` and its outputs hold after a
      number of runs: hits over all searches, texts with at least one hit,
      and each search's rows. */
  datatype Tally = Tally(totalHits: nat, hitTexts: nat, outputs: seq<seq<Row>>)

  /** The counters after `flush` on a run whose `search_text` gave `o`. */
  function Tallied(tally: Tally, o: Outcome): (t: Tally)
    ensures t.outputs == o.outputs
    ensures t.totalHits == tally.totalHits + o.hits
    ensures t.hitTexts == tally.hitTexts + (if o.hits > 0 then 1 else 0)
  {
    Tally(tally.totalHits + o.hits, tally.hitTexts + (if o.hits > 0 then 1 else 0), o.outputs)
  }

  /** The runs searched one after the other from `start`; the first panic
      stops the file. */
  function ScanRuns(lex: Lexicon, sources: Sources, searches: seq<Search>, runs: seq<seq<Token>>, start: Tally)
    : (r: Result<Tally, Error>)
    requires forall k :: 0 <= k < |runs| ==> IsRun(runs[k])
    ensures r.Success? ==> |r.value.outputs| == |start.outputs|
    ensures r.Success? ==> forall x :: 0 <= x < |start.outputs| ==> start.outputs[x] <= r.value.outputs[x]
    ensures r.Success? ==> start.hitTexts <= r.value.hitTexts <= start.hitTexts + |runs|
    ensures r.Failure? ==> r.error == WordIndexPanic
    decreases |runs|, 1
  {
    if runs == [] then Success(start) else FlushLast(lex, sources, searches, runs, start)
  }

  /** The last of the runs flushed after the others. */
  function FlushLast(lex: Lexicon, sources: Sources, searches: seq<Search>, runs: seq<seq<Token>>, start: Tally)
    : (r: Result<Tally, Error>)
    requires runs != [] && forall k :: 0 <= k < |runs| ==> IsRun(runs[k])
    ensures r.Success? ==> |r.value.outputs| == |start.outputs|
    ensures r.Success? ==> forall x :: 0 <= x < |start.outputs| ==> start.outputs[x] <= r.value.outputs[x]
    ensures r.Success? ==> start.hitTexts <= r.value.hitTexts <= start.hitTexts + |runs|
    ensures r.Failure? ==> r.error == WordIndexPanic
    decreases |runs|, 0
  {
    var t :- ScanRuns(lex, sources, searches, runs[..|runs| - 1], start);
    var o :- SearchTextSpec(lex, sources, searches, runs[|runs| - 1], t.outputs);
    Success(Tallied(t, o))
  }

  /** Searching one more run: the runs before it, then `flush` on it. */
  lemma ScanRunsSnoc(lex: Lexicon, sources: Sources, searches: seq<Search>, runs: seq<seq<Token>>,
                     run: seq<Token>, start: Tally, tally: Tally)
    requires forall k :: 0 <= k < |runs| ==> IsRun(runs[k])
    requires IsRun(run)
    requires ScanRuns(lex, sources, searches, runs, start) == Success(tally)
    ensures forall k :: 0 <= k < |runs + [run]| ==> IsRun((runs + [run])[k])
    ensures ScanRuns(lex, sources, searches, runs + [run], start)
      == (var o :- SearchTextSpec(lex, sources, searches, run, tally.outputs); Success(Tallied(tally, o)))
  {
    assert (runs + [run])[..|runs|] == runs;
  }

  /** A panic in some run is a panic of every longer sequence of runs. */
  lemma {:induction false} ScanRunsPrefix(lex: Lexicon, sources: Sources, searches: seq<Search>,
                                          runs: seq<seq<Token>>, start: Tally, k: nat)
    requires forall j :: 0 <= j < |runs| ==> IsRun(runs[j])
    requires k <= |runs|
    requires ScanRuns(lex, sources, searches, runs, start).Success?
    ensures ScanRuns(lex, sources, searches, runs[..k], start).Success?
    decreases |runs|
  {
    if k < |runs| {
      var init := runs[..|runs| - 1];
      assert init[..k] == runs[..k];
      assert ScanRuns(lex, sources, searches, init, start).Success?;
      ScanRunsPrefix(lex, sources, searches, init, start, k);
    } else {
      assert runs[..k] == runs;
    }
  }

  /** Runs of texts missing from the sources leave the tally unchanged. */
  lemma {:induction false} ScanRunsUnknown(lex: Lexicon, sources: Sources, searches: seq<Search>,
                                           runs: seq<seq<Token>>, start: Tally)
    requires forall j :: 0 <= j < |runs| ==> IsRun(runs[j]) && runs[j][0].textId !in sources
    ensures ScanRuns(lex, sources, searches, runs, start) == Success(start)
  {
    if runs != [] {
      ScanRunsUnknown(lex, sources, searches, runs[..|runs| - 1], start);
      assert FlushLast(lex, sources, searches, runs, start) == Success(start);
    }
  }

  /** The counters `CohaFile::search` reports for a file. */
  datatype Report = Report(countTokens: nat, countTexts: nat, totalHits: nat, hitTexts: nat)

  /** The hits of all runs added up, with `w` writers. */
  function SumHits(sources: Sources, searches: seq<Search>, runs: seq<seq<Token>>, w: nat): nat
    requires forall k :: 0 <= k < |runs| ==> IsRun(runs[k])
  {
    if runs == [] then 0
    else SumHits(sources, searches, runs[..|runs| - 1], w) + RunHits(sources, searches, runs[|runs| - 1], w)
  }

  /** The number of runs with at least one hit, with `w` writers. */
  function HitRunCount(sources: Sources, searches: seq<Search>, runs: seq<seq<Token>>, w: nat): nat
    requires forall k :: 0 <= k < |runs| ==> IsRun(runs[k])
  {
    if runs == [] then 0
    else
      var hit := if RunHits(sources, searches, runs[|runs| - 1], w) > 0 then 1 else 0;
      HitRunCount(sources, searches, runs[..|runs| - 1], w) + hit
  }

  /** The counters of the fold in closed form: the total hits grow by the
      hits of all runs, and the hit texts by the runs with at least one hit. */
  lemma {:induction false} ScanRunsCounts(lex: Lexicon, sources: Sources, searches: seq<Search>,
                                          runs: seq<seq<Token>>, start: Tally)
    requires forall k :: 0 <= k < |runs| ==> IsRun(runs[k])
    requires ScanRuns(lex, sources, searches, runs, start).Success?
    ensures ScanRuns(lex, sources, searches, runs, start).value.totalHits
      == start.totalHits + SumHits(sources, searches, runs, |start.outputs|)
    ensures ScanRuns(lex, sources, searches, runs, start).value.hitTexts
      == start.hitTexts + HitRunCount(sources, searches, runs, |start.outputs|)
    decreases |runs|
  {
    if runs != [] {
      var init := runs[..|runs| - 1];
      var last := runs[|runs| - 1];
      ScanRunsPrefix(lex, sources, searches, runs, start, |runs| - 1);
      ScanRunsCounts(lex, sources, searches, init, start);
      var t := ScanRuns(lex, sources, searches, init, start).value;
      ScanRunsSnoc(lex, sources, searches, init, last, start, t);
      assert init + [last] == runs;
      SearchTextHits(lex, sources, searches, last, t.outputs);
    }
  }

  /** Each search's output as `write_header` leaves it. */
  function Headers(searches: seq<Search>): (outs: seq<seq<Row>>)
    ensures |outs| == |searches|
    ensures forall x :: 0 <= x < |searches| ==> outs[x] == [HeaderRow(|searches[x].filterList|)]
  {
    seq(|searches|, x requires 0 <= x < |searches| => [HeaderRow(|searches[x].filterList|)])
  }

  /** The runs of a file whose lines all parse. */
  function FileRuns(path: Path, lines: seq<string>): (runs: seq<seq<Token>>)
    requires AllSucceed(TokenResults(path, lines))
    ensures forall k :: 0 <= k < |runs| ==> IsRun(runs[k])
  {
    RunsAreRuns(Values(TokenResults(path, lines)));
    Runs(Values(TokenResults(path, lines)))
  }

  /** A file is searched to the end when every line is a token, token ids
      increase within each text, and no run panics. */
  ghost predicate FileSearchable(lex: Lexicon, sources: Sources, searches: seq<Search>, path: Path, lines: seq<string>)
  {
    var rs := TokenResults(path, lines);
    AllSucceed(rs) && TokenIdsIncreasing(Values(rs))
    && ScanRuns(lex, sources, searches, FileRuns(path, lines), Tally(0, 0, Headers(searches))).Success?
  }

  /** The tally of a searchable file. */
  function FileTally(lex: Lexicon, sources: Sources, searches: seq<Search>, path: Path, lines: seq<string>): Tally
    requires FileSearchable(lex, sources, searches, path, lines)
  {
    ScanRuns(lex, sources, searches, FileRuns(path, lines), Tally(0, 0, Headers(searches))).value
  }

  /** The counters `CohaFile::search` reaches on a searchable file: a
      token per line and a text per run. */
  function FileReport(lex: Lexicon, sources: Sources, searches: seq<Search>, path: Path, lines: seq<string>)
    : (report: Report)
    requires FileSearchable(lex, sources, searches, path, lines)
    ensures report.countTokens == |lines| == |Values(TokenResults(path, lines))|
    ensures report.countTexts == |FileRuns(path, lines)|
    ensures var tally := FileTally(lex, sources, searches, path, lines);
      report.totalHits == tally.totalHits && report.hitTexts == tally.hitTexts
  {
    var tally := FileTally(lex, sources, searches, path, lines);
    Report(|lines|, |FileRuns(path, lines)|, tally.totalHits, tally.hitTexts)
  }

  /** The counters `CohaFile::search` logs for a searchable file: the total
      hits are the hits of its runs added up, and the hit texts are the runs
      with at least one hit. */
  lemma FileCounts(lex: Lexicon, sources: Sources, searches: seq<Search>, path: Path, lines: seq<string>)
    requires FileSearchable(lex, sources, searches, path, lines)
    ensures FileReport(lex, sources, searches, path, lines).totalHits
      == SumHits(sources, searches, FileRuns(path, lines), |searches|)
    ensures FileReport(lex, sources, searches, path, lines).hitTexts
      == HitRunCount(sources, searches, FileRuns(path, lines), |searches|)
  {
    ScanRunsCounts(lex, sources, searches, FileRuns(path, lines), Tally(0, 0, Headers(searches)));
  }

  /** A token extends an increasing stream when it starts a new text or
      follows the stream's last token with a larger id. */
  lemma IncreasingAppend(ts: seq<Token>, t: Token)
    requires TokenIdsIncreasing(ts)
    requires ts != [] && ts[|ts| - 1].textId == t.textId ==> ts[|ts| - 1].tokenId < t.tokenId
    ensures TokenIdsIncreasing(ts + [t])
  {
    var longer := ts + [t];
    assert forall i :: 0 <= i < |ts| ==> longer[i] == ts[i];
  }

  /** The runs of a stream are runs in the sense of `search_text`. */
  lemma RunsAreRuns(ts: seq<Token>)
    ensures forall k :: 0 <= k < |Runs(ts)| ==> IsRun(Runs(ts)[k])
  {
    forall k | 0 <= k < |Runs(ts)| ensures IsRun(Runs(ts)[k]) { OneTextIsRun(Runs(ts)[k]); }
  }

  /** One more token either joins the buffered run (same text, or nothing
      buffered) or finishes it and starts a new run. */
  lemma RunsSnoc(toks: seq<Token>, t: Token, done: seq<seq<Token>>, pending: seq<Token>)
    requires Runs(toks) == if pending == [] then [] else done + [pending]
    requires pending == [] ==> done == [] && toks == []
    ensures pending != [] && pending[|pending| - 1].textId != t.textId ==>
      Runs(toks + [t]) == (done + [pending]) + [[t]]
    ensures pending == [] || pending[|pending| - 1].textId == t.textId ==>
      Runs(toks + [t]) == done + [pending + [t]]
  {
    assert (toks + [t])[..|toks|] == toks;
    if pending != [] {
      assert Runs(toks)[|done|] == pending;
      assert OneText(pending);
      var init := done + [pending];
      assert init[..|init| - 1] == done;
    }
  }

  /** Each search's output with its header, as `write_header` writes them. */
  method WriteHeaders(searches: seq<Search>) returns (outs: seq<seq<Row>>)
    ensures outs == Headers(searches)
  {
    outs := [];
    for x := 0 to |searches|
      invariant outs == Headers(searches)[..x]
    {
      var header := WriteHeader(|searches[x].filterList|);
      outs := outs + [[header]];
    }
  }

  /* ---------------------------------------------------------------------- */
  /* The loop of `CohaFile::search`, one line at a time                       */
  /* ---------------------------------------------------------------------- */

  /** What the loop carries from one line to the next: the counters and
      outputs, the buffered tokens of the current text, and the number of
      texts flushed so far. */
  datatype Progress = Progress(tally: Tally, pending: seq<Token>, countTexts: nat)

  /** The runs of a stream that a later token of another text has already
      finished: all but the last. */
  function Closed(ts: seq<Token>): (runs: seq<seq<Token>>)
    ensures ts != [] ==> Runs(ts) == runs + [Runs(ts)[|Runs(ts)| - 1]]
    ensures forall k :: 0 <= k < |runs| ==> IsRun(runs[k])
  {
    RunsAreRuns(ts);
    if ts == [] then [] else Runs(ts)[..|Runs(ts)| - 1]
  }

  /** `flush`: `search_text` on the buffered run, then the counters; the
      buffer is emptied. */
  function Flushed(lex: Lexicon, sources: Sources, searches: seq<Search>, p: Progress): (r: Result<Progress, Error>)
    requires OneText(p.pending)
    ensures r.Success? <==> SearchTextSpec(lex, sources, searches, p.pending, p.tally.outputs).Success?
    ensures r.Success? ==> r.value.pending == [] && r.value.countTexts == p.countTexts + 1
    ensures r.Success? ==> r.value.tally == Tallied(p.tally, SearchTextSpec(lex, sources, searches, p.pending, p.tally.outputs).value)
    ensures r.Failure? ==> r.error == WordIndexPanic
  {
    var o :- SearchTextSpec(lex, sources, searches, p.pending, p.tally.outputs);
    Success(Progress(Tallied(p.tally, o), [], p.countTexts + 1))
  }

  /** One parsed line: a token of another text flushes the buffer first; a
      token id that does not exceed the buffered one's is an error; then the
      token is buffered. */
  function ScanToken(lex: Lexicon, sources: Sources, searches: seq<Search>, path: Path, p: Progress, t: Token)
    : (r: Result<Progress, Error>)
    requires p.pending != [] ==> OneText(p.pending)
    ensures r.Success? ==> OneText(r.value.pending) && r.value.pending[|r.value.pending| - 1] == t
    ensures r.Failure? ==> r.error == WordIndexPanic || r.error == TsvError(path, TOKEN_IDS_NOT_INCREASING)
  {
    var q :- if p.pending != [] && p.pending[|p.pending| - 1].textId != t.textId
             then Flushed(lex, sources, searches, p) else Success(p);
    if q.pending != [] && q.pending[|q.pending| - 1].tokenId >= t.tokenId
    then Failure(TsvError(path, TOKEN_IDS_NOT_INCREASING))
    else Success(q.(pending := q.pending + [t]))
  }

  /** The loop over the parsed lines, from the headers' tally: the first
      error, or what the loop carries after the last line. */
  function ScanLines(lex: Lexicon, sources: Sources, searches: seq<Search>, path: Path,
                     rs: seq<Result<Token, Error>>, origin: Tally): (r: Result<Progress, Error>)
    ensures r.Success? ==> (r.value.pending == [] <==> rs == [])
    ensures r.Success? && rs != [] ==> OneText(r.value.pending)
    ensures r.Failure? ==> || r.error == WordIndexPanic
                           || r.error == TsvError(path, TOKEN_IDS_NOT_INCREASING)
                           || exists i :: 0 <= i < |rs| && rs[i] == Failure(r.error)
    decreases |rs|
  {
    if rs == [] then Success(Progress(origin, [], 0)) else
    var init := rs[..|rs| - 1];
    var p :- ScanLines(lex, sources, searches, path, init, origin);
    var t :- rs[|rs| - 1];
    ScanToken(lex, sources, searches, path, p, t)
  }

  /** The whole of `CohaFile::search` after the headers: the loop, then a
      flush of what is still buffered. */
  function ScanFile(lex: Lexicon, sources: Sources, searches: seq<Search>, path: Path,
                    rs: seq<Result<Token, Error>>, origin: Tally): (r: Result<Progress, Error>)
    ensures r.Success? ==> r.value.pending == []
  {
    var p :- ScanLines(lex, sources, searches, path, rs, origin);
    if p.pending == [] then Success(p) else Flushed(lex, sources, searches, p)
  }

  /** An error stops the loop: a failing prefix is the failure of the
      whole. */
  lemma {:induction false} ScanLinesStops(lex: Lexicon, sources: Sources, searches: seq<Search>, path: Path,
                                          rs: seq<Result<Token, Error>>, origin: Tally, n: nat)
    requires n <= |rs|
    requires ScanLines(lex, sources, searches, path, rs[..n], origin).Failure?
    ensures ScanLines(lex, sources, searches, path, rs, origin) == ScanLines(lex, sources, searches, path, rs[..n], origin)
    decreases |rs|
  {
    if n < |rs| {
      var init := rs[..|rs| - 1];
      assert init[..n] == rs[..n];
      ScanLinesStops(lex, sources, searches, path, init, origin, n);
    } else {
      assert rs[..n] == rs;
    }
  }

  /** After a successful prefix the loop has seen increasing tokens; the
      buffer is the last of their runs, each finished run has been
      searched, and the texts counted are the finished runs. */
  lemma {:induction false} ScanLinesRuns(lex: Lexicon, sources: Sources, searches: seq<Search>, path: Path,
                                         rs: seq<Result<Token, Error>>, origin: Tally)
    requires ScanLines(lex, sources, searches, path, rs, origin).Success?
    ensures AllSucceed(rs) && TokenIdsIncreasing(Values(rs))
    ensures var p := ScanLines(lex, sources, searches, path, rs, origin).value;
      rs != [] ==> Runs(Values(rs)) == Closed(Values(rs)) + [p.pending]
    ensures var p := ScanLines(lex, sources, searches, path, rs, origin).value;
      p.countTexts == |Closed(Values(rs))|
    ensures var p := ScanLines(lex, sources, searches, path, rs, origin).value;
      ScanRuns(lex, sources, searches, Closed(Values(rs)), origin) == Success(p.tally)
    decreases |rs|
  {
    if rs != [] {
      var init := rs[..|rs| - 1];
      ScanLinesRuns(lex, sources, searches, path, init, origin);
      ScanStepRuns(lex, sources, searches, path, rs, origin);
    }
  }

  /** The step of `ScanLinesRuns`: one more line. */
  lemma ScanStepRuns(lex: Lexicon, sources: Sources, searches: seq<Search>, path: Path,
                     rs: seq<Result<Token, Error>>, origin: Tally)
    requires rs != []
    requires ScanLines(lex, sources, searches, path, rs, origin).Success?
    requires var init := rs[..|rs| - 1];
      var p := ScanLines(lex, sources, searches, path, init, origin).value;
      && AllSucceed(init) && TokenIdsIncreasing(Values(init))
      && (init != [] ==> Runs(Values(init)) == Closed(Values(init)) + [p.pending])
      && p.countTexts == |Closed(Values(init))|
      && ScanRuns(lex, sources, searches, Closed(Values(init)), origin) == Success(p.tally)
    ensures AllSucceed(rs) && TokenIdsIncreasing(Values(rs))
    ensures var p := ScanLines(lex, sources, searches, path, rs, origin).value;
      Runs(Values(rs)) == Closed(Values(rs)) + [p.pending]
    ensures var p := ScanLines(lex, sources, searches, path, rs, origin).value;
      p.countTexts == |Closed(Values(rs))|
    ensures var p := ScanLines(lex, sources, searches, path, rs, origin).value;
      ScanRuns(lex, sources, searches, Closed(Values(rs)), origin) == Success(p.tally)
  {
    var n := |rs| - 1;
    var init := rs[..n];
    var p0 := ScanLines(lex, sources, searches, path, init, origin).value;
    var t := rs[n].value;
    var toks := Values(init);
    ValuesSnoc(rs, n);
    assert rs[..n + 1] == rs;
    var p := ScanToken(lex, sources, searches, path, p0, t).value;
    assert ScanLines(lex, sources, searches, path, rs, origin) == Success(p);
    ScanTokenRuns(lex, sources, searches, path, toks, origin, p0, t);
  }

  /** One token on plain streams: the runs, the counters and the ids of
      `toks + [t]` after `ScanToken`, from those of `toks`. */
  lemma ScanTokenRuns(lex: Lexicon, sources: Sources, searches: seq<Search>, path: Path,
                      toks: seq<Token>, origin: Tally, p0: Progress, t: Token)
    requires p0.pending == [] <==> toks == []
    requires toks != [] ==> Runs(toks) == Closed(toks) + [p0.pending]
    requires toks != [] ==> OneText(p0.pending) && p0.pending[|p0.pending| - 1] == toks[|toks| - 1]
    requires TokenIdsIncreasing(toks)
    requires p0.countTexts == |Closed(toks)|
    requires ScanRuns(lex, sources, searches, Closed(toks), origin) == Success(p0.tally)
    requires ScanToken(lex, sources, searches, path, p0, t).Success?
    ensures var p := ScanToken(lex, sources, searches, path, p0, t).value;
      && TokenIdsIncreasing(toks + [t])
      && Runs(toks + [t]) == Closed(toks + [t]) + [p.pending]
      && p.countTexts == |Closed(toks + [t])|
      && ScanRuns(lex, sources, searches, Closed(toks + [t]), origin) == Success(p.tally)
  {
    var p := ScanToken(lex, sources, searches, path, p0, t).value;
    var done := Closed(toks);
    if p0.pending != [] && p0.pending[|p0.pending| - 1].textId != t.textId {
      var o := SearchTextSpec(lex, sources, searches, p0.pending, p0.tally.outputs).value;
      assert p == Progress(Tallied(p0.tally, o), [t], p0.countTexts + 1);
      FlushRuns(lex, sources, searches, toks, origin, p0.pending, p0.tally, t);
    } else {
      assert p == p0.(pending := p0.pending + [t]);
      JoinRuns(toks, p0.pending, t);
    }
    IncreasingAppend(toks, t);
  }

  /** A token of another text: the buffered run becomes a finished one and
      its search is added to the fold. */
  lemma FlushRuns(lex: Lexicon, sources: Sources, searches: seq<Search>, toks: seq<Token>, origin: Tally,
                  pending: seq<Token>, tally: Tally, t: Token)
    requires toks != [] && Runs(toks) == Closed(toks) + [pending]
    requires OneText(pending) && pending[|pending| - 1].textId != t.textId
    requires ScanRuns(lex, sources, searches, Closed(toks), origin) == Success(tally)
    ensures Runs(toks + [t]) == Closed(toks + [t]) + [[t]]
    ensures |Closed(toks + [t])| == |Closed(toks)| + 1
    ensures ScanRuns(lex, sources, searches, Closed(toks + [t]), origin)
      == (var o :- SearchTextSpec(lex, sources, searches, pending, tally.outputs); Success(Tallied(tally, o)))
  {
    var done := Closed(toks);
    RunsSnoc(toks, t, done, pending);
    OneTextIsRun(pending);
    ScanRunsSnoc(lex, sources, searches, done, pending, origin, tally);
    var runs := (done + [pending]) + [[t]];
    assert runs[..|runs| - 1] == done + [pending];
  }

  /** A token that joins the buffer: the finished runs stay as they are. */
  lemma JoinRuns(toks: seq<Token>, pending: seq<Token>, t: Token)
    requires pending == [] <==> toks == []
    requires toks != [] ==> Runs(toks) == Closed(toks) + [pending]
    requires pending == [] || pending[|pending| - 1].textId == t.textId
    ensures Runs(toks + [t]) == Closed(toks + [t]) + [pending + [t]]
    ensures Closed(toks + [t]) == Closed(toks)
  {
    var done := Closed(toks);
    RunsSnoc(toks, t, done, pending);
    var runs := done + [pending + [t]];
    assert runs[..|runs| - 1] == done;
  }

  /** The finished runs of a stream stay finished, in order, whatever
      follows it. */
  lemma ClosedGrows(a: seq<Token>, b: seq<Token>)
    ensures Closed(a) <= Closed(a + b)
  {
    RunsGrow(a, b);
    if a != [] {
      assert a + b != [];
    }
  }

  /** A panic among the finished runs of a stream is a panic among those
      of every longer stream. */
  lemma PanicPersists(lex: Lexicon, sources: Sources, searches: seq<Search>, origin: Tally,
                      a: seq<Token>, b: seq<Token>)
    requires ScanRuns(lex, sources, searches, Closed(a), origin).Failure?
    ensures ScanRuns(lex, sources, searches, Closed(a + b), origin).Failure?
  {
    ClosedGrows(a, b);
    if ScanRuns(lex, sources, searches, Closed(a + b), origin).Success? {
      ScanRunsPrefix(lex, sources, searches, Closed(a + b), origin, |Closed(a)|);
      assert Closed(a + b)[..|Closed(a)|] == Closed(a);
    }
  }

  /** The token ids of a prefix of an increasing stream increase. */
  lemma IncreasingPrefix(ts: seq<Token>, k: nat)
    requires TokenIdsIncreasing(ts) && k <= |ts|
    ensures TokenIdsIncreasing(ts[..k])
  {
  }

  /** When every line parses and the ids increase, the loop can only stop
      by a panic, and that panic is one of a finished run. */
  lemma {:induction false} ScanLinesPanics(lex: Lexicon, sources: Sources, searches: seq<Search>, path: Path,
                                           rs: seq<Result<Token, Error>>, origin: Tally)
    requires ScanLines(lex, sources, searches, path, rs, origin).Failure?
    requires AllSucceed(rs) && TokenIdsIncreasing(Values(rs))
    ensures ScanLines(lex, sources, searches, path, rs, origin).error == WordIndexPanic
    ensures ScanRuns(lex, sources, searches, Closed(Values(rs)), origin).Failure?
    decreases |rs|
  {
    var n := |rs| - 1;
    var init := rs[..n];
    var t := rs[n].value;
    ValuesPrefix(rs, n);
    IncreasingPrefix(Values(rs), n);
    ValuesSnoc(rs, n);
    assert rs[..n + 1] == rs;
    var toks := Values(init);
    assert Values(rs) == toks + [t];
    if ScanLines(lex, sources, searches, path, init, origin).Failure? {
      ScanLinesPanics(lex, sources, searches, path, init, origin);
      PanicPersists(lex, sources, searches, origin, toks, [t]);
    } else {
      var p0 := ScanLines(lex, sources, searches, path, init, origin).value;
      ScanLinesRuns(lex, sources, searches, path, init, origin);
      StepPanics(lex, sources, searches, path, rs, origin, p0);
    }
  }

  /** The step of `ScanLinesPanics` where the lines before the last one
      went through. */
  lemma StepPanics(lex: Lexicon, sources: Sources, searches: seq<Search>, path: Path,
                   rs: seq<Result<Token, Error>>, origin: Tally, p0: Progress)
    requires rs != [] && AllSucceed(rs) && TokenIdsIncreasing(Values(rs))
    requires ScanLines(lex, sources, searches, path, rs, origin).Failure?
    requires var init := rs[..|rs| - 1];
      && AllSucceed(init) && Values(rs) == Values(init) + [rs[|rs| - 1].value]
      && ScanLines(lex, sources, searches, path, init, origin) == Success(p0)
      && (init != [] ==> Runs(Values(init)) == Closed(Values(init)) + [p0.pending])
      && ScanRuns(lex, sources, searches, Closed(Values(init)), origin) == Success(p0.tally)
    ensures ScanLines(lex, sources, searches, path, rs, origin).error == WordIndexPanic
    ensures ScanRuns(lex, sources, searches, Closed(Values(rs)), origin).Failure?
  {
    var n := |rs| - 1;
    var init := rs[..n];
    var toks := Values(init);
    var t := rs[n].value;
    assert ScanLines(lex, sources, searches, path, rs, origin) == ScanToken(lex, sources, searches, path, p0, t);
    if p0.pending != [] && p0.pending[|p0.pending| - 1].textId != t.textId {
      FlushRuns(lex, sources, searches, toks, origin, p0.pending, p0.tally, t);
    } else if p0.pending != [] {
      assert false;
    }
  }

  /** The headers' tally, where every file's scan starts. */
  function Origin(searches: seq<Search>): (t: Tally)
    ensures t.totalHits == 0 && t.hitTexts == 0 && t.outputs == Headers(searches)
  {
    Tally(0, 0, Headers(searches))
  }

  /** The loop and the last flush do what the runs promise: a file goes
      through exactly when it is searchable, and then the counters and
      outputs are those of searching its runs one after the other, with one
      text per run. When every line parses and the ids increase, the only
      error left is a panic. */
  lemma ScanFileSearchable(lex: Lexicon, sources: Sources, searches: seq<Search>, path: Path, lines: seq<string>)
    ensures var s := ScanFile(lex, sources, searches, path, TokenResults(path, lines), Origin(searches));
      s.Success? <==> FileSearchable(lex, sources, searches, path, lines)
    ensures var s := ScanFile(lex, sources, searches, path, TokenResults(path, lines), Origin(searches));
      s.Success? ==>
        && s.value.tally == FileTally(lex, sources, searches, path, lines)
        && s.value.countTexts == |FileRuns(path, lines)|
    ensures var rs := TokenResults(path, lines);
      var s := ScanFile(lex, sources, searches, path, rs, Origin(searches));
      s.Failure? && AllSucceed(rs) && TokenIdsIncreasing(Values(rs)) ==> s.error == WordIndexPanic
  {
    var rs := TokenResults(path, lines);
    var origin := Origin(searches);
    var scanned := ScanLines(lex, sources, searches, path, rs, origin);
    if scanned.Success? {
      ScanLinesRuns(lex, sources, searches, path, rs, origin);
      ScanFileLast(lex, sources, searches, path, lines, scanned.value);
    } else if AllSucceed(rs) && TokenIdsIncreasing(Values(rs)) {
      var all := Values(rs);
      ScanLinesPanics(lex, sources, searches, path, rs, origin);
      RunsAreRuns(all);
      if ScanRuns(lex, sources, searches, Runs(all), origin).Success? && all != [] {
        ScanRunsPrefix(lex, sources, searches, Runs(all), origin, |Closed(all)|);
      }
    }
  }

  /** The last flush of `ScanFileSearchable`, once the loop went through. */
  lemma ScanFileLast(lex: Lexicon, sources: Sources, searches: seq<Search>, path: Path, lines: seq<string>,
                     p: Progress)
    requires var rs := TokenResults(path, lines);
      && ScanLines(lex, sources, searches, path, rs, Origin(searches)) == Success(p)
      && AllSucceed(rs) && TokenIdsIncreasing(Values(rs))
      && (rs != [] ==> Runs(Values(rs)) == Closed(Values(rs)) + [p.pending])
      && p.countTexts == |Closed(Values(rs))|
      && ScanRuns(lex, sources, searches, Closed(Values(rs)), Origin(searches)) == Success(p.tally)
    ensures var s := ScanFile(lex, sources, searches, path, TokenResults(path, lines), Origin(searches));
      && (s.Success? <==> FileSearchable(lex, sources, searches, path, lines))
      && (s.Success? ==> s.value.tally == FileTally(lex, sources, searches, path, lines)
                         && s.value.countTexts == |FileRuns(path, lines)|)
  {
    var rs := TokenResults(path, lines);
    var all := Values(rs);
    var origin := Origin(searches);
    if rs == [] {
      assert FileRuns(path, lines) == [];
    } else {
      var done := Closed(all);
      assert FileRuns(path, lines) == done + [p.pending];
      OneTextIsRun(p.pending);
      ScanRunsSnoc(lex, sources, searches, done, p.pending, origin, p.tally);
    }
  }

  /** One run of `flush`: `search_text` on the buffered run, then the
      counters. */
  method Flush(lex: Lexicon, sources: Sources, searches: seq<Search>, p: Progress) returns (r: Result<Progress, Error>)
    requires OneText(p.pending)
    ensures r.Success? <==> SearchTextSpec(lex, sources, searches, p.pending, p.tally.outputs).Success?
    ensures r.Success? ==>
      r.value == Progress(Tallied(p.tally, SearchTextSpec(lex, sources, searches, p.pending, p.tally.outputs).value),
                          [], p.countTexts + 1)
    ensures r.Failure? ==> r.error == WordIndexPanic
  {
    OneTextIsRun(p.pending);
    ghost var spec := SearchTextSpec(lex, sources, searches, p.pending, p.tally.outputs);
    var hits, outs := SearchText(lex, sources, searches, p.pending, p.tally.outputs);
    if hits.Failure? {
      return Failure(hits.error);
    }
    var hitTexts := p.tally.hitTexts;
    if hits.value > 0 {
      hitTexts := hitTexts + 1;
    }
    assert Tally(p.tally.totalHits + hits.value, hitTexts, outs) == Tallied(p.tally, spec.value);
    r := Success(Progress(Tally(p.tally.totalHits + hits.value, hitTexts, outs), [], p.countTexts + 1));
  }

  /** The body of the loop of `CohaFile::search` for one parsed line. */
  method ScanLine(lex: Lexicon, sources: Sources, searches: seq<Search>, path: Path, p: Progress, t: Token)
    returns (r: Result<Progress, Error>)
    requires p.pending != [] ==> OneText(p.pending)
    ensures r == ScanToken(lex, sources, searches, path, p, t)
  {
    var q := p;
    if p.pending != [] && p.pending[|p.pending| - 1].textId != t.textId {
      var flushed := Flush(lex, sources, searches, p);
      assert flushed == Flushed(lex, sources, searches, p);
      if flushed.Failure? {
        return flushed;
      }
      q := flushed.value;
    }
    if q.pending != [] && q.pending[|q.pending| - 1].tokenId >= t.tokenId {
      return Failure(TsvError(path, TOKEN_IDS_NOT_INCREASING));
    }
    r := Success(q.(pending := q.pending + [t]));
  }

  /** The main loop of `CohaFile::search` over the parsed lines. */
  method ScanTokens(lex: Lexicon, sources: Sources, searches: seq<Search>, path: Path,
                    rs: seq<Result<Token, Error>>, origin: Tally)
    returns (r: Result<Progress, Error>)
    ensures r == ScanLines(lex, sources, searches, path, rs, origin)
  {
    var p := Progress(origin, [], 0);
    var i := 0;
    while i < |rs|
      invariant 0 <= i <= |rs|
      invariant ScanLines(lex, sources, searches, path, rs[..i], origin) == Success(p)
    {
      assert rs[..i + 1][..i] == rs[..i];
      if rs[i].Failure? {
        ScanLinesStops(lex, sources, searches, path, rs, origin, i + 1);
        return Failure(rs[i].error);
      }
      var next := ScanLine(lex, sources, searches, path, p, rs[i].value);
      if next.Failure? {
        ScanLinesStops(lex, sources, searches, path, rs, origin, i + 1);
        return next;
      }
      p := next.value;
      i := i + 1;
    }
    assert rs[..i] == rs;
    r := Success(p);
  }

  /** `CohaFile::search` on the text of the file: a header for each search,
      the loop over the lines, and a last flush of what is buffered. */
  method SearchFile(coha: Coha, file: CohaFile, searches: seq<Search>, text: string)
    returns (r: Result<Report, Error>, outs: seq<seq<Row>>)
    ensures var lines := Lines(text);
      r.Success? <==> FileSearchable(coha.lexicon, coha.sources, searches, PathOf(file), lines)
    ensures var lines := Lines(text);
      r.Success? ==>
        && r.value == FileReport(coha.lexicon, coha.sources, searches, PathOf(file), lines)
        && outs == FileTally(coha.lexicon, coha.sources, searches, PathOf(file), lines).outputs
    ensures var path := PathOf(file);
      r.Failure? ==>
        ScanFile(coha.lexicon, coha.sources, searches, path, TokenResults(path, Lines(text)), Origin(searches))
          == Failure(r.error)
    ensures var rs := TokenResults(PathOf(file), Lines(text));
      r.Failure? ==> || r.error == WordIndexPanic
                     || r.error == TsvError(PathOf(file), TOKEN_IDS_NOT_INCREASING)
                     || exists i :: 0 <= i < |rs| && rs[i] == Failure(r.error)
    ensures var rs := TokenResults(PathOf(file), Lines(text));
      r.Failure? && AllSucceed(rs) && TokenIdsIncreasing(Values(rs)) ==> r.error == WordIndexPanic
  {
    var lex, sources, path := coha.lexicon, coha.sources, PathOf(file);
    var lines := Lines(text);
    var rs := TokenResults(path, lines);
    outs := WriteHeaders(searches);
    var scanned := ScanTokens(lex, sources, searches, path, rs, Tally(0, 0, outs));
    ScanFileSearchable(lex, sources, searches, path, lines);
    if scanned.Failure? {
      return Failure(scanned.error), outs;
    }
    var p := scanned.value;
    if p.pending != [] {
      var flushed := Flush(lex, sources, searches, p);
      if flushed.Failure? {
        return Failure(flushed.error), outs;
      }
      p := flushed.value;
    }
    outs := p.tally.outputs;
    r := Success(Report(|lines|, p.countTexts, p.tally.totalHits, p.tally.hitTexts));
  }

  /** `Coha::search`: every file is searched, each with its own text, and
      the first error in the order of the files is the result. */
  method Search(coha: Coha, searches: seq<Search>, texts: seq<string>)
    returns (r: Result<seq<Report>, Error>, outputs: seq<seq<seq<Row>>>)
    requires |texts| == |coha.cohaFiles|
    ensures |outputs| == |texts|
    ensures r.Success? <==> forall f :: 0 <= f < |texts| ==>
      FileSearchable(coha.lexicon, coha.sources, searches, PathOf(coha.cohaFiles[f]), Lines(texts[f]))
    ensures r.Success? ==> |r.value| == |texts|
    ensures r.Success? ==> forall f :: 0 <= f < |texts| ==>
      && r.value[f] == FileReport(coha.lexicon, coha.sources, searches, PathOf(coha.cohaFiles[f]), Lines(texts[f]))
      && outputs[f] == FileTally(coha.lexicon, coha.sources, searches, PathOf(coha.cohaFiles[f]), Lines(texts[f])).outputs
    ensures r.Failure? ==> exists f :: 0 <= f < |texts| && FirstFailingFile(coha, searches, texts, f, r.error)
  {
    outputs := [];
    var reports: seq<Report> := [];
    var first: Option<Error> := None;
    ghost var at := 0;
    for f := 0 to |texts|
      invariant |outputs| == f
      invariant first.None? ==> |reports| == f
      invariant first.None? ==> forall g :: 0 <= g < f ==> Searched(coha, searches, texts, g, reports[g], outputs[g])
      invariant first.Some? ==> at < f && FirstFailingFile(coha, searches, texts, at, first.value)
    {
      var report, outs := SearchFile(coha, coha.cohaFiles[f], searches, texts[f]);
      ghost var (before, done) := (outputs, reports);
      if first.None? {
        if report.Failure? {
          assert forall g :: 0 <= g < f ==>
            FileSearchable(coha.lexicon, coha.sources, searches, PathOf(coha.cohaFiles[g]), Lines(texts[g])) by {
            forall g | 0 <= g < f
              ensures FileSearchable(coha.lexicon, coha.sources, searches, PathOf(coha.cohaFiles[g]), Lines(texts[g]))
            {
              assert Searched(coha, searches, texts, g, reports[g], outputs[g]);
            }
          }
          first, at := Some(report.error), f;
          assert FirstFailingFile(coha, searches, texts, at, first.value);
        } else {
          assert Searched(coha, searches, texts, f, report.value, outs);
          reports := reports + [report.value];
        }
      }
      outputs := outputs + [outs];
      if first.None? {
        forall g | 0 <= g <= f
          ensures Searched(coha, searches, texts, g, reports[g], outputs[g])
        {
          if g < f {
            assert reports[g] == done[g] && outputs[g] == before[g];
          }
        }
      }
    }
    if first.Some? {
      assert 0 <= at < |texts| && FirstFailingFile(coha, searches, texts, at, first.value);
      return Failure(first.value), outputs;
    }
    forall g | 0 <= g < |texts|
      ensures var path, lines := PathOf(coha.cohaFiles[g]), Lines(texts[g]);
        && FileSearchable(coha.lexicon, coha.sources, searches, path, lines)
        && reports[g] == FileReport(coha.lexicon, coha.sources, searches, path, lines)
        && outputs[g] == FileTally(coha.lexicon, coha.sources, searches, path, lines).outputs
    {
      assert Searched(coha, searches, texts, g, reports[g], outputs[g]);
    }
    r := Success(reports);
  }

  /** File `f` was searched to the end, with this report and output. */
  ghost predicate Searched(coha: Coha, searches: seq<Search>, texts: seq<string>, f: nat, report: Report,
                           outs: seq<seq<Row>>)
    requires f < |texts| == |coha.cohaFiles|
  {
    var path, lines := PathOf(coha.cohaFiles[f]), Lines(texts[f]);
    && FileSearchable(coha.lexicon, coha.sources, searches, path, lines)
    && report == FileReport(coha.lexicon, coha.sources, searches, path, lines)
    && outs == FileTally(coha.lexicon, coha.sources, searches, path, lines).outputs
  }

  /** File `f` is the first that fails, and `e` is its error. */
  ghost predicate FirstFailingFile(coha: Coha, searches: seq<Search>, texts: seq<string>, f: nat, e: Error)
    requires f < |texts| == |coha.cohaFiles|
  {
    && (forall g :: 0 <= g < f ==>
          FileSearchable(coha.lexicon, coha.sources, searches, PathOf(coha.cohaFiles[g]), Lines(texts[g])))
    && var path := PathOf(coha.cohaFiles[f]);
       && !FileSearchable(coha.lexicon, coha.sources, searches, path, Lines(texts[f]))
       && ScanFile(coha.lexicon, coha.sources, searches, path, TokenResults(path, Lines(texts[f])), Origin(searches))
            == Failure(e)
  }
}
