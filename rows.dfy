/** The records written to a search's CSV output: the header, and one row
    per hit holding the source record, the matched words and up to
    `CONTEXT` tokens of context on each side (`write_header`, `write_hit`,
    `get_word`, `get_text`, `get_lemma_pos`). */
module Rows {
  import opened Wrappers
  import opened Text
  import opened Tsv
  import opened Loader

  /** Tokens of context kept on each side of a hit. */
  const CONTEXT: nat := 30

  /** One CSV record. */
  type Row = seq<string>

  /* ---------------------------------------------------------------------- */
  /* Looking words up                                                        */
  /* ---------------------------------------------------------------------- */

  /** `get_word`: the lexicon entry of an id. A gap or an id past the end
      panics; the model turns the panic into the error `WordIndexPanic`. */
  function GetWord(lex: Lexicon, id: WordId): (r: Result<Word, Error>)
    ensures r.Success? <==> id < |lex| && lex[id].Some?
    ensures r.Success? ==> lex[id] == Some(r.value)
    ensures r.Failure? ==> r.error == WordIndexPanic
    ensures r.Success? && WellFormedLexicon(lex) ==> r.value.wordId == id
  {
    if id < |lex| && lex[id].Some? then Success(lex[id].value) else Failure(WordIndexPanic)
  }

  /** Every token from index `a` up to `b` has a word in the lexicon. */
  predicate HasWords(lex: Lexicon, tokens: seq<Token>, a: nat, b: nat)
    requires a <= b <= |tokens|
  {
    forall k :: a <= k < b ==> GetWord(lex, tokens[k].wordId).Success?
  }

  /** The words of the tokens, in order; a token without one panics. */
  function TokenWords(lex: Lexicon, tokens: seq<Token>): (r: Result<seq<Word>, Error>)
    ensures r.Success? <==> HasWords(lex, tokens, 0, |tokens|)
    ensures r.Success? ==> |r.value| == |tokens|
    ensures r.Success? ==> forall k :: 0 <= k < |tokens| ==> GetWord(lex, tokens[k].wordId) == Success(r.value[k])
    ensures r.Failure? ==> r.error == WordIndexPanic
  {
    if HasWords(lex, tokens, 0, |tokens|)
    then Success(seq(|tokens|, k requires 0 <= k < |tokens| => GetWord(lex, tokens[k].wordId).value))
    else Failure(WordIndexPanic)
  }

  function CaseSensitiveForms(ws: seq<Word>): (forms: seq<string>)
    ensures |forms| == |ws| && forall k :: 0 <= k < |ws| ==> forms[k] == ws[k].wordCs
  {
    seq(|ws|, k requires 0 <= k < |ws| => ws[k].wordCs)
  }

  function LemmaPosForms(ws: seq<Word>): (forms: seq<string>)
    ensures |forms| == |ws| && forall k :: 0 <= k < |ws| ==> forms[k] == ws[k].lemmaForm + "_" + ws[k].pos
  {
    seq(|ws|, k requires 0 <= k < |ws| => ws[k].lemmaForm + "_" + ws[k].pos)
  }

  /** `get_text`: the case-sensitive forms of the tokens, separated by
      spaces. */
  function GetText(lex: Lexicon, tokens: seq<Token>): (r: Result<string, Error>)
    ensures r.Success? <==> HasWords(lex, tokens, 0, |tokens|)
    ensures r.Success? ==> r.value == Join(CaseSensitiveForms(TokenWords(lex, tokens).value), " ")
    ensures r.Failure? ==> r.error == WordIndexPanic
  {
    var ws :- TokenWords(lex, tokens);
    Success(Join(CaseSensitiveForms(ws), " "))
  }

  /** `get_lemma_pos`: "lemma_pos" of each token, separated by spaces. */
  function GetLemmaPos(lex: Lexicon, tokens: seq<Token>): (r: Result<string, Error>)
    ensures r.Success? <==> HasWords(lex, tokens, 0, |tokens|)
    ensures r.Success? ==> r.value == Join(LemmaPosForms(TokenWords(lex, tokens).value), " ")
    ensures r.Failure? ==> r.error == WordIndexPanic
  {
    var ws :- TokenWords(lex, tokens);
    Success(Join(LemmaPosForms(ws), " "))
  }

  /** The text of a context can be split back into its words when no word
      form contains a space. */
  lemma GetTextSplit(lex: Lexicon, tokens: seq<Token>)
    requires |tokens| > 0 && TokenWords(lex, tokens).Success?
    requires forall k :: 0 <= k < |tokens| ==> ' ' !in TokenWords(lex, tokens).value[k].wordCs
    ensures GetText(lex, tokens).Success?
    ensures Split(GetText(lex, tokens).value, ' ') == CaseSensitiveForms(TokenWords(lex, tokens).value)
  {
    SplitJoin(CaseSensitiveForms(TokenWords(lex, tokens).value), ' ');
  }

  /** Likewise the lemma/PoS text splits back into one "lemma_pos" per token
      when no lemma or part of speech contains a space. */
  lemma GetLemmaPosSplit(lex: Lexicon, tokens: seq<Token>)
    requires |tokens| > 0 && TokenWords(lex, tokens).Success?
    requires forall k :: 0 <= k < |tokens| ==>
      ' ' !in TokenWords(lex, tokens).value[k].lemmaForm && ' ' !in TokenWords(lex, tokens).value[k].pos
    ensures GetLemmaPos(lex, tokens).Success?
    ensures Split(GetLemmaPos(lex, tokens).value, ' ') == LemmaPosForms(TokenWords(lex, tokens).value)
  {
    var ws := TokenWords(lex, tokens).value;
    forall k | 0 <= k < |ws| ensures ' ' !in LemmaPosForms(ws)[k] {
      assert LemmaPosForms(ws)[k] == ws[k].lemmaForm + "_" + ws[k].pos;
    }
    SplitJoin(LemmaPosForms(ws), ' ');
  }

  /* ---------------------------------------------------------------------- */
  /* The context window                                                      */
  /* ---------------------------------------------------------------------- */

  /** `start`: `CONTEXT` tokens before the hit, or the start of the run. */
  function WindowStart(pos: nat): (start: nat)
    ensures start <= pos && pos - start <= CONTEXT
    ensures start == 0 || pos - start == CONTEXT
  {
    if pos < CONTEXT then 0 else pos - CONTEXT
  }

  /** `end`: `CONTEXT` tokens after the hit, or the end of the run. */
  function WindowEnd(n: nat, pos: nat, m: nat): (end: nat)
    requires pos + m <= n
    ensures pos + m <= end <= n && end - (pos + m) <= CONTEXT
    ensures end == n || end - (pos + m) == CONTEXT
  {
    if n < pos + m + CONTEXT then n else pos + m + CONTEXT
  }

  /* ---------------------------------------------------------------------- */
  /* Rows                                                                    */
  /* ---------------------------------------------------------------------- */

  /** The cells of a list of groups, one group after the other. */
  function Flatten(groups: seq<Row>): Row
  {
    if groups == [] then [] else Flatten(groups[..|groups| - 1]) + groups[|groups| - 1]
  }

  /** Groups of three cells are laid out three by three. */
  lemma {:induction false} FlattenTriples(groups: seq<Row>)
    requires forall j :: 0 <= j < |groups| ==> |groups[j]| == 3
    ensures |Flatten(groups)| == 3 * |groups|
    ensures forall j, t :: 0 <= j < |groups| && 0 <= t < 3 ==> Flatten(groups)[3 * j + t] == groups[j][t]
  {
    if groups != [] {
      var init := groups[..|groups| - 1];
      FlattenTriples(init);
      forall j, t | 0 <= j < |groups| && 0 <= t < 3 ensures Flatten(groups)[3 * j + t] == groups[j][t] {
        if j < |init| {
          assert groups[j] == init[j];
        }
      }
    }
  }

  /** `format!("{name} {}", j + 1)`: the column name of pattern position `j`. */
  function Numbered(name: string, j: nat): string
  {
    name + " " + NatToString(j + 1)
  }

  /** The columns of the source record and the hit position. */
  const RECORD_COLUMNS: Row := ["text ID", "genre", "year", "title", "author", "position"]

  function WordAnalysisColumns(j: nat): Row
  {
    [Numbered("word", j), Numbered("lemma", j), Numbered("pos", j)]
  }

  /** The case-sensitive-form columns, one per pattern position. */
  function WordCsColumns(m: nat): (cols: Row)
    ensures |cols| == m && forall j :: 0 <= j < m ==> cols[j] == Numbered("wordCS", j)
  {
    seq(m, j requires 0 <= j => Numbered("wordCS", j))
  }

  /** The word, lemma and part-of-speech columns, three per pattern position. */
  function AnalysisColumns(m: nat): (groups: seq<Row>)
    ensures |groups| == m && forall j :: 0 <= j < m ==> groups[j] == WordAnalysisColumns(j)
  {
    seq(m, j requires 0 <= j => WordAnalysisColumns(j))
  }

  /** The column layout shared by the header and every hit: the six
      record cells, the context before, one cell per pattern position, the
      context after, the lemmatised context before, three cells per pattern
      position, and the lemmatised context after. */
  function Layout(record: Row, before: string, forms: Row, after: string, beforePos: string,
                  analyses: seq<Row>, afterPos: string): Row
  {
    record + [before] + forms + [after, beforePos] + Flatten(analyses) + [afterPos]
  }

  /** The fixed cells of the layout. */
  lemma LayoutFixedCells(record: Row, before: string, forms: Row, after: string, beforePos: string,
                         analyses: seq<Row>, afterPos: string)
    requires |record| == 6 && forall j :: 0 <= j < |analyses| ==> |analyses[j]| == 3
    ensures |Layout(record, before, forms, after, beforePos, analyses, afterPos)| == 10 + |forms| + 3 * |analyses|
    ensures Layout(record, before, forms, after, beforePos, analyses, afterPos)[..6] == record
    ensures Layout(record, before, forms, after, beforePos, analyses, afterPos)[6] == before
    ensures Layout(record, before, forms, after, beforePos, analyses, afterPos)[7 + |forms|] == after
    ensures Layout(record, before, forms, after, beforePos, analyses, afterPos)[8 + |forms|] == beforePos
    ensures Layout(record, before, forms, after, beforePos, analyses, afterPos)[9 + |forms| + 3 * |analyses|] == afterPos
  {
    FlattenTriples(analyses);
  }

  /** The per-position cells of the layout. */
  lemma LayoutPositionCells(record: Row, before: string, forms: Row, after: string, beforePos: string,
                            analyses: seq<Row>, afterPos: string)
    requires |record| == 6 && forall j :: 0 <= j < |analyses| ==> |analyses[j]| == 3
    ensures |Layout(record, before, forms, after, beforePos, analyses, afterPos)| == 10 + |forms| + 3 * |analyses|
    ensures forall j :: 0 <= j < |forms| ==> Layout(record, before, forms, after, beforePos, analyses, afterPos)[7 + j] == forms[j]
    ensures forall j :: 0 <= j < |analyses| ==>
      Layout(record, before, forms, after, beforePos, analyses, afterPos)[9 + |forms| + 3 * j..12 + |forms| + 3 * j] == analyses[j]
  {
    FlattenTriples(analyses);
    var prefix := record + [before] + forms + [after, beforePos];
    var row := Layout(record, before, forms, after, beforePos, analyses, afterPos);
    assert row == prefix + Flatten(analyses) + [afterPos];
    forall j | 0 <= j < |forms| ensures row[7 + j] == forms[j] {
      assert row[7 + j] == prefix[7 + j];
    }
    forall j | 0 <= j < |analyses| ensures row[9 + |forms| + 3 * j..12 + |forms| + 3 * j] == analyses[j] {
      TripleAt(prefix, Flatten(analyses), [afterPos], j, analyses[j]);
    }
  }

  /** Three cells of the middle part of a row, read through the whole row. */
  lemma TripleAt(prefix: Row, middle: Row, suffix: Row, j: nat, triple: Row)
    requires |triple| == 3 && 3 * j + 3 <= |middle|
    requires middle[3 * j] == triple[0] && middle[3 * j + 1] == triple[1] && middle[3 * j + 2] == triple[2]
    ensures (prefix + middle + suffix)[|prefix| + 3 * j..|prefix| + 3 * j + 3] == triple
  {
    var row := prefix + middle + suffix;
    assert row[|prefix| + 3 * j] == middle[3 * j];
    assert row[|prefix| + 3 * j + 1] == middle[3 * j + 1];
    assert row[|prefix| + 3 * j + 2] == middle[3 * j + 2];
  }

  /** The header for a pattern of `m` positions. */
  function HeaderRow(m: nat): Row
  {
    Layout(RECORD_COLUMNS, "before", WordCsColumns(m), "after", "before_pos", AnalysisColumns(m), "after_pos")
  }

  /** The header has `10 + 4m` cells: the record, the case-sensitive forms
      between the contexts, then word, lemma and part of speech of each
      position between the lemmatised contexts. */
  lemma HeaderColumns(m: nat)
    ensures |HeaderRow(m)| == 10 + 4 * m
    ensures HeaderRow(m)[..6] == RECORD_COLUMNS
    ensures HeaderRow(m)[6] == "before" && HeaderRow(m)[7 + m] == "after"
    ensures HeaderRow(m)[8 + m] == "before_pos" && HeaderRow(m)[9 + 4 * m] == "after_pos"
    ensures forall j :: 0 <= j < m ==> HeaderRow(m)[7 + j] == Numbered("wordCS", j)
    ensures forall j :: 0 <= j < m ==>
      HeaderRow(m)[9 + m + 3 * j..12 + m + 3 * j] == WordAnalysisColumns(j)
  {
    LayoutFixedCells(RECORD_COLUMNS, "before", WordCsColumns(m), "after", "before_pos", AnalysisColumns(m), "after_pos");
    LayoutPositionCells(RECORD_COLUMNS, "before", WordCsColumns(m), "after", "before_pos", AnalysisColumns(m), "after_pos");
  }

  /** `write_header`: the header row for a pattern of `m` positions, built
      cell by cell. */
  method WriteHeader(m: nat) returns (row: Row)
    ensures row == HeaderRow(m)
  {
    row := RECORD_COLUMNS;
    row := row + ["before"];
    for j := 0 to m
      invariant row == RECORD_COLUMNS + ["before"] + WordCsColumns(j)
    {
      assert WordCsColumns(j + 1) == WordCsColumns(j) + [Numbered("wordCS", j)];
      row := row + [Numbered("wordCS", j)];
    }
    row := row + ["after"];
    row := row + ["before_pos"];
    ghost var base := row;
    for j := 0 to m
      invariant row == base + Flatten(AnalysisColumns(j))
    {
      assert AnalysisColumns(j + 1)[..j] == AnalysisColumns(j);
      row := row + [Numbered("word", j)];
      row := row + [Numbered("lemma", j)];
      row := row + [Numbered("pos", j)];
    }
    row := row + ["after_pos"];
  }

  /** The cells describing the source and the position of a hit. */
  function RecordCells(source: Source, pos: nat): Row
  {
    [NatToString(source.textId), GenreDisplay(source.genre), NatToString(source.year),
     source.title, source.author, NatToString(pos)]
  }

  function WordAnalysis(w: Word): Row
  {
    [w.word, w.lemmaForm, w.pos]
  }

  /** Word, lemma and part of speech of each word, three cells per word. */
  function Analyses(ws: seq<Word>): (groups: seq<Row>)
    ensures |groups| == |ws| && forall j :: 0 <= j < |ws| ==> groups[j] == WordAnalysis(ws[j])
  {
    seq(|ws|, j requires 0 <= j < |ws| => WordAnalysis(ws[j]))
  }

  /** The cells of a hit whose window holds the words `before`, `ws` (the
      matched ones) and `after`. */
  function HitCells(source: Source, pos: nat, before: seq<Word>, ws: seq<Word>, after: seq<Word>): Row
  {
    Layout(RecordCells(source, pos), Join(CaseSensitiveForms(before), " "), CaseSensitiveForms(ws),
      Join(CaseSensitiveForms(after), " "), Join(LemmaPosForms(before), " "), Analyses(ws),
      Join(LemmaPosForms(after), " "))
  }

  /** The row of a hit of a pattern of `m` positions at `pos` of the run
      `tokens`; it panics when a token of the window has no word. */
  function HitRow(lex: Lexicon, source: Source, tokens: seq<Token>, pos: nat, m: nat): Result<Row, Error>
    requires pos + m <= |tokens|
  {
    var before :- TokenWords(lex, tokens[WindowStart(pos)..pos]);
    var ws :- TokenWords(lex, tokens[pos..pos + m]);
    var after :- TokenWords(lex, tokens[pos + m..WindowEnd(|tokens|, pos, m)]);
    Success(HitCells(source, pos, before, ws, after))
  }

  /** The words of a slice of tokens, read through the whole sequence. */
  lemma TokenWordsSlice(lex: Lexicon, tokens: seq<Token>, a: nat, b: nat)
    requires a <= b <= |tokens|
    ensures TokenWords(lex, tokens[a..b]).Success? <==> HasWords(lex, tokens, a, b)
    ensures TokenWords(lex, tokens[a..b]).Success? ==>
      forall k :: a <= k < b ==> TokenWords(lex, tokens[a..b]).value[k - a] == GetWord(lex, tokens[k].wordId).value
  {
    var slice := tokens[a..b];
    assert forall k :: a <= k < b ==> slice[k - a] == tokens[k];
    assert forall k :: 0 <= k < |slice| ==> slice[k] == tokens[a + k];
  }

  /** A hit row exists exactly when every token of the window has a word. */
  lemma HitRowDefined(lex: Lexicon, source: Source, tokens: seq<Token>, pos: nat, m: nat)
    requires pos + m <= |tokens|
    ensures HitRow(lex, source, tokens, pos, m).Success? <==> HasWords(lex, tokens, WindowStart(pos), WindowEnd(|tokens|, pos, m))
    ensures HitRow(lex, source, tokens, pos, m).Failure? ==> HitRow(lex, source, tokens, pos, m).error == WordIndexPanic
  {
    var start, end := WindowStart(pos), WindowEnd(|tokens|, pos, m);
    TokenWordsSlice(lex, tokens, start, pos);
    TokenWordsSlice(lex, tokens, pos, pos + m);
    TokenWordsSlice(lex, tokens, pos + m, end);
    HasWordsSplit(lex, tokens, start, pos, end);
    HasWordsSplit(lex, tokens, pos, pos + m, end);
  }

  lemma HasWordsSplit(lex: Lexicon, tokens: seq<Token>, a: nat, b: nat, c: nat)
    requires a <= b <= c <= |tokens|
    ensures HasWords(lex, tokens, a, c) <==> HasWords(lex, tokens, a, b) && HasWords(lex, tokens, b, c)
  {
  }

  /** The words of the three parts of a hit's window, when they all exist. */
  lemma HitRowParts(lex: Lexicon, source: Source, tokens: seq<Token>, pos: nat, m: nat)
      returns (before: seq<Word>, ws: seq<Word>, after: seq<Word>)
    requires pos + m <= |tokens| && HitRow(lex, source, tokens, pos, m).Success?
    ensures TokenWords(lex, tokens[WindowStart(pos)..pos]) == Success(before)
    ensures TokenWords(lex, tokens[pos..pos + m]) == Success(ws)
    ensures TokenWords(lex, tokens[pos + m..WindowEnd(|tokens|, pos, m)]) == Success(after)
    ensures HitRow(lex, source, tokens, pos, m).value == HitCells(source, pos, before, ws, after)
  {
    before := TokenWords(lex, tokens[WindowStart(pos)..pos]).value;
    ws := TokenWords(lex, tokens[pos..pos + m]).value;
    after := TokenWords(lex, tokens[pos + m..WindowEnd(|tokens|, pos, m)]).value;
  }

  /** The record and the four context cells of a hit row sit under the
      header columns that name them. */
  lemma HitRowFixedCells(lex: Lexicon, source: Source, tokens: seq<Token>, pos: nat, m: nat)
    requires pos + m <= |tokens| && HitRow(lex, source, tokens, pos, m).Success?
    ensures |HitRow(lex, source, tokens, pos, m).value| == 10 + 4 * m == |HeaderRow(m)|
    ensures HitRow(lex, source, tokens, pos, m).value[..6] == RecordCells(source, pos)
    ensures GetText(lex, tokens[WindowStart(pos)..pos]).Success?
    ensures GetText(lex, tokens[pos + m..WindowEnd(|tokens|, pos, m)]).Success?
    ensures GetLemmaPos(lex, tokens[WindowStart(pos)..pos]).Success?
    ensures GetLemmaPos(lex, tokens[pos + m..WindowEnd(|tokens|, pos, m)]).Success?
    ensures HitRow(lex, source, tokens, pos, m).value[6] == GetText(lex, tokens[WindowStart(pos)..pos]).value
    ensures HitRow(lex, source, tokens, pos, m).value[7 + m] ==
      GetText(lex, tokens[pos + m..WindowEnd(|tokens|, pos, m)]).value
    ensures HitRow(lex, source, tokens, pos, m).value[8 + m] == GetLemmaPos(lex, tokens[WindowStart(pos)..pos]).value
    ensures HitRow(lex, source, tokens, pos, m).value[9 + 4 * m] ==
      GetLemmaPos(lex, tokens[pos + m..WindowEnd(|tokens|, pos, m)]).value
  {
    var before, ws, after := HitRowParts(lex, source, tokens, pos, m);
    LayoutFixedCells(RecordCells(source, pos), Join(CaseSensitiveForms(before), " "), CaseSensitiveForms(ws),
      Join(CaseSensitiveForms(after), " "), Join(LemmaPosForms(before), " "), Analyses(ws),
      Join(LemmaPosForms(after), " "));
    HeaderColumns(m);
  }

  /** For every token `k` of the match, the case-sensitive form, word, lemma
      and part of speech of its word sit under the columns of pattern
      position `k - pos`. */
  lemma HitRowPositionCells(lex: Lexicon, source: Source, tokens: seq<Token>, pos: nat, m: nat)
    requires pos + m <= |tokens| && HitRow(lex, source, tokens, pos, m).Success?
    ensures |HitRow(lex, source, tokens, pos, m).value| == 10 + 4 * m
    ensures forall k :: pos <= k < pos + m ==> GetWord(lex, tokens[k].wordId).Success?
    ensures forall k :: pos <= k < pos + m ==>
      HitRow(lex, source, tokens, pos, m).value[7 + (k - pos)] == GetWord(lex, tokens[k].wordId).value.wordCs
    ensures forall k :: pos <= k < pos + m ==>
      HitRow(lex, source, tokens, pos, m).value[9 + m + 3 * (k - pos)..12 + m + 3 * (k - pos)]
        == WordAnalysis(GetWord(lex, tokens[k].wordId).value)
  {
    var before, ws, after := HitRowParts(lex, source, tokens, pos, m);
    TokenWordsSlice(lex, tokens, pos, pos + m);
    HitCellsPositions(source, pos, before, ws, after);
    MatchedCells(lex, tokens, pos, m, ws, HitRow(lex, source, tokens, pos, m).value);
  }

  /** Cells laid out from the matched words `ws`, read back per token. */
  lemma MatchedCells(lex: Lexicon, tokens: seq<Token>, pos: nat, m: nat, ws: seq<Word>, row: Row)
    requires pos + m <= |tokens| && TokenWords(lex, tokens[pos..pos + m]) == Success(ws)
    requires forall k :: pos <= k < pos + m ==> TokenWords(lex, tokens[pos..pos + m]).value[k - pos] == GetWord(lex, tokens[k].wordId).value
    requires |row| == 10 + 4 * |ws|
    requires forall j :: 0 <= j < |ws| ==> row[7 + j] == ws[j].wordCs
    requires forall j :: 0 <= j < |ws| ==> row[9 + |ws| + 3 * j..12 + |ws| + 3 * j] == WordAnalysis(ws[j])
    ensures forall k :: pos <= k < pos + m ==> GetWord(lex, tokens[k].wordId).Success?
    ensures forall k :: pos <= k < pos + m ==> row[7 + (k - pos)] == GetWord(lex, tokens[k].wordId).value.wordCs
    ensures forall k :: pos <= k < pos + m ==>
      row[9 + m + 3 * (k - pos)..12 + m + 3 * (k - pos)] == WordAnalysis(GetWord(lex, tokens[k].wordId).value)
  {
    forall k | pos <= k < pos + m
      ensures GetWord(lex, tokens[k].wordId).Success?
      ensures row[7 + (k - pos)] == GetWord(lex, tokens[k].wordId).value.wordCs
      ensures row[9 + m + 3 * (k - pos)..12 + m + 3 * (k - pos)] == WordAnalysis(GetWord(lex, tokens[k].wordId).value)
    {
      var j := k - pos;
      assert ws[j] == GetWord(lex, tokens[k].wordId).value;
      assert row[9 + |ws| + 3 * j..12 + |ws| + 3 * j] == WordAnalysis(ws[j]);
    }
  }

  /** The per-position cells of the cells of a hit, read from its matched
      words. */
  lemma HitCellsPositions(source: Source, pos: nat, before: seq<Word>, ws: seq<Word>, after: seq<Word>)
    ensures |HitCells(source, pos, before, ws, after)| == 10 + 4 * |ws|
    ensures forall j :: 0 <= j < |ws| ==> HitCells(source, pos, before, ws, after)[7 + j] == ws[j].wordCs
    ensures forall j :: 0 <= j < |ws| ==>
      HitCells(source, pos, before, ws, after)[9 + |ws| + 3 * j..12 + |ws| + 3 * j] == WordAnalysis(ws[j])
  {
    LayoutPositionCells(RecordCells(source, pos), Join(CaseSensitiveForms(before), " "), CaseSensitiveForms(ws),
      Join(CaseSensitiveForms(after), " "), Join(LemmaPosForms(before), " "), Analyses(ws),
      Join(LemmaPosForms(after), " "));
  }

  /** Looking one more token up: the words so far grow by its word, or the
      whole sequence panics. */
  lemma TokenWordsStep(lex: Lexicon, tokens: seq<Token>, j: nat)
    requires j < |tokens| && TokenWords(lex, tokens[..j]).Success?
    ensures GetWord(lex, tokens[j].wordId).Success? ==>
      TokenWords(lex, tokens[..j + 1]) == Success(TokenWords(lex, tokens[..j]).value + [GetWord(lex, tokens[j].wordId).value])
    ensures GetWord(lex, tokens[j].wordId).Failure? ==> TokenWords(lex, tokens).Failure?
  {
    var prefix, longer := tokens[..j], tokens[..j + 1];
    assert forall k :: 0 <= k < j ==> longer[k] == prefix[k];
    assert longer[j] == tokens[j];
    var word := GetWord(lex, tokens[j].wordId);
    if word.Success? {
      var vs := TokenWords(lex, prefix).value;
      assert HasWords(lex, longer, 0, j + 1);
      var ext := TokenWords(lex, longer).value;
      forall k | 0 <= k < j + 1 ensures ext[k] == (vs + [word.value])[k] {
        if k < j {
          assert GetWord(lex, prefix[k].wordId) == Success(vs[k]);
        }
      }
      assert ext == vs + [word.value];
    } else {
      assert !HasWords(lex, tokens, 0, |tokens|);
    }
  }

  lemma FormsSnoc(ws: seq<Word>, w: Word)
    ensures CaseSensitiveForms(ws + [w]) == CaseSensitiveForms(ws) + [w.wordCs]
  {
  }

  lemma AnalysesSnoc(ws: seq<Word>, j: nat)
    requires j < |ws|
    ensures Flatten(Analyses(ws[..j + 1])) == Flatten(Analyses(ws[..j])) + WordAnalysis(ws[j])
  {
    assert Analyses(ws[..j + 1])[..j] == Analyses(ws[..j]);
  }

  /** The row of a hit whose three window parts all have words. */
  lemma HitRowOf(lex: Lexicon, source: Source, tokens: seq<Token>, pos: nat, m: nat,
                 before: seq<Word>, ws: seq<Word>, after: seq<Word>)
    requires pos + m <= |tokens|
    requires TokenWords(lex, tokens[WindowStart(pos)..pos]) == Success(before)
    requires TokenWords(lex, tokens[pos..pos + m]) == Success(ws)
    requires TokenWords(lex, tokens[pos + m..WindowEnd(|tokens|, pos, m)]) == Success(after)
    ensures HitRow(lex, source, tokens, pos, m) == Success(HitCells(source, pos, before, ws, after))
  {
  }

  /** The first loop of `write_hit`: the case-sensitive form of each
      matched token, appended to `row`; a token without a word panics. */
  method AppendForms(lex: Lexicon, tokens: seq<Token>, pos: nat, m: nat, row: Row) returns (r: Result<Row, Error>)
    requires pos + m <= |tokens|
    ensures r.Success? <==> TokenWords(lex, tokens[pos..pos + m]).Success?
    ensures r.Success? ==> r.value == row + CaseSensitiveForms(TokenWords(lex, tokens[pos..pos + m]).value)
    ensures r.Failure? ==> r.error == WordIndexPanic
  {
    var cells := row;
    ghost var middle := tokens[pos..pos + m];
    assert middle[..0] == [];
    for j := 0 to m
      invariant TokenWords(lex, middle[..j]).Success?
      invariant cells == row + CaseSensitiveForms(TokenWords(lex, middle[..j]).value)
    {
      var word := GetWord(lex, tokens[pos + j].wordId);
      assert middle[j] == tokens[pos + j];
      TokenWordsStep(lex, middle, j);
      if word.Failure? {
        return Failure(word.error);
      }
      FormsSnoc(TokenWords(lex, middle[..j]).value, word.value);
      cells := cells + [word.value.wordCs];
    }
    assert middle[..m] == middle;
    r := Success(cells);
  }

  /** The second loop of `write_hit`: word, lemma and part of speech of each
      matched token, appended to `row`. */
  method AppendAnalyses(lex: Lexicon, tokens: seq<Token>, pos: nat, m: nat, row: Row) returns (r: Row)
    requires pos + m <= |tokens| && TokenWords(lex, tokens[pos..pos + m]).Success?
    ensures r == row + Flatten(Analyses(TokenWords(lex, tokens[pos..pos + m]).value))
  {
    ghost var middle := tokens[pos..pos + m];
    ghost var ws := TokenWords(lex, middle).value;
    r := row;
    for j := 0 to m
      invariant r == row + Flatten(Analyses(ws[..j]))
    {
      var word := GetWord(lex, tokens[pos + j].wordId);
      assert middle[j] == tokens[pos + j] && word.value == ws[j];
      AnalysesSnoc(ws, j);
      r := r + [word.value.word, word.value.lemmaForm, word.value.pos];
    }
    assert ws[..m] == ws;
  }

  /** `write_hit`: the row of a hit, built cell by cell as the header lays
      the columns out; the first token without a word panics. */
  method WriteHit(lex: Lexicon, source: Source, tokens: seq<Token>, pos: nat, m: nat)
    returns (r: Result<Row, Error>)
    requires pos + m <= |tokens|
    ensures r == HitRow(lex, source, tokens, pos, m)
  {
    var row := RecordCells(source, pos);
    var start := if pos < CONTEXT then 0 else pos - CONTEXT;
    var end := if |tokens| < pos + m + CONTEXT then |tokens| else pos + m + CONTEXT;
    assert start == WindowStart(pos) && end == WindowEnd(|tokens|, pos, m);
    var before := GetText(lex, tokens[start..pos]);
    if before.Failure? {
      assert TokenWords(lex, tokens[start..pos]).Failure?;
      return Failure(before.error);
    }
    ghost var beforeWords := TokenWords(lex, tokens[start..pos]).value;
    row := row + [before.value];
    var withForms := AppendForms(lex, tokens, pos, m, row);
    if withForms.Failure? {
      assert HitRow(lex, source, tokens, pos, m) == Failure(WordIndexPanic);
      return Failure(withForms.error);
    }
    ghost var ws := TokenWords(lex, tokens[pos..pos + m]).value;
    row := withForms.value;
    var after := GetText(lex, tokens[pos + m..end]);
    if after.Failure? {
      assert TokenWords(lex, tokens[pos + m..end]).Failure?;
      assert HitRow(lex, source, tokens, pos, m) == Failure(WordIndexPanic);
      return Failure(after.error);
    }
    ghost var afterWords := TokenWords(lex, tokens[pos + m..end]).value;
    row := row + [after.value];
    var beforePos := GetLemmaPos(lex, tokens[start..pos]);
    row := row + [beforePos.value];
    row := AppendAnalyses(lex, tokens, pos, m, row);
    var afterPos := GetLemmaPos(lex, tokens[pos + m..end]);
    row := row + [afterPos.value];
    assert row == HitCells(source, pos, beforeWords, ws, afterWords);
    HitRowOf(lex, source, tokens, pos, m, beforeWords, ws, afterWords);
    r := Success(row);
  }
}
