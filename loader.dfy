/** Loading the corpus: the source table (text id to bibliographic record),
    the dense lexicon (word id to word, with gaps), the list of per-decade
    corpus files, and the `Coha` value that owns all three. */
module Loader {
  import opened Wrappers
  import opened Text
  import opened Tsv

  const SOURCES_HEADER: seq<string> := [
    "textID", " # words ", "genre", "year", "title", "author",
    "Publication information", "Library of Congress classification (NF)", "FIXED"]
  const LEXICON_HEADER: seq<string> := ["wID", "wordCS", "word", "lemma", "PoS"]
  const LEXICON_SEPARATOR: seq<string> := ["----", "----", "----", "----", "----"]
  const LEXICON_EMPTY: seq<string> := [""]
  const WORD_IDS_NOT_INCREASING := "word IDs not increasing"

  type Sources = map<TextId, Source>

  /** Index `k` holds the word whose id is `k`, or `None` for an id the
      lexicon file skips. */
  type Lexicon = seq<Option<Word>>

  datatype CohaFile = CohaFile(corpusPath: seq<string>, identifier: string)

  datatype Coha = Coha(sources: Sources, lexicon: Lexicon, cohaFiles: seq<CohaFile>)

  /** The `k`-th line of a file, or `None` when `read_line` has hit the end. */
  function LineAt(lines: seq<string>, k: nat): Option<string>
  {
    if k < |lines| then Some(lines[k]) else None
  }

  /* ---------------------------------------------------------------------- */
  /* Rows parsed one by one                                                  */
  /* ---------------------------------------------------------------------- */

  /** Every row's parse succeeded. */
  predicate AllSucceed<T>(rs: seq<Result<T, Error>>)
  {
    forall i :: 0 <= i < |rs| ==> rs[i].Success?
  }

  /** The parsed values, in row order. */
  function Values<T>(rs: seq<Result<T, Error>>): (vs: seq<T>)
    requires AllSucceed(rs)
    ensures |vs| == |rs| && forall i :: 0 <= i < |rs| ==> vs[i] == rs[i].value
  {
    if rs == [] then [] else Values(rs[..|rs| - 1]) + [rs[|rs| - 1].value]
  }

  /** Row `i` is the first whose parse failed. */
  predicate FirstFailure<T>(rs: seq<Result<T, Error>>, i: nat)
  {
    i < |rs| && AllSucceed(rs[..i]) && rs[i].Failure?
  }

  lemma ValuesSnoc<T>(rs: seq<Result<T, Error>>, i: nat)
    requires i < |rs|
    ensures AllSucceed(rs[..i + 1]) <==> AllSucceed(rs[..i]) && rs[i].Success?
    ensures AllSucceed(rs[..i + 1]) ==> Values(rs[..i + 1]) == Values(rs[..i]) + [rs[i].value]
  {
    assert rs[..i + 1][..i] == rs[..i];
  }

  lemma ValuesPrefix<T>(rs: seq<Result<T, Error>>, k: nat)
    requires AllSucceed(rs) && k <= |rs|
    ensures AllSucceed(rs[..k]) && Values(rs[..k]) == Values(rs)[..k]
  {
    assert forall i :: 0 <= i < k ==> rs[..k][i] == rs[i];
  }

  /* ---------------------------------------------------------------------- */
  /* Source table (`read_sources`)                                           */
  /* ---------------------------------------------------------------------- */

  /** `Source::parse_tsv` on every row. */
  function SourceResults(path: Path, rows: seq<string>): (rs: seq<Result<Source, Error>>)
    ensures |rs| == |rows| && forall i :: 0 <= i < |rows| ==> rs[i] == ParseSource(path, rows[i])
  {
    seq(|rows|, i requires 0 <= i < |rows| => ParseSource(path, rows[i]))
  }

  /** Inserting the records one after the other into a map: a later record
      with the same text id replaces an earlier one. */
  function SourceTable(ss: seq<Source>): Sources
  {
    if ss == [] then map[] else
    var s := ss[|ss| - 1];
    SourceTable(ss[..|ss| - 1])[s.textId := s]
  }

  /** The table holds exactly the text ids of the records. */
  lemma {:induction false} SourceTableKeys(ss: seq<Source>)
    ensures SourceTable(ss).Keys == set i | 0 <= i < |ss| :: ss[i].textId
  {
    if ss != [] {
      var init := ss[..|ss| - 1];
      SourceTableKeys(init);
      var ids := set i | 0 <= i < |ss| :: ss[i].textId;
      var initIds := set i | 0 <= i < |init| :: init[i].textId;
      assert ids == initIds + {ss[|ss| - 1].textId} by {
        forall id | id in ids ensures id in initIds + {ss[|ss| - 1].textId} {
          var i :| 0 <= i < |ss| && ss[i].textId == id;
          if i < |init| { assert init[i].textId == id; }
        }
        forall id | id in initIds ensures id in ids {
          var i :| 0 <= i < |init| && init[i].textId == id;
          assert ss[i].textId == id;
        }
      }
    }
  }

  /** A text id is mapped to the last record that carries it: an earlier
      record with the same id is overwritten. */
  lemma {:induction false} SourceTableLastWins(ss: seq<Source>, i: nat)
    requires i < |ss|
    requires forall j :: i < j < |ss| ==> ss[j].textId != ss[i].textId
    ensures ss[i].textId in SourceTable(ss) && SourceTable(ss)[ss[i].textId] == ss[i]
  {
    if i < |ss| - 1 {
      var init := ss[..|ss| - 1];
      SourceTableLastWins(init, i);
      assert ss[|ss| - 1].textId != ss[i].textId;
    }
  }

  predicate SourcesLoadable(path: Path, lines: seq<string>)
  {
    CheckHeader(path, LineAt(lines, 0), SOURCES_HEADER).Success? && AllSucceed(SourceResults(path, lines[1..]))
  }

  /** The loop of `read_sources`: one record per row, inserted into the
      table; the first row that does not parse is the error. */
  method ReadSourceRows(path: Path, rows: seq<string>) returns (r: Result<Sources, Error>)
    ensures r.Success? <==> AllSucceed(SourceResults(path, rows))
    ensures r.Success? ==> r.value == SourceTable(Values(SourceResults(path, rows)))
    ensures r.Failure? ==> exists i :: (0 <= i < |rows| && FirstFailure(SourceResults(path, rows), i)
      && r.error == SourceResults(path, rows)[i].error)
  {
    ghost var rs := SourceResults(path, rows);
    var sources: Sources := map[];
    var i := 0;
    while i < |rows|
      invariant 0 <= i <= |rows|
      invariant AllSucceed(rs[..i])
      invariant sources == SourceTable(Values(rs[..i]))
    {
      var source := ParseSource(path, rows[i]);
      assert source == rs[i];
      if source.Failure? {
        assert FirstFailure(rs, i);
        return Failure(source.error);
      }
      ValuesSnoc(rs, i);
      sources := sources[source.value.textId := source.value];
      i := i + 1;
    }
    assert rs[..i] == rs;
    r := Success(sources);
  }

  /** `read_sources` on the lines of the source table: the exact header,
      then the rows. */
  method ReadSources(path: Path, lines: seq<string>) returns (r: Result<Sources, Error>)
    ensures CheckHeader(path, LineAt(lines, 0), SOURCES_HEADER).Failure? ==>
      r == Failure(CheckHeader(path, LineAt(lines, 0), SOURCES_HEADER).error)
    ensures r.Success? <==> SourcesLoadable(path, lines)
    ensures r.Success? ==> r.value == SourceTable(Values(SourceResults(path, lines[1..])))
    ensures r.Failure? && CheckHeader(path, LineAt(lines, 0), SOURCES_HEADER).Success? ==>
      exists i :: 0 <= i < |lines| - 1 && FirstFailure(SourceResults(path, lines[1..]), i)
        && r.error == SourceResults(path, lines[1..])[i].error
  {
    var header := CheckHeader(path, LineAt(lines, 0), SOURCES_HEADER);
    if header.Failure? {
      return Failure(header.error);
    }
    r := ReadSourceRows(path, lines[1..]);
  }

  /* ---------------------------------------------------------------------- */
  /* Lexicon (`read_lexicon`)                                                */
  /* ---------------------------------------------------------------------- */

  /** The three header lines of the decoded lexicon file, checked in order:
      column names, a row of dashes, an empty line. */
  function LexiconHeaders(path: Path, lines: seq<string>): (r: Result<(), Error>)
    ensures r.Success? <==> (|lines| >= 3 && TsvSplit(lines[0]) == LEXICON_HEADER
      && TsvSplit(lines[1]) == LEXICON_SEPARATOR && TsvSplit(lines[2]) == LEXICON_EMPTY)
    ensures CheckHeader(path, LineAt(lines, 0), LEXICON_HEADER).Failure? ==>
      r == Failure(CheckHeader(path, LineAt(lines, 0), LEXICON_HEADER).error)
    ensures r.Failure? ==> r.error == TsvError(path, HEADER_MISSING) || r.error == TsvError(path, UNEXPECTED_HEADERS)
  {
    var h0 :- CheckHeader(path, LineAt(lines, 0), LEXICON_HEADER);
    var h1 :- CheckHeader(path, LineAt(lines, 1), LEXICON_SEPARATOR);
    var h2 :- CheckHeader(path, LineAt(lines, 2), LEXICON_EMPTY);
    Success(())
  }

  predicate IncreasingIds(ws: seq<Word>)
  {
    forall i, j :: 0 <= i < j < |ws| ==> ws[i].wordId < ws[j].wordId
  }

  /** `Word::parse_tsv` on every row. */
  function WordResults(path: Path, rows: seq<string>): (rs: seq<Result<Word, Error>>)
    ensures |rs| == |rows| && forall i :: 0 <= i < |rows| ==> rs[i] == ParseWord(path, rows[i])
  {
    seq(|rows|, i requires 0 <= i < |rows| => ParseWord(path, rows[i]))
  }

  /** The rows a lexicon can be built from: each parses, and the word ids
      strictly increase (a repeated id is rejected as well as a smaller one). */
  predicate WordsOk(rs: seq<Result<Word, Error>>)
  {
    AllSucceed(rs) && IncreasingIds(Values(rs))
  }

  predicate LexiconLoadable(path: Path, lines: seq<string>)
  {
    LexiconHeaders(path, lines).Success? && WordsOk(WordResults(path, lines[3..]))
  }

  /** Row `i` is the first row that breaks `WordsOk`. */
  predicate FirstBadWord(rs: seq<Result<Word, Error>>, i: nat)
  {
    i < |rs| && WordsOk(rs[..i]) && !WordsOk(rs[..i + 1])
  }

  /** The error reported for the first bad row: its parse error, or else the
      ids are not increasing. */
  function WordRowError(path: Path, rs: seq<Result<Word, Error>>, i: nat): Error
    requires i < |rs|
  {
    if rs[i].Failure? then rs[i].error else TsvError(path, WORD_IDS_NOT_INCREASING)
  }

  function Gap(n: nat): (g: Lexicon)
    ensures |g| == n && forall k :: 0 <= k < n ==> g[k] == None
  {
    seq(n, k => None)
  }

  lemma GapSnoc(n: nat)
    ensures Gap(n) + [None] == Gap(n + 1)
  {
    assert forall k :: 0 <= k < n + 1 ==> (Gap(n) + [None])[k] == None;
  }

  /** One more gap at the end of a run of gaps. */
  lemma GapExtend(before: Lexicon, lexicon: Lexicon)
    requires |before| <= |lexicon| && lexicon == before + Gap(|lexicon| - |before|)
    ensures lexicon + [None] == before + Gap(|lexicon| + 1 - |before|)
  {
    GapSnoc(|lexicon| - |before|);
  }

  /** The lexicon the loop builds from words with increasing ids: each word
      is placed at the index equal to its id, after as many gaps as ids were
      skipped. */
  function Densify(ws: seq<Word>): (lex: Lexicon)
    requires IncreasingIds(ws)
    ensures |lex| == if ws == [] then 0 else ws[|ws| - 1].wordId + 1
  {
    if ws == [] then [] else
    var prev := Densify(ws[..|ws| - 1]);
    var w := ws[|ws| - 1];
    prev + Gap(w.wordId - |prev|) + [Some(w)]
  }

  /** Index `k` of the lexicon holds the word with id `k`, when present. */
  predicate WellFormedLexicon(lex: Lexicon)
  {
    forall k :: 0 <= k < |lex| && lex[k].Some? ==> lex[k].value.wordId == k
  }

  /** Where the loop puts each word: index `k` is present exactly when some
      row has id `k`, and then holds that row's word. */
  lemma {:induction false} DensifyIndex(ws: seq<Word>)
    requires IncreasingIds(ws)
    ensures forall k :: 0 <= k < |Densify(ws)| ==>
      (Densify(ws)[k].Some? <==> exists i :: 0 <= i < |ws| && ws[i].wordId == k)
    ensures forall i :: 0 <= i < |ws| ==> Densify(ws)[ws[i].wordId] == Some(ws[i])
    ensures WellFormedLexicon(Densify(ws))
  {
    if ws != [] {
      var init := ws[..|ws| - 1];
      var w := ws[|ws| - 1];
      DensifyIndex(init);
      var prev := Densify(init);
      var lex := Densify(ws);
      assert lex == prev + Gap(w.wordId - |prev|) + [Some(w)];
      forall k | 0 <= k < |lex|
        ensures lex[k].Some? <==> exists i :: 0 <= i < |ws| && ws[i].wordId == k
      {
        if k < |prev| {
          assert lex[k] == prev[k];
          if exists i :: 0 <= i < |ws| && ws[i].wordId == k {
            var i :| 0 <= i < |ws| && ws[i].wordId == k;
            assert i < |init| && init[i].wordId == k;
          }
          if prev[k].Some? {
            var i :| 0 <= i < |init| && init[i].wordId == k;
            assert ws[i].wordId == k;
          }
        } else if k < |lex| - 1 {
          assert lex[k] == None;
        } else {
          assert lex[k] == Some(w);
        }
      }
      forall i | 0 <= i < |ws| ensures lex[ws[i].wordId] == Some(ws[i]) {
        if i < |init| {
          assert init[i] == ws[i];
        }
      }
    }
  }

  /** The number of gaps, the `lexicon_padding` the loader reports. */
  function CountGaps(lex: Lexicon): nat
  {
    if lex == [] then 0
    else CountGaps(lex[..|lex| - 1]) + (if lex[|lex| - 1].None? then 1 else 0)
  }

  lemma {:induction false} CountGapsAppend(a: Lexicon, b: Lexicon)
    ensures CountGaps(a + b) == CountGaps(a) + CountGaps(b)
    decreases |b|
  {
    if b != [] {
      CountGapsAppend(a, b[..|b| - 1]);
      assert (a + b)[..|a + b| - 1] == a + b[..|b| - 1];
    } else {
      assert a + b == a;
    }
  }

  lemma {:induction false} CountGapsGap(n: nat)
    ensures CountGaps(Gap(n)) == n
  {
    if n > 0 {
      CountGapsGap(n - 1);
      assert Gap(n)[..n - 1] == Gap(n - 1);
    }
  }

  /** Every index that is not a word is a gap: the gap count is the length
      minus the number of rows. */
  lemma {:induction false} DensifyGaps(ws: seq<Word>)
    requires IncreasingIds(ws)
    ensures CountGaps(Densify(ws)) == |Densify(ws)| - |ws|
  {
    if ws != [] {
      var init := ws[..|ws| - 1];
      var w := ws[|ws| - 1];
      DensifyGaps(init);
      var prev := Densify(init);
      CountGapsAppend(prev + Gap(w.wordId - |prev|), [Some(w)]);
      CountGapsAppend(prev, Gap(w.wordId - |prev|));
      CountGapsGap(w.wordId - |prev|);
      assert CountGaps([Some(w)]) == 0 by {
        assert [Some(w)][..0] == [];
      }
    }
  }

  /** A word with a larger id than the last keeps the ids increasing. */
  lemma IncreasingSnoc(ws: seq<Word>, w: Word)
    requires IncreasingIds(ws)
    requires ws == [] || ws[|ws| - 1].wordId < w.wordId
    ensures IncreasingIds(ws + [w])
  {
    var longer := ws + [w];
    forall a, b | 0 <= a < b < |longer| ensures longer[a].wordId < longer[b].wordId {
      if b < |ws| {
        assert longer[a] == ws[a] && longer[b] == ws[b];
      } else if a < |ws| - 1 {
        assert ws[a].wordId < ws[|ws| - 1].wordId;
      }
    }
  }

  /** Appending a word with a larger id than every earlier one extends the
      lexicon by the skipped ids as gaps and the word itself. */
  lemma DensifySnoc(ws: seq<Word>, w: Word)
    requires IncreasingIds(ws)
    requires ws == [] || ws[|ws| - 1].wordId < w.wordId
    ensures IncreasingIds(ws + [w])
    ensures Densify(ws + [w]) == Densify(ws) + Gap(w.wordId - |Densify(ws)|) + [Some(w)]
  {
    IncreasingSnoc(ws, w);
    var longer := ws + [w];
    assert |Densify(ws)| <= w.wordId;
    assert longer[..|longer| - 1] == ws && longer[|longer| - 1] == w;
  }

  /** Row `i` parses to a word with an id not below the lexicon's length:
      the rows so far still build a lexicon, which grows by the skipped ids
      as gaps and the word itself. */
  lemma AcceptWord(rs: seq<Result<Word, Error>>, i: nat, ws: seq<Word>, lexicon: Lexicon, w: Word)
    requires i < |rs| && WordsOk(rs[..i]) && ws == Values(rs[..i]) && rs[i] == Success(w)
    requires lexicon == Densify(ws) && |lexicon| <= w.wordId
    ensures WordsOk(rs[..i + 1])
    ensures Values(rs[..i + 1]) == ws + [w]
    ensures Densify(ws + [w]) == lexicon + Gap(w.wordId - |lexicon|) + [Some(w)]
  {
    ValuesSnoc(rs, i);
    assert AllSucceed(rs[..i + 1]);
    assert ws == [] || ws[|ws| - 1].wordId < w.wordId;
    DensifySnoc(ws, w);
  }

  /** Acceptable rows stay acceptable when the later ones are dropped. */
  lemma WordsOkPrefix(rs: seq<Result<Word, Error>>, k: nat)
    requires WordsOk(rs) && k <= |rs|
    ensures WordsOk(rs[..k])
  {
    ValuesPrefix(rs, k);
    var ws := Values(rs);
    assert forall a :: 0 <= a < k ==> ws[..k][a] == ws[a];
  }

  /** Row `i` does not parse, or parses to a word whose id is not larger than
      the previous one: it is the first bad row, and the file is rejected. */
  lemma RejectWord(rs: seq<Result<Word, Error>>, i: nat, ws: seq<Word>, lexicon: Lexicon)
    requires i < |rs| && WordsOk(rs[..i]) && ws == Values(rs[..i]) && lexicon == Densify(ws)
    requires rs[i].Failure? || rs[i].value.wordId < |lexicon|
    ensures FirstBadWord(rs, i) && !WordsOk(rs)
  {
    ValuesSnoc(rs, i);
    if rs[i].Success? {
      var longer := Values(rs[..i + 1]);
      assert longer[i - 1] == ws[|ws| - 1];
      assert longer[i - 1].wordId >= longer[i].wordId;
    }
  }

  /** The body of the loading loop for one accepted word: gaps up to the
      word's id, then the word itself. */
  method PlaceWord(lexicon: Lexicon, word: Word) returns (extended: Lexicon, gaps: nat)
    requires |lexicon| <= word.wordId
    ensures extended == lexicon + Gap(word.wordId - |lexicon|) + [Some(word)]
    ensures gaps == word.wordId - |lexicon|
  {
    extended := lexicon;
    gaps := 0;
    assert extended == lexicon + Gap(0);
    while word.wordId > |extended|
      invariant |lexicon| <= |extended| <= word.wordId
      invariant extended == lexicon + Gap(|extended| - |lexicon|)
      invariant gaps == |extended| - |lexicon|
    {
      GapExtend(lexicon, extended);
      gaps := gaps + 1;
      extended := extended + [None];
    }
    extended := extended + [Some(word)];
  }

  /** The loop of `read_lexicon`: one word per row, placed at the index
      equal to its id; a row that does not parse, or whose id is not larger
      than the previous one, is the error. Skipped ids become gaps, which are
      counted in `padding`. */
  method ReadWordRows(path: Path, rows: seq<string>) returns (r: Result<Lexicon, Error>, padding: nat)
    ensures r.Success? <==> WordsOk(WordResults(path, rows))
    ensures r.Success? ==> r.value == Densify(Values(WordResults(path, rows)))
    ensures r.Success? ==> padding == |r.value| - |rows| && padding == CountGaps(r.value)
    ensures r.Failure? ==> exists i :: (0 <= i < |rows| && FirstBadWord(WordResults(path, rows), i)
      && r.error == WordRowError(path, WordResults(path, rows), i))
  {
    padding := 0;
    ghost var rs := WordResults(path, rows);
    var lexicon: Lexicon := [];
    ghost var words: seq<Word> := [];
    var i := 0;
    assert rs[..0] == [];
    while i < |rows|
      invariant 0 <= i <= |rows|
      invariant WordsOk(rs[..i])
      invariant words == Values(rs[..i])
      invariant lexicon == Densify(words)
      invariant padding == |lexicon| - i
    {
      var parsed := ParseWord(path, rows[i]);
      assert parsed == rs[i];
      if parsed.Failure? {
        RejectWord(rs, i, words, lexicon);
        return Failure(parsed.error), padding;
      }
      var word := parsed.value;
      if word.wordId < |lexicon| {
        RejectWord(rs, i, words, lexicon);
        return Failure(TsvError(path, WORD_IDS_NOT_INCREASING)), padding;
      }
      AcceptWord(rs, i, words, lexicon, word);
      var gaps;
      lexicon, gaps := PlaceWord(lexicon, word);
      padding := padding + gaps;
      words := words + [word];
      i := i + 1;
    }
    assert rs[..i] == rs;
    DensifyGaps(words);
    r := Success(lexicon);
  }

  /** `read_lexicon` on the lines of the decoded lexicon file: the three
      header lines, then the rows. */
  method ReadLexicon(path: Path, lines: seq<string>) returns (r: Result<Lexicon, Error>, padding: nat)
    ensures LexiconHeaders(path, lines).Failure? ==> r == Failure(LexiconHeaders(path, lines).error)
    ensures r.Success? <==> LexiconLoadable(path, lines)
    ensures r.Success? ==> r.value == Densify(Values(WordResults(path, lines[3..])))
    ensures r.Success? ==> padding == |r.value| - (|lines| - 3) && padding == CountGaps(r.value)
    ensures r.Failure? && LexiconHeaders(path, lines).Success? ==>
      exists i :: 0 <= i < |lines| - 3 && FirstBadWord(WordResults(path, lines[3..]), i)
        && r.error == WordRowError(path, WordResults(path, lines[3..]), i)
  {
    var headers := LexiconHeaders(path, lines);
    if headers.Failure? {
      return Failure(headers.error), 0;
    }
    r, padding := ReadWordRows(path, lines[3..]);
  }

  /* ---------------------------------------------------------------------- */
  /* Corpus files (`read_corpus`, `CohaFile::new`)                           */
  /* ---------------------------------------------------------------------- */

  const FILE_PREFIX := "coha_db_"
  const FILE_SUFFIX := ".txt"

  /** The decade tag of a corpus file: one or more digits and an 's'. */
  predicate IsDecadeTag(t: string)
  {
    |t| >= 2 && t[|t| - 1] == 's' && AllDigits(t[..|t| - 1])
  }

  /** The `^coha_db_(\d+s)\.txt$` match on a file name: the captured tag. */
  function FileIdentifier(name: string): (r: Option<string>)
    ensures r.Some? ==> IsDecadeTag(r.value) && name == FILE_PREFIX + r.value + FILE_SUFFIX
  {
    if |name| >= 14 && name[..8] == FILE_PREFIX && name[|name| - 4..] == FILE_SUFFIX
      && IsDecadeTag(name[8..|name| - 4])
    then
      assert name == name[..8] + name[8..|name| - 4] + name[|name| - 4..];
      Some(name[8..|name| - 4])
    else None
  }

  /** Every name built from a decade tag matches, and gives the tag back. */
  lemma FileIdentifierRoundTrip(tag: string)
    requires IsDecadeTag(tag)
    ensures FileIdentifier(FILE_PREFIX + tag + FILE_SUFFIX) == Some(tag)
  {
    var name := FILE_PREFIX + tag + FILE_SUFFIX;
    assert name[..8] == FILE_PREFIX;
    assert name[|name| - 4..] == FILE_SUFFIX;
    assert name[8..|name| - 4] == tag;
  }

  /** `CohaFile::new`: the identifier is the tag in the file name (the last
      component of the path); any other name is an error. */
  function NewCohaFile(corpusPath: seq<string>): (r: Result<CohaFile, Error>)
    requires |corpusPath| > 0
    ensures r.Success? ==> r.value.corpusPath == corpusPath && IsDecadeTag(r.value.identifier)
    ensures r.Success? ==> corpusPath[|corpusPath| - 1] == FILE_PREFIX + r.value.identifier + FILE_SUFFIX
    ensures r.Failure? ==> r.error == UnexpectedFileName(corpusPath[|corpusPath| - 1])
    ensures r.Failure? ==> forall tag :: IsDecadeTag(tag) ==> corpusPath[|corpusPath| - 1] != FILE_PREFIX + tag + FILE_SUFFIX
  {
    var name := corpusPath[|corpusPath| - 1];
    match FileIdentifier(name)
    case None =>
      assert forall tag :: IsDecadeTag(tag) ==> name != FILE_PREFIX + tag + FILE_SUFFIX by {
        forall tag | IsDecadeTag(tag) ensures name != FILE_PREFIX + tag + FILE_SUFFIX {
          FileIdentifierRoundTrip(tag);
        }
      }
      Failure(UnexpectedFileName(name))
    case Some(identifier) => Success(CohaFile(corpusPath, identifier))
  }

  /** `Path::extension() == Some("txt")`: the part after the last '.' of the
      name, where a name whose only '.' is its first character has none. */
  predicate HasTxtExtension(name: string)
  {
    |name| >= 5 && name[|name| - 4..] == FILE_SUFFIX
  }

  function FileNameOf(path: seq<string>): string
    requires |path| > 0
  {
    path[|path| - 1]
  }

  /** The candidate paths that `read_corpus` keeps: those whose extension is
      "txt", in their order. */
  function TxtPaths(paths: seq<seq<string>>): (ps: seq<seq<string>>)
    requires forall i :: 0 <= i < |paths| ==> |paths[i]| > 0
    ensures forall i :: 0 <= i < |ps| ==> |ps[i]| > 0
    ensures forall p :: p in ps <==> p in paths && HasTxtExtension(FileNameOf(p))
  {
    if paths == [] then []
    else (if HasTxtExtension(FileNameOf(paths[0])) then [paths[0]] else []) + TxtPaths(paths[1..])
  }

  /** The kept paths stay in their order: the paths kept from a
      concatenation are those kept from each part, one part after the other. */
  lemma {:induction false} TxtPathsAppend(a: seq<seq<string>>, b: seq<seq<string>>)
    requires forall i :: 0 <= i < |a| ==> |a[i]| > 0
    requires forall i :: 0 <= i < |b| ==> |b[i]| > 0
    ensures forall i :: 0 <= i < |a + b| ==> |(a + b)[i]| > 0
    ensures TxtPaths(a + b) == TxtPaths(a) + TxtPaths(b)
    decreases |a|
  {
    if a == [] {
      assert a + b == b;
    } else {
      assert (a + b)[0] == a[0] && (a + b)[1..] == a[1..] + b;
      TxtPathsAppend(a[1..], b);
    }
  }

  /** A single path is kept exactly when its extension is "txt". */
  lemma TxtPathsSingle(p: seq<string>)
    requires |p| > 0
    ensures TxtPaths([p]) == if HasTxtExtension(FileNameOf(p)) then [p] else []
  {
    assert [p][1..] == [];
  }

  predicate NameMatches(path: seq<string>)
    requires |path| > 0
  {
    FileIdentifier(FileNameOf(path)).Some?
  }

  /** `.map(CohaFile::new).collect()`: every path turned into a `CohaFile`,
      or the error of the first path whose name does not match. */
  function NewCohaFiles(ps: seq<seq<string>>): (r: Result<seq<CohaFile>, Error>)
    requires forall i :: 0 <= i < |ps| ==> |ps[i]| > 0
    ensures r.Success? <==> forall i :: 0 <= i < |ps| ==> NameMatches(ps[i])
    ensures r.Success? ==> |r.value| == |ps|
    ensures r.Success? ==> forall i :: 0 <= i < |ps| ==>
      r.value[i] == CohaFile(ps[i], FileIdentifier(FileNameOf(ps[i])).value)
    ensures r.Failure? ==> exists i :: (0 <= i < |ps| && !NameMatches(ps[i])
      && (forall j :: 0 <= j < i ==> NameMatches(ps[j]))
      && r.error == UnexpectedFileName(FileNameOf(ps[i])))
  {
    if ps == [] then Success([]) else
    var f :- NewCohaFile(ps[0]);
    var rest :- NewCohaFiles(ps[1..]);
    assert forall i :: 1 <= i < |ps| ==> ps[i] == ps[1..][i - 1];
    Success([f] + rest)
  }

  /** `read_corpus` after the directory walk: the paths with extension
      "txt", each turned into a `CohaFile`. */
  function ReadCorpus(paths: seq<seq<string>>): (r: Result<seq<CohaFile>, Error>)
    requires forall i :: 0 <= i < |paths| ==> |paths[i]| > 0
    ensures var ps := TxtPaths(paths);
      r.Success? <==> forall i :: 0 <= i < |ps| ==> NameMatches(ps[i])
    ensures var ps := TxtPaths(paths);
      r.Success? ==> |r.value| == |ps| && forall i :: 0 <= i < |ps| ==>
        r.value[i].corpusPath == ps[i] && IsDecadeTag(r.value[i].identifier)
        && FileNameOf(ps[i]) == FILE_PREFIX + r.value[i].identifier + FILE_SUFFIX
    ensures var ps := TxtPaths(paths);
      r.Failure? ==> exists i :: (0 <= i < |ps| && !NameMatches(ps[i])
        && (forall j :: 0 <= j < i ==> NameMatches(ps[j]))
        && r.error == UnexpectedFileName(FileNameOf(ps[i])))
  {
    var ps := TxtPaths(paths);
    var r := NewCohaFiles(ps);
    assert r.Success? ==> forall i :: 0 <= i < |ps| ==> NameMatches(ps[i]);
    r
  }

  /* ---------------------------------------------------------------------- */
  /* Loading everything (`Coha::load`)                                       */
  /* ---------------------------------------------------------------------- */

  /** `Coha::load`: the corpus file list, the source table and the lexicon;
      the first error in that order fails the whole load. */
  method Load(corpusPaths: seq<seq<string>>, sourcesPath: Path, sourcesText: string,
              lexiconPath: Path, lexiconText: string)
    returns (r: Result<Coha, Error>)
    requires forall i :: 0 <= i < |corpusPaths| ==> |corpusPaths[i]| > 0
    ensures ReadCorpus(corpusPaths).Failure? ==> r == Failure(ReadCorpus(corpusPaths).error)
    ensures r.Success? <==> (ReadCorpus(corpusPaths).Success?
      && SourcesLoadable(sourcesPath, Lines(sourcesText))
      && LexiconLoadable(lexiconPath, Lines(lexiconText)))
    ensures r.Success? ==>
      && r.value.cohaFiles == ReadCorpus(corpusPaths).value
      && r.value.sources == SourceTable(Values(SourceResults(sourcesPath, Lines(sourcesText)[1..])))
      && r.value.lexicon == Densify(Values(WordResults(lexiconPath, Lines(lexiconText)[3..])))
      && WellFormedLexicon(r.value.lexicon)
  {
    var c := ReadCorpus(corpusPaths);
    var s := ReadSources(sourcesPath, Lines(sourcesText));
    var l, padding := ReadLexicon(lexiconPath, Lines(lexiconText));
    if c.Failure? { return Failure(c.error); }
    if s.Failure? { return Failure(s.error); }
    if l.Failure? { return Failure(l.error); }
    DensifyIndex(Values(WordResults(lexiconPath, Lines(lexiconText)[3..])));
    r := Success(Coha(s.value, l.value, c.value));
  }
}
