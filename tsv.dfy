/** The corpus data model and the tab-separated rows it is read from:
    genres, sources, words and tokens, their row parsers, and the exact
    header check. */
module Tsv {
  import opened Wrappers
  import opened Text

  type Path = string
  type TextId = nat
  type WordId = nat
  type TokenId = nat

  /** Every way a load or a search can fail. `TsvError` carries the file and
      the reason, as the source's `tsv_err`; `InvalidInteger` is a numeric
      field that does not parse; `UnexpectedFileName` is a corpus file whose
      name does not match; `WordIndexPanic` stands for the panic of a
      lexicon lookup on a missing word. */
  datatype Error =
    | TsvError(path: Path, reason: string)
    | InvalidInteger(field: string)
    | UnexpectedFileName(name: string)
    | WordIndexPanic

  const FIELD_MISSING := "TSV field missing"
  const HEADER_MISSING := "header missing"
  const UNEXPECTED_HEADERS := "unexpected headers"

  /* ---------------------------------------------------------------------- */
  /* Genre                                                                   */
  /* ---------------------------------------------------------------------- */

  datatype Genre = Fic | Mag | News | Nf

  /** The code of a genre as it appears in the source table and the output. */
  function GenreDisplay(g: Genre): string
  {
    match g
    case Fic => "FIC"
    case Mag => "MAG"
    case News => "NEWS"
    case Nf => "NF"
  }

  /** `Genre::parse`: exactly the four codes are accepted. */
  function GenreParse(s: string): (r: Option<Genre>)
    ensures r.Some? <==> s in ["FIC", "MAG", "NEWS", "NF"]
    ensures r.Some? ==> GenreDisplay(r.value) == s
  {
    match s
    case "FIC" => Some(Fic)
    case "MAG" => Some(Mag)
    case "NEWS" => Some(News)
    case "NF" => Some(Nf)
    case _ => None
  }

  /** Displaying a genre and parsing the code gives the genre back. */
  lemma GenreRoundTrip(g: Genre)
    ensures GenreParse(GenreDisplay(g)) == Some(g)
  {
  }

  /** `Genre::parse_for_files`: an unknown code is an error naming it. */
  function GenreParseForFiles(path: Path, s: string): (r: Result<Genre, Error>)
    ensures r.Success? ==> GenreDisplay(r.value) == s
    ensures r.Failure? ==> r.error == TsvError(path, "invalid genre: " + s)
    ensures r.Failure? <==> s !in ["FIC", "MAG", "NEWS", "NF"]
    ensures r.Failure? ==> r.error != TsvError(path, FIELD_MISSING)
  {
    match GenreParse(s)
    case None =>
      assert ("invalid genre: " + s)[0] != FIELD_MISSING[0];
      Failure(TsvError(path, "invalid genre: " + s))
    case Some(g) => Success(g)
  }

  /* ---------------------------------------------------------------------- */
  /* Records                                                                 */
  /* ---------------------------------------------------------------------- */

  datatype Source = Source(textId: TextId, genre: Genre, year: nat, title: string, author: string)

  datatype Word = Word(wordId: WordId, wordCs: string, word: string, lemmaForm: string, pos: string)

  datatype Token = Token(textId: TextId, tokenId: TokenId, wordId: WordId)

  /* ---------------------------------------------------------------------- */
  /* Row parsing                                                             */
  /* ---------------------------------------------------------------------- */

  /** `tsv_split`: drop the trailing line terminators, then split on tab. */
  function TsvSplit(s: string): (fields: seq<string>)
    ensures |fields| >= 1
    ensures forall k :: 0 <= k < |fields| ==> '\t' !in fields[k]
    ensures Join(fields, "\t") == TrimLineEnd(s)
  {
    JoinSplit(TrimLineEnd(s), '\t');
    Split(TrimLineEnd(s), '\t')
  }

  /** The `next()` closure of the parsers: field `k`, or "TSV field missing". */
  function Field(path: Path, fields: seq<string>, k: nat): Result<string, Error>
  {
    if k < |fields| then Success(fields[k]) else Failure(TsvError(path, FIELD_MISSING))
  }

  /** A numeric field: its value, or an error naming the field. */
  function ParseInt(s: string, max: nat): (r: Result<nat, Error>)
    ensures r.Success? <==> ParseUnsigned(s, max).Some?
    ensures r.Success? ==> ParseUnsigned(s, max) == Some(r.value)
    ensures r.Failure? ==> r.error == InvalidInteger(s)
  {
    match ParseUnsigned(s, max)
    case None => Failure(InvalidInteger(s))
    case Some(n) => Success(n)
  }

  /** Whether the first `n` fields of a source row convert: the text id
      (field 0), the genre (field 2) and the year (field 3). */
  predicate SourceFieldsOk(fields: seq<string>, n: nat)
    requires n <= |fields|
  {
    && (n > 0 ==> ParseUnsigned(fields[0], USIZE_MAX).Some?)
    && (n > 2 ==> GenreParse(fields[2]).Some?)
    && (n > 3 ==> ParseUnsigned(fields[3], U16_MAX).Some?)
  }

  /** `Source::parse_tsv` on the fields of a row: text id, word count
      (skipped), genre, year, title, author; later fields are ignored. The
      fields are taken in order, so the first missing or malformed one
      decides the error. */
  function SourceFromFields(path: Path, fields: seq<string>): (r: Result<Source, Error>)
    ensures r.Success? <==> |fields| >= 6 && SourceFieldsOk(fields, 6)
    ensures r == Failure(TsvError(path, FIELD_MISSING)) <==> |fields| < 6 && SourceFieldsOk(fields, |fields|)
    ensures r.Success? ==>
      && ParseUnsigned(fields[0], USIZE_MAX) == Some(r.value.textId)
      && GenreDisplay(r.value.genre) == fields[2]
      && ParseUnsigned(fields[3], U16_MAX) == Some(r.value.year)
      && r.value.title == fields[4] && r.value.author == fields[5]
  {
    var textIdField :- Field(path, fields, 0);
    var textId :- ParseInt(textIdField, USIZE_MAX);
    var wordCountField :- Field(path, fields, 1);
    var genreField :- Field(path, fields, 2);
    var genre :- GenreParseForFiles(path, genreField);
    var yearField :- Field(path, fields, 3);
    var year :- ParseInt(yearField, U16_MAX);
    var title :- Field(path, fields, 4);
    var author :- Field(path, fields, 5);
    Success(Source(textId, genre, year, title, author))
  }

  function ParseSource(path: Path, line: string): Result<Source, Error>
  {
    SourceFromFields(path, TsvSplit(line))
  }

  /** Whether the first `n` fields of a lexicon row convert (only the word
      id, field 0, can fail). */
  predicate WordFieldsOk(fields: seq<string>, n: nat)
    requires n <= |fields|
  {
    n > 0 ==> ParseUnsigned(fields[0], USIZE_MAX).Some?
  }

  /** `Word::parse_tsv` on the fields of a row: word id, case-sensitive form
      and lower-case form (both cleaned of control characters), lemma and
      part of speech; later fields are ignored. */
  function WordFromFields(path: Path, fields: seq<string>): (r: Result<Word, Error>)
    ensures r.Success? <==> |fields| >= 5 && WordFieldsOk(fields, 5)
    ensures r == Failure(TsvError(path, FIELD_MISSING)) <==> |fields| < 5 && WordFieldsOk(fields, |fields|)
    ensures r.Success? ==>
      && ParseUnsigned(fields[0], USIZE_MAX) == Some(r.value.wordId)
      && r.value.wordCs == WordCleanup(fields[1]) && r.value.word == WordCleanup(fields[2])
      && r.value.lemmaForm == fields[3] && r.value.pos == fields[4]
  {
    var wordIdField :- Field(path, fields, 0);
    var wordId :- ParseInt(wordIdField, USIZE_MAX);
    var wordCs :- Field(path, fields, 1);
    var word :- Field(path, fields, 2);
    var lemmaForm :- Field(path, fields, 3);
    var pos :- Field(path, fields, 4);
    Success(Word(wordId, WordCleanup(wordCs), WordCleanup(word), lemmaForm, pos))
  }

  function ParseWord(path: Path, line: string): Result<Word, Error>
  {
    WordFromFields(path, TsvSplit(line))
  }

  /** `Token::parse_tsv` on the fields of a row: text id, token id, word id,
      all three unsigned integers; later fields are ignored. */
  function TokenFromFields(path: Path, fields: seq<string>): (r: Result<Token, Error>)
    ensures r.Success? <==> |fields| >= 3 && forall k :: 0 <= k < 3 ==> ParseUnsigned(fields[k], USIZE_MAX).Some?
    ensures r == Failure(TsvError(path, FIELD_MISSING))
      <==> |fields| < 3 && forall k :: 0 <= k < |fields| ==> ParseUnsigned(fields[k], USIZE_MAX).Some?
    ensures r.Success? ==>
      && ParseUnsigned(fields[0], USIZE_MAX) == Some(r.value.textId)
      && ParseUnsigned(fields[1], USIZE_MAX) == Some(r.value.tokenId)
      && ParseUnsigned(fields[2], USIZE_MAX) == Some(r.value.wordId)
  {
    var textIdField :- Field(path, fields, 0);
    var textId :- ParseInt(textIdField, USIZE_MAX);
    var tokenIdField :- Field(path, fields, 1);
    var tokenId :- ParseInt(tokenIdField, USIZE_MAX);
    var wordIdField :- Field(path, fields, 2);
    var wordId :- ParseInt(wordIdField, USIZE_MAX);
    Success(Token(textId, tokenId, wordId))
  }

  function ParseToken(path: Path, line: string): Result<Token, Error>
  {
    TokenFromFields(path, TsvSplit(line))
  }

  /** Extra fields after the ones a row needs never change the outcome. */
  lemma ExtraFieldsIgnored(path: Path, fields: seq<string>, extra: seq<string>)
    ensures |fields| >= 6 ==> SourceFromFields(path, fields + extra) == SourceFromFields(path, fields)
    ensures |fields| >= 5 ==> WordFromFields(path, fields + extra) == WordFromFields(path, fields)
    ensures |fields| >= 3 ==> TokenFromFields(path, fields + extra) == TokenFromFields(path, fields)
  {
  }

  /** A token written as its three decimal ids, tab-separated and ended by a
      newline, is read back unchanged. */
  lemma {:induction false} TokenRoundTrip(path: Path, t: Token)
    requires t.textId <= USIZE_MAX && t.tokenId <= USIZE_MAX && t.wordId <= USIZE_MAX
    ensures ParseToken(path, Join([NatToString(t.textId), NatToString(t.tokenId), NatToString(t.wordId)], "\t") + "\n") == Success(t)
  {
    var cells := [NatToString(t.textId), NatToString(t.tokenId), NatToString(t.wordId)];
    var line := Join(cells, "\t");
    forall k | 0 <= k < |cells| ensures '\t' !in cells[k] && NoLineEnd(cells[k]) {
      assert AllDigits(cells[k]);
    }
    JoinNoLineEnd(cells, "\t");
    TrimAppendedNewline(line);
    SplitJoin(cells, '\t');
    ParseNatToString(t.textId, USIZE_MAX);
    ParseNatToString(t.tokenId, USIZE_MAX);
    ParseNatToString(t.wordId, USIZE_MAX);
  }

  /* ---------------------------------------------------------------------- */
  /* Headers                                                                 */
  /* ---------------------------------------------------------------------- */

  /** `tsv_check_header` on the next line of a file (`None` at end of file):
      the fields of that line must be exactly `expected`. */
  function CheckHeader(path: Path, line: Option<string>, expected: seq<string>): (r: Result<(), Error>)
    ensures r.Success? <==> line.Some? && TsvSplit(line.value) == expected
    ensures r.Failure? ==> r.error == TsvError(path, if line.None? then HEADER_MISSING else UNEXPECTED_HEADERS)
  {
    match line
    case None => Failure(TsvError(path, HEADER_MISSING))
    case Some(l) =>
      if TsvSplit(l) == expected then Success(()) else Failure(TsvError(path, UNEXPECTED_HEADERS))
  }

  predicate NoLineEnd(s: string) { forall i :: 0 <= i < |s| ==> !IsLineEnd(s[i]) }

  lemma {:induction false} JoinNoLineEnd(xs: seq<string>, sep: string)
    requires NoLineEnd(sep)
    requires forall k :: 0 <= k < |xs| ==> NoLineEnd(xs[k])
    ensures NoLineEnd(Join(xs, sep))
  {
    if |xs| > 1 {
      JoinNoLineEnd(xs[1..], sep);
    }
  }

  lemma TrimAppendedNewline(s: string)
    requires NoLineEnd(s)
    ensures TrimLineEnd(s + "\n") == s
  {
    var r := TrimLineEnd(s + "\n");
    assert r == (s + "\n")[..|r|];
  }

  /** A header line written as the expected cells, tab-separated and ended by
      a newline, passes the check, provided no cell holds a tab or a line
      terminator. */
  lemma {:induction false} HeaderAccepted(path: Path, expected: seq<string>)
    requires |expected| >= 1
    requires forall k :: 0 <= k < |expected| ==> '\t' !in expected[k] && NoLineEnd(expected[k])
    ensures CheckHeader(path, Some(Join(expected, "\t") + "\n"), expected) == Success(())
  {
    JoinNoLineEnd(expected, "\t");
    TrimAppendedNewline(Join(expected, "\t"));
    SplitJoin(expected, '\t');
  }
}
