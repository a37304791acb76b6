/** Word filters: a position of a search pattern either accepts any word or
    accepts exactly the word ids of a set, built from the lexicon by a
    predicate on words (`Coha::get_filter`). */
module Filters {
  import opened Wrappers
  import opened Tsv
  import opened Loader

  /** `CohaFilter`. */
  datatype Filter = Any | Hash(ids: set<WordId>)

  /** `CohaSearch`: its label, which names the output directory (`label` is
      a keyword here), and one filter per position of the pattern. */
  datatype Search = Search(searchLabel: string, filterList: seq<Filter>)

  /** The test `search_text_one` applies to one token. */
  predicate Matches(f: Filter, id: WordId)
  {
    match f
    case Any => true
    case Hash(ids) => id in ids
  }

  /** `get_filter(p)`: the ids of the present lexicon entries whose word
      satisfies `p`, collected in lexicon order. */
  function GetFilter(lex: Lexicon, p: Word -> bool): (f: Filter)
    ensures f.Hash?
  {
    if lex == [] then Hash({}) else
    var rest := GetFilter(lex[..|lex| - 1], p).ids;
    var e := lex[|lex| - 1];
    Hash(if e.Some? && p(e.value) then rest + {e.value.wordId} else rest)
  }

  /** The filter holds exactly the ids of the entries that are present and
      satisfy the predicate. */
  lemma {:induction false} GetFilterIds(lex: Lexicon, p: Word -> bool)
    ensures forall id :: id in GetFilter(lex, p).ids <==>
      exists k :: 0 <= k < |lex| && lex[k].Some? && p(lex[k].value) && lex[k].value.wordId == id
  {
    if lex != [] {
      var init := lex[..|lex| - 1];
      GetFilterIds(init, p);
      forall id | id in GetFilter(lex, p).ids
        ensures exists k :: 0 <= k < |lex| && lex[k].Some? && p(lex[k].value) && lex[k].value.wordId == id
      {
        if id in GetFilter(init, p).ids {
          var k :| 0 <= k < |init| && init[k].Some? && p(init[k].value) && init[k].value.wordId == id;
          assert lex[k] == init[k];
        } else {
          assert lex[|lex| - 1].value.wordId == id;
        }
      }
      forall id | exists k :: 0 <= k < |lex| && lex[k].Some? && p(lex[k].value) && lex[k].value.wordId == id
        ensures id in GetFilter(lex, p).ids
      {
        var k :| 0 <= k < |lex| && lex[k].Some? && p(lex[k].value) && lex[k].value.wordId == id;
        if k < |init| {
          assert init[k] == lex[k];
        }
      }
    }
  }

  /** On a lexicon built by the loader (index = id), membership is a lookup:
      the id is in range, present, and its word satisfies the predicate. */
  lemma GetFilterLookup(lex: Lexicon, p: Word -> bool, id: WordId)
    requires WellFormedLexicon(lex)
    ensures id in GetFilter(lex, p).ids <==> id < |lex| && lex[id].Some? && p(lex[id].value)
  {
    GetFilterIds(lex, p);
    if id < |lex| && lex[id].Some? && p(lex[id].value) {
      assert lex[id].value.wordId == id;
    }
  }

  /** Gaps never contribute: padding the lexicon does not change the filter. */
  lemma {:induction false} GetFilterIgnoresGaps(lex: Lexicon, p: Word -> bool, n: nat)
    ensures GetFilter(lex + Gap(n), p) == GetFilter(lex, p)
  {
    if n > 0 {
      GetFilterIgnoresGaps(lex, p, n - 1);
      GapSnoc(n - 1);
      assert (lex + Gap(n))[..|lex| + n - 1] == lex + Gap(n - 1);
    } else {
      assert lex + Gap(n) == lex;
    }
  }

  /** A filter that accepts every word of the lexicon matches every id of
      the lexicon, and never an id outside it. */
  lemma GetFilterAll(lex: Lexicon, id: WordId)
    requires WellFormedLexicon(lex)
    ensures Matches(GetFilter(lex, w => true), id) <==> id < |lex| && lex[id].Some?
  {
    GetFilterLookup(lex, w => true, id);
  }
}
