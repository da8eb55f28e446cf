/**
 * The word catalogue: app/services/word.go over
 * app/repository/word_sense_repository.go and the queries of
 * app/repository/db/word_senses.sql.go.
 */
module Senses {
  import opened Clock
  import opened Wrappers
  import opened Ordering
  import opened Text

  datatype Meta = Meta(synonyms: seq<string>, antonyms: seq<string>, otherWaysToSay: seq<string>)

  /** What a sense says, apart from where it is stored. */
  datatype Meaning = Meaning(partOfSpeech: Option<string>, definition: string, example: Option<string>, meta: Meta)

  /** A row of word_senses. */
  datatype Sense = Sense(id: Uuid, word: Uuid, meaning: Meaning, order: int, created: Time)

  datatype Word = Word(id: Uuid, term: string, language: string, createdBy: Option<Uuid>)

  datatype WordWithSenses = WordWithSenses(word: Word, senses: seq<Sense>)

  // ---- Reading senses -----------------------------------------------------------------

  /** ORDER BY sense_order ASC, created_at ASC */
  predicate SenseLess(a: Sense, b: Sense) {
    a.order < b.order || (a.order == b.order && a.created < b.created)
  }

  /** ORDER BY word_id, sense_order ASC, created_at ASC */
  predicate BatchLess(a: Sense, b: Sense) {
    a.word < b.word || (a.word == b.word && SenseLess(a, b))
  }

  function OfWord(w: Uuid): Sense -> bool {
    (s: Sense) => s.word == w
  }

  function OfWords(ids: seq<Uuid>): Sense -> bool {
    (s: Sense) => s.word in ids
  }

  /** An answer to ListWordSensesByWord: rows that tie may come in any order. */
  ghost predicate AnswersOne(table: seq<Sense>, w: Uuid, rows: seq<Sense>) {
    multiset(rows) == multiset(Filter(OfWord(w), table)) && Ordered(SenseLess, rows)
  }

  /** An answer to ListWordSensesByWordIDs. */
  ghost predicate AnswersBatch(table: seq<Sense>, ids: seq<Uuid>, rows: seq<Sense>) {
    multiset(rows) == multiset(Filter(OfWords(ids), table)) && Ordered(BatchLess, rows)
  }

  /** No two senses of the word tie. */
  ghost predicate Untied(table: seq<Sense>, w: Uuid) {
    Connected(SenseLess, Filter(OfWord(w), table))
  }

  lemma {:induction false} WordWithinBatch(table: seq<Sense>, ids: seq<Uuid>, w: Uuid)
    requires w in ids
    ensures Filter(OfWord(w), Filter(OfWords(ids), table)) == Filter(OfWord(w), table)
  {
    if table != [] {
      WordWithinBatch(table[1..], ids, w);
      var head := if OfWords(ids)(table[0]) then [table[0]] else [];
      FilterConcat(OfWord(w), head, Filter(OfWords(ids), table[1..]));
    }
  }

  /** Each word's share of a batch answer is an answer to the query for that word alone. */
  lemma ShareIsAnAnswer(table: seq<Sense>, ids: seq<Uuid>, w: Uuid, rows: seq<Sense>)
    requires AnswersBatch(table, ids, rows) && w in ids
    ensures AnswersOne(table, w, Filter(OfWord(w), rows))
  {
    WordWithinBatch(table, ids, w);
    FilterPermutes(OfWord(w), rows, Filter(OfWords(ids), table));
    FilterStaysOrdered(BatchLess, OfWord(w), rows);
    FilterKeeps(OfWord(w), rows);
    var share := Filter(OfWord(w), rows);
    forall i, j | 0 <= i < j < |share| ensures !SenseLess(share[j], share[i]) {
      assert share[i] in share && share[j] in share;
    }
  }

  /** When no two senses tie there is only one answer, so both ways of loading give the same list. */
  lemma AnswerIsUnique(table: seq<Sense>, w: Uuid, a: seq<Sense>, b: seq<Sense>)
    requires AnswersOne(table, w, a) && AnswersOne(table, w, b) && Untied(table, w)
    ensures a == b
  {
    var selected := Filter(OfWord(w), table);
    forall x, y | x in a && y in a && x != y ensures SenseLess(x, y) || SenseLess(y, x) {
      SameElements(a, selected, x);
      SameElements(a, selected, y);
    }
    OrderIsUnique(SenseLess, a, b);
  }

  lemma BatchAgreesWithSingle(table: seq<Sense>, ids: seq<Uuid>, w: Uuid, rows: seq<Sense>, one: seq<Sense>)
    requires AnswersBatch(table, ids, rows) && AnswersOne(table, w, one) && w in ids && Untied(table, w)
    ensures Filter(OfWord(w), rows) == one
  {
    ShareIsAnAnswer(table, ids, w, rows);
    AnswerIsUnique(table, w, Filter(OfWord(w), rows), one);
  }

  // ---- Storing senses -------------------------------------------------------------------

  /** What the enricher returns for one meaning. */
  datatype Enriched = Enriched(partOfSpeech: string, definition: string, example: string, meta: Meta)

  const PARTS_OF_SPEECH: set<string> :=
    {"noun", "verb", "adjective", "adverb", "pronoun", "preposition", "conjunction", "interjection", "phrase"}

  const MAX_TEXT: int := 2000
  const MAX_SENSES: int := 0x8000

  function Clean(e: Enriched): Meaning {
    Meaning(
      if e.partOfSpeech in PARTS_OF_SPEECH then Some(e.partOfSpeech) else None,
      TrimSpace(e.definition),
      if TrimSpace(e.example) != "" then Some(TrimSpace(e.example)) else None,
      e.meta)
  }

  predicate HasDefinition(e: Enriched) {
    TrimSpace(e.definition) != ""
  }

  predicate IsPartOfSpeech(p: string) {
    p == "noun" || p == "verb" || p == "adjective" || p == "adverb" || p == "pronoun" || p == "preposition"
    || p == "conjunction" || p == "interjection" || p == "phrase"
  }

  lemma PartsOfSpeech(p: string)
    ensures p in PARTS_OF_SPEECH <==> IsPartOfSpeech(p)
  {
  }

  /** What a stored meaning says of the entry it comes from, field by field. */
  ghost predicate Says(m: Meaning, e: Enriched) {
    && m.partOfSpeech == (if IsPartOfSpeech(e.partOfSpeech) then Some(e.partOfSpeech) else None)
    && IsTrimOf(m.definition, e.definition)
    && (m.example == None <==> AllSpace(e.example))
    && (m.example.Some? ==> IsTrimOf(m.example.value, e.example))
    && m.meta.synonyms == e.meta.synonyms
    && m.meta.antonyms == e.meta.antonyms
    && m.meta.otherWaysToSay == e.meta.otherWaysToSay
  }

  /** The entries that are worth storing: those whose definition is not all white space. */
  function Defined(es: seq<Enriched>): seq<Enriched> {
    Filter((e: Enriched) => !AllSpace(e.definition), es)
  }

  /** The senses read are the entries with a definition, one by one and in order. */
  ghost predicate ReadsBack(rows: seq<Sense>, es: seq<Enriched>) {
    |rows| == |Defined(es)| && forall k :: 0 <= k < |rows| ==> Says(rows[k].meaning, Defined(es)[k])
  }

  lemma CleanSays(e: Enriched)
    ensures Says(Clean(e), e) && (HasDefinition(e) <==> !AllSpace(e.definition))
  {
    PartsOfSpeech(e.partOfSpeech);
    TrimIsUnique(TrimSpace(e.definition), e.definition);
    TrimIsUnique(TrimSpace(e.example), e.example);
  }

  lemma {:induction false} DefinedAreKept(es: seq<Enriched>)
    ensures Defined(es) == Filter(HasDefinition, es)
  {
    if es != [] {
      CleanSays(es[0]);
      DefinedAreKept(es[1..]);
    }
  }

  lemma MeaningsReadBack(rows: seq<Sense>, es: seq<Enriched>)
    requires MeaningsOf(rows) == Meanings(es)
    ensures ReadsBack(rows, es)
  {
    DefinedAreKept(es);
    var kept := Filter(HasDefinition, es);
    assert |rows| == |MeaningsOf(rows)| == |kept|;
    forall k | 0 <= k < |rows| ensures Says(rows[k].meaning, kept[k]) {
      assert rows[k].meaning == MeaningsOf(rows)[k] == Meanings(es)[k] == Clean(kept[k]);
      CleanSays(kept[k]);
    }
  }

  /** The CHECK constraints of word_senses. */
  predicate Fits(m: Meaning) {
    && (m.partOfSpeech.Some? ==> m.partOfSpeech.value in PARTS_OF_SPEECH)
    && 1 <= |m.definition| <= MAX_TEXT
    && (m.example.Some? ==> |m.example.value| <= MAX_TEXT)
  }

  /** int16(i) */
  function Wrap16(i: int): int {
    (i + 0x8000) % 0x1_0000 - 0x8000
  }

  /** The 16-bit number that is congruent to i. */
  lemma Wrap16IsInt16(i: int)
    ensures -0x8000 <= Wrap16(i) < 0x8000 && (Wrap16(i) - i) % 0x1_0000 == 0
  {
  }

  /** The rows inserted for the enricher's list; NOW() is the same throughout a transaction. */
  function Rows(word: Uuid, now: Time, ids: seq<Uuid>, es: seq<Enriched>): seq<Sense>
    requires |es| <= |ids|
  {
    if es == [] then []
    else
      var n := |es| - 1;
      Rows(word, now, ids, es[..n])
      + (if HasDefinition(es[n]) then [Sense(ids[n], word, Clean(es[n]), Wrap16(n), now)] else [])
  }

  /** The list a reader should see: entries with a definition, cleaned, in the enricher's order. */
  function Meanings(es: seq<Enriched>): seq<Meaning> {
    var kept := Filter(HasDefinition, es);
    seq(|kept|, i requires 0 <= i < |kept| => Clean(kept[i]))
  }

  function MeaningsOf(rows: seq<Sense>): seq<Meaning> {
    seq(|rows|, i requires 0 <= i < |rows| => rows[i].meaning)
  }

  lemma {:induction false} RowsCarryTheMeanings(word: Uuid, now: Time, ids: seq<Uuid>, es: seq<Enriched>)
    requires |es| <= |ids|
    ensures MeaningsOf(Rows(word, now, ids, es)) == Meanings(es)
  {
    if es != [] {
      var n := |es| - 1;
      RowsCarryTheMeanings(word, now, ids, es[..n]);
      assert es == es[..n] + [es[n]];
      FilterConcat(HasDefinition, es[..n], [es[n]]);
      assert Filter(HasDefinition, [es[n]]) == if HasDefinition(es[n]) then [es[n]] else [];
      var rows := Rows(word, now, ids, es[..n]);
      if HasDefinition(es[n]) {
        assert Rows(word, now, ids, es) == rows + [Sense(ids[n], word, Clean(es[n]), Wrap16(n), now)];
        assert MeaningsOf(Rows(word, now, ids, es)) == MeaningsOf(rows) + [Clean(es[n])];
        assert Meanings(es) == Meanings(es[..n]) + [Clean(es[n])];
      } else {
        assert Filter(HasDefinition, es) == Filter(HasDefinition, es[..n]) + [];
        assert Rows(word, now, ids, es) == rows;
      }
    }
  }

  // ---- When the order survives the 16-bit column -----------------------------------------

  /** The entries that are stored get increasing positions in spite of the 16 bits. */
  ghost predicate OrderFits(es: seq<Enriched>) {
    forall i, j :: 0 <= i < j < |es| && HasDefinition(es[i]) && HasDefinition(es[j]) ==> Wrap16(i) < Wrap16(j)
  }

  /** No list up to 2^15 entries is too long for that. */
  lemma ShortListsFit(es: seq<Enriched>)
    requires |es| <= MAX_SENSES
    ensures OrderFits(es)
  {
  }

  ghost predicate Increasing(rows: seq<Sense>) {
    forall i, j :: 0 <= i < j < |rows| ==> rows[i].order < rows[j].order
  }

  /** The rows belong to one word and one transaction. */
  ghost predicate AllOf(rows: seq<Sense>, word: Uuid, now: Time) {
    forall i :: 0 <= i < |rows| ==> rows[i].word == word && rows[i].created == now
  }

  lemma {:induction false} RowsAreOfOne(word: Uuid, now: Time, ids: seq<Uuid>, es: seq<Enriched>)
    requires |es| <= |ids|
    ensures AllOf(Rows(word, now, ids, es), word, now)
  {
    if es != [] {
      RowsAreOfOne(word, now, ids, es[..|es| - 1]);
    }
  }

  ghost predicate AllBefore(rows: seq<Sense>, x: int) {
    forall k :: 0 <= k < |rows| ==> rows[k].order < x
  }

  ghost predicate KeptBefore(es: seq<Enriched>, x: int) {
    forall i :: 0 <= i < |es| && HasDefinition(es[i]) ==> Wrap16(i) < x
  }

  lemma {:induction false} PositionsAgree(word: Uuid, now: Time, ids: seq<Uuid>, es: seq<Enriched>, x: int)
    requires |es| <= |ids|
    ensures AllBefore(Rows(word, now, ids, es), x) <==> KeptBefore(es, x)
  {
    if es != [] {
      var n := |es| - 1;
      PositionsAgree(word, now, ids, es[..n], x);
      KeptBeforeSplits(es, x);
      if HasDefinition(es[n]) {
        var row := Sense(ids[n], word, Clean(es[n]), Wrap16(n), now);
        AllBeforeSplits(Rows(word, now, ids, es[..n]), row, x);
      } else {
        assert Rows(word, now, ids, es) == Rows(word, now, ids, es[..n]);
      }
    }
  }

  lemma KeptBeforeSplits(es: seq<Enriched>, x: int)
    requires es != []
    ensures var n := |es| - 1; KeptBefore(es, x) <==> KeptBefore(es[..n], x) && (HasDefinition(es[n]) ==> Wrap16(n) < x)
  {
    var n := |es| - 1;
    assert forall i :: 0 <= i < n ==> es[..n][i] == es[i];
  }

  lemma AllBeforeSplits(rows: seq<Sense>, row: Sense, x: int)
    ensures AllBefore(rows + [row], x) <==> AllBefore(rows, x) && row.order < x
  {
    assert forall k :: 0 <= k < |rows| ==> (rows + [row])[k] == rows[k];
    assert (rows + [row])[|rows|] == row;
  }

  lemma IncreasingSplits(rows: seq<Sense>, row: Sense)
    ensures Increasing(rows + [row]) <==> Increasing(rows) && AllBefore(rows, row.order)
  {
    assert forall k :: 0 <= k < |rows| ==> (rows + [row])[k] == rows[k];
    assert (rows + [row])[|rows|] == row;
  }

  lemma OrderFitsSplits(es: seq<Enriched>)
    requires es != []
    ensures var n := |es| - 1;
      OrderFits(es) <==> OrderFits(es[..n]) && (HasDefinition(es[n]) ==> KeptBefore(es[..n], Wrap16(n)))
  {
    var n := |es| - 1;
    assert forall i :: 0 <= i < n ==> es[..n][i] == es[i];
  }

  lemma {:induction false} RowsIncreaseIff(word: Uuid, now: Time, ids: seq<Uuid>, es: seq<Enriched>)
    requires |es| <= |ids|
    ensures Increasing(Rows(word, now, ids, es)) <==> OrderFits(es)
  {
    if es != [] {
      var n := |es| - 1;
      RowsIncreaseIff(word, now, ids, es[..n]);
      OrderFitsSplits(es);
      if HasDefinition(es[n]) {
        var row := Sense(ids[n], word, Clean(es[n]), Wrap16(n), now);
        IncreasingSplits(Rows(word, now, ids, es[..n]), row);
        PositionsAgree(word, now, ids, es[..n], Wrap16(n));
      } else {
        assert Rows(word, now, ids, es) == Rows(word, now, ids, es[..n]);
      }
    }
  }

  lemma IncreasingIsUntied(rows: seq<Sense>)
    requires Increasing(rows)
    ensures Ordered(SenseLess, rows) && Connected(SenseLess, rows)
  {
    forall x, y | x in rows && y in rows && x != y ensures SenseLess(x, y) || SenseLess(y, x) {
      var i :| 0 <= i < |rows| && rows[i] == x;
      var j :| 0 <= j < |rows| && rows[j] == y;
      assert i < j || j < i;
    }
  }

  ghost predicate Distinct(ids: seq<Uuid>) {
    forall i, j :: 0 <= i < j < |ids| ==> ids[i] != ids[j]
  }

  ghost predicate DistinctRows(rows: seq<Sense>) {
    forall i, j :: 0 <= i < j < |rows| ==> rows[i].id != rows[j].id
  }

  lemma {:induction false} RowsHaveTheirIds(word: Uuid, now: Time, ids: seq<Uuid>, es: seq<Enriched>)
    requires |es| <= |ids| && Distinct(ids)
    ensures DistinctRows(Rows(word, now, ids, es))
    ensures forall k :: 0 <= k < |Rows(word, now, ids, es)| ==> Rows(word, now, ids, es)[k].id in ids[..|es|]
  {
    if es != [] {
      var n := |es| - 1;
      RowsHaveTheirIds(word, now, ids, es[..n]);
      assert ids[n] !in ids[..n] && ids[..|es|] == ids[..n] + [ids[n]];
    }
  }

  lemma SwapTied(rows: seq<Sense>, i: int, j: int) returns (other: seq<Sense>)
    requires Ordered(SenseLess, rows) && 0 <= i < j < |rows| && rows[i].id != rows[j].id
    requires rows[i].order == rows[j].order && rows[i].created == rows[j].created
    ensures other != rows && multiset(other) == multiset(rows) && Ordered(SenseLess, other)
  {
    other := rows[i := rows[j]][j := rows[i]];
    assert other[i] == rows[j];
    forall k ensures 0 <= k < |rows| ==> other[k].order == rows[k].order && other[k].created == rows[k].created {
    }
  }

  /** Rows that do not increase could also be returned in another order. */
  lemma AnotherOrder(rows: seq<Sense>, word: Uuid, now: Time) returns (other: seq<Sense>)
    requires AllOf(rows, word, now) && DistinctRows(rows) && !Increasing(rows)
    ensures other != rows && multiset(other) == multiset(rows) && Ordered(SenseLess, other)
  {
    SortSorts(SenseLess, rows);
    other := Sort(SenseLess, rows);
    if other == rows {
      var i, j :| 0 <= i < j < |rows| && rows[i].order >= rows[j].order;
      assert !SenseLess(rows[j], rows[i]);
      other := SwapTied(rows, i, j);
    }
  }

  lemma NewWordsRows(before: seq<Sense>, stored: seq<Sense>, word: Uuid)
    requires forall r <- before :: r.word != word
    requires forall i :: 0 <= i < |stored| ==> stored[i].word == word
    ensures Filter(OfWord(word), before + stored) == stored
  {
    FilterConcat(OfWord(word), before, stored);
    FilterAll(word, stored);
    FilterNone(word, before);
    assert [] + stored == stored;
  }

  lemma NewWordsAnswers(before: seq<Sense>, word: Uuid, now: Time, ids: seq<Uuid>, es: seq<Enriched>)
    requires |es| <= |ids| && forall r <- before :: r.word != word
    ensures Filter(OfWord(word), before + Rows(word, now, ids, es)) == Rows(word, now, ids, es)
  {
    RowsAreOfOne(word, now, ids, es);
    NewWordsRows(before, Rows(word, now, ids, es), word);
  }

  /**
   * The database must return a new word's senses as they were inserted iff
   * their 16-bit positions increase.
   */
  lemma OrderSurvivesIff(before: seq<Sense>, word: Uuid, now: Time, ids: seq<Uuid>, es: seq<Enriched>)
    requires |es| <= |ids| && Distinct(ids) && forall r <- before :: r.word != word
    ensures var stored := Rows(word, now, ids, es);
      (forall rows :: AnswersOne(before + stored, word, rows) ==> rows == stored) <==> OrderFits(es)
  {
    var stored := Rows(word, now, ids, es);
    NewWordsAnswers(before, word, now, ids, es);
    RowsIncreaseIff(word, now, ids, es);
    if OrderFits(es) {
      IncreasingIsUntied(stored);
      forall rows | AnswersOne(before + stored, word, rows) ensures rows == stored {
        AnswerIsUnique(before + stored, word, rows, stored);
      }
    } else {
      RowsAreOfOne(word, now, ids, es);
      RowsHaveTheirIds(word, now, ids, es);
      var other := AnotherOrder(stored, word, now);
      assert AnswersOne(before + stored, word, other);
    }
  }

  lemma {:induction false} FilterAll(w: Uuid, rows: seq<Sense>)
    requires forall r <- rows :: r.word == w
    ensures Filter(OfWord(w), rows) == rows
  {
    if rows != [] {
      assert rows[0] in rows && rows == [rows[0]] + rows[1..];
      FilterAll(w, rows[1..]);
    }
  }

  lemma {:induction false} FilterNone(w: Uuid, rows: seq<Sense>)
    requires forall r <- rows :: r.word != w
    ensures Filter(OfWord(w), rows) == []
  {
    if rows != [] {
      assert rows[0] in rows;
      FilterNone(w, rows[1..]);
    }
  }

  /** Round trip: what was stored for a new word reads back as the enricher's list, cleaned and in order. */
  lemma StoredSensesReadBack(
      before: seq<Sense>, word: Uuid, now: Time, ids: seq<Uuid>, es: seq<Enriched>, rows: seq<Sense>)
    requires |es| <= |ids| && OrderFits(es)
    requires forall r <- before :: r.word != word
    requires AnswersOne(before + Rows(word, now, ids, es), word, rows)
    ensures ReadsBack(rows, es)
  {
    var stored := Rows(word, now, ids, es);
    NewWordsAnswers(before, word, now, ids, es);
    RowsIncreaseIff(word, now, ids, es);
    IncreasingIsUntied(stored);
    AnswerIsUnique(before + stored, word, rows, stored);
    RowsCarryTheMeanings(word, now, ids, es);
    MeaningsReadBack(rows, es);
  }
}
