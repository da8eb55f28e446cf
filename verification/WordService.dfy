/** The catalogue's tables and the use cases of app/services/word.go over them. */
module WordService {
  import opened Clock
  import opened Wrappers
  import opened Ordering
  import opened Text
  import opened Senses

  /** The database's answer to the query for one word; ties fall as its sorting happens to leave them. */
  function AnswerOne(table: seq<Sense>, w: Uuid): seq<Sense> {
    Sort(SenseLess, Filter(OfWord(w), table))
  }

  function AnswerBatch(table: seq<Sense>, ids: seq<Uuid>): seq<Sense> {
    Sort(BatchLess, Filter(OfWords(ids), table))
  }

  // ---- Creating a word -------------------------------------------------------------------------

  datatype Error = Conflict | Unavailable | Internal | NotFound

  /** Text functions of the database and the language, and the deployment's choice. */
  datatype Env = Env(lower: string -> string, citext: string -> string, languageOk: string -> bool, enabled: bool)

  /** What fails: the lookup, BEGIN, an INSERT (0 is the word, i + 1 the i-th sense), COMMIT, or the final read. */
  datatype Faults = Faults(lookup: bool, begin: bool, insert: int, commit: bool, read: bool)

  predicate Taken(env: Env, words: map<Uuid, Word>, language: string, term: string) {
    exists w :: w in words && words[w].language == language && env.citext(words[w].term) == env.citext(term)
  }

  /** The primary key and the unique index of words. */
  ghost predicate WordsAreKeyed(env: Env, words: map<Uuid, Word>) {
    && (forall w :: w in words ==> words[w].id == w)
    && (forall v, w :: v in words && w in words && v != w ==>
          words[v].language != words[w].language || env.citext(words[v].term) != env.citext(words[w].term))
  }

  lemma NewWordIsKeyed(env: Env, words: map<Uuid, Word>, w: Word)
    requires WordsAreKeyed(env, words) && !Taken(env, words, w.language, w.term)
    ensures WordsAreKeyed(env, words[w.id := w])
  {
  }

  lemma NextRow(word: Uuid, now: Time, ids: seq<Uuid>, es: seq<Enriched>, i: nat)
    requires i < |es| <= |ids|
    ensures Rows(word, now, ids, es[..i + 1]) == Rows(word, now, ids, es[..i])
      + (if HasDefinition(es[i]) then [Sense(ids[i], word, Clean(es[i]), Wrap16(i), now)] else [])
  {
    assert es[..i + 1][..i] == es[..i];
  }

  lemma {:induction false} RowsAreOfWord(word: Uuid, now: Time, ids: seq<Uuid>, es: seq<Enriched>)
    requires |es| <= |ids|
    ensures forall r <- Rows(word, now, ids, es) :: r.word == word
  {
    if es != [] {
      RowsAreOfWord(word, now, ids, es[..|es| - 1]);
    }
  }

  /** The i-th sense's INSERT is sent and fails. */
  predicate Fails(faults: Faults, es: seq<Enriched>, i: int)
    requires 0 <= i < |es|
  {
    HasDefinition(es[i]) && (faults.insert == i + 1 || !Fits(Clean(es[i])))
  }

  /** Why the transaction is rolled back, if it is. */
  function Refusal(
      env: Env, words: map<Uuid, Word>, language: string, term: string, es: seq<Enriched>,
      faults: Faults): Option<Error> {
    if faults.begin || faults.insert == 0 || !env.languageOk(language) then Some(Internal)
    else if Taken(env, words, language, term) then Some(Conflict)
    else if faults.commit || exists i :: 0 <= i < |es| && Fails(faults, es, i) then Some(Internal)
    else None
  }

  function Language(env: Env, raw: string): string {
    var language := env.lower(TrimSpace(raw));
    if language == "" then "en" else language
  }

  /** The lower-case form of the trimmed text, or English for none. */
  ghost predicate IsLanguageOf(env: Env, language: string, raw: string) {
    exists t :: IsTrimOf(t, raw) && language == if env.lower(t) == "" then "en" else env.lower(t)
  }

  lemma LanguageIsNormalised(env: Env, raw: string)
    ensures IsLanguageOf(env, Language(env, raw), raw)
    ensures forall language :: IsLanguageOf(env, language, raw) ==> language == Language(env, raw)
  {
    TrimIsOf(raw);
    forall language | IsLanguageOf(env, language, raw) ensures language == Language(env, raw) {
      var t :| IsTrimOf(t, raw) && language == if env.lower(t) == "" then "en" else env.lower(t);
      TrimIsUnique(t, raw);
    }
  }

  /** The entry is left out, or its definition and example fit their columns and its INSERT works. */
  ghost predicate EntryStores(faults: Faults, e: Enriched, i: int) {
    AllSpace(e.definition)
    || (&& faults.insert != i + 1
        && (exists d :: IsTrimOf(d, e.definition) && |d| <= 2000)
        && (exists x :: IsTrimOf(x, e.example) && |x| <= 2000))
  }

  lemma EntryStoresIff(faults: Faults, es: seq<Enriched>, i: int)
    requires 0 <= i < |es|
    ensures EntryStores(faults, es[i], i) <==> !Fails(faults, es, i)
  {
    var e := es[i];
    CleanSays(e);
    TrimIsUnique(TrimSpace(e.example), e.example);
    if !AllSpace(e.definition) {
      TrimIsUnique(TrimSpace(e.definition), e.definition);
      forall d | IsTrimOf(d, e.definition) ensures d == TrimSpace(e.definition) { TrimIsUnique(d, e.definition); }
      forall x | IsTrimOf(x, e.example) ensures x == TrimSpace(e.example) { TrimIsUnique(x, e.example); }
    }
  }

  function SensesOf(byWord: map<Uuid, seq<Sense>>, w: Uuid): seq<Sense> {
    if w in byWord then byWord[w] else []
  }

  /** The rows seen so far, by word; only words with rows have an entry. */
  ghost predicate Grouped(byWord: map<Uuid, seq<Sense>>, rows: seq<Sense>) {
    && (forall w :: SensesOf(byWord, w) == Filter(OfWord(w), rows))
    && (forall w <- byWord :: byWord[w] != [])
  }

  lemma GroupsGrow(byWord: map<Uuid, seq<Sense>>, rows: seq<Sense>, row: Sense)
    requires Grouped(byWord, rows)
    ensures Grouped(byWord[row.word := SensesOf(byWord, row.word) + [row]], rows + [row])
  {
    var grown := byWord[row.word := SensesOf(byWord, row.word) + [row]];
    forall w ensures SensesOf(grown, w) == Filter(OfWord(w), rows + [row]) {
      FilterConcat(OfWord(w), rows, [row]);
      assert Filter(OfWord(w), [row]) == if row.word == w then [row] else [];
      assert SensesOf(byWord, w) == Filter(OfWord(w), rows);
    }
  }

  lemma BatchStaysWithin(table: seq<Sense>, ids: seq<Uuid>, rows: seq<Sense>)
    requires AnswersBatch(table, ids, rows)
    ensures forall i :: 0 <= i < |rows| ==> rows[i].word in ids
  {
    FilterKeeps(OfWords(ids), table);
    forall i | 0 <= i < |rows| ensures rows[i].word in ids {
      SameElements(rows, Filter(OfWords(ids), table), rows[i]);
    }
  }

  lemma GroupsAreAnswers(table: seq<Sense>, ids: seq<Uuid>, rows: seq<Sense>, byWord: map<Uuid, seq<Sense>>)
    requires AnswersBatch(table, ids, rows) && Grouped(byWord, rows)
    ensures forall w <- ids :: AnswersOne(table, w, SensesOf(byWord, w))
    ensures forall w <- byWord :: w in ids
  {
    BatchStaysWithin(table, ids, rows);
    forall w | w in byWord ensures w in ids {
      FilterKeeps(OfWord(w), rows);
      assert SensesOf(byWord, w)[0] in Filter(OfWord(w), rows);
    }
    forall w | w in ids ensures AnswersOne(table, w, SensesOf(byWord, w)) {
      ShareIsAnAnswer(table, ids, w, rows);
    }
  }

  class Catalogue {
    const env: Env
    var words: map<Uuid, Word>
    var senses: seq<Sense>

    ghost predicate Valid()
      reads this
    {
      WordsAreKeyed(env, words) && forall r <- senses :: r.word in words
    }

    constructor (env: Env)
      ensures Valid() && this.env == env && words == map[] && senses == []
    {
      this.env := env;
      words := map[];
      senses := [];
    }

    /** ListWordSensesByWord */
    method QueryOne(w: Uuid) returns (rows: seq<Sense>)
      ensures AnswersOne(senses, w, rows)
    {
      SortSorts(SenseLess, Filter(OfWord(w), senses));
      rows := AnswerOne(senses, w);
    }

    /** ListWordSensesByWordIDs */
    method QueryBatch(ids: seq<Uuid>) returns (rows: seq<Sense>)
      ensures AnswersBatch(senses, ids, rows)
    {
      SortSorts(BatchLess, Filter(OfWords(ids), senses));
      rows := AnswerBatch(senses, ids);
    }

    method ListByWord(w: Uuid) returns (r: seq<Sense>)
      ensures AnswersOne(senses, w, r)
    {
      var rows := QueryOne(w);
      r := [];
      for i := 0 to |rows|
        invariant r == rows[..i]
      {
        r := r + [rows[i]];
      }
      assert rows[..|rows|] == rows;
    }

    /** One query for all the words, grouped by word: each group is what the query for that word alone may return. */
    method ListByWords(ids: seq<Uuid>) returns (byWord: map<Uuid, seq<Sense>>)
      ensures forall w <- ids :: AnswersOne(senses, w, SensesOf(byWord, w))
      ensures forall w <- byWord :: w in ids && byWord[w] != []
    {
      byWord := map[];
      if ids == [] {
        return;
      }
      var rows := QueryBatch(ids);
      for i := 0 to |rows|
        invariant Grouped(byWord, rows[..i])
      {
        assert rows[..i + 1] == rows[..i] + [rows[i]];
        GroupsGrow(byWord, rows[..i], rows[i]);
        byWord := byWord[rows[i].word := SensesOf(byWord, rows[i].word) + [rows[i]]];
      }
      assert rows[..|rows|] == rows;
      GroupsAreAnswers(senses, ids, rows, byWord);
    }

    method Get(id: Uuid, owner: Uuid) returns (r: Result<WordWithSenses, Error>)
      ensures r.Ok? <==> id in words && words[id].createdBy == Some(owner)
      ensures r.Ok? ==> r.value.word == words[id] && AnswersOne(senses, id, r.value.senses)
      ensures r.Err? ==> r.error == NotFound
    {
      if id !in words {
        return Err(NotFound);
      }
      if words[id].createdBy != Some(owner) {
        return Err(NotFound);
      }
      var loaded := ListByWord(id);
      return Ok(WordWithSenses(words[id], loaded));
    }

    /** Attaches to a page of words, in place, the senses that Get would return for each. */
    method List(page: array<WordWithSenses>)
      modifies page
      ensures forall i :: 0 <= i < page.Length ==>
        page[i].word == old(page[i]).word && AnswersOne(senses, page[i].word.id, page[i].senses)
      ensures forall i, one ::
        0 <= i < page.Length && Untied(senses, page[i].word.id) && AnswersOne(senses, page[i].word.id, one) ==>
          page[i].senses == one
    {
      var ids := [];
      for i := 0 to page.Length
        invariant |ids| == i && forall k :: 0 <= k < i ==> ids[k] == page[k].word.id
      {
        ids := ids + [page[i].word.id];
      }
      var byWord := ListByWords(ids);
      for i := 0 to page.Length
        invariant forall k :: 0 <= k < page.Length ==> page[k].word == old(page[k]).word && page[k].word.id == ids[k]
        invariant forall k :: 0 <= k < i ==> AnswersOne(senses, page[k].word.id, page[k].senses)
      {
        assert ids[i] in ids;
        page[i] := page[i].(senses := SensesOf(byWord, page[i].word.id));
      }
      forall i, one |
        0 <= i < page.Length && Untied(senses, page[i].word.id) && AnswersOne(senses, page[i].word.id, one)
        ensures page[i].senses == one
      {
        AnswerIsUnique(senses, page[i].word.id, page[i].senses, one);
      }
    }

    /** The loop of the transaction: it ends with the first INSERT that fails. */
    method InsertSenses(es: seq<Enriched>, word: Uuid, ids: seq<Uuid>, now: Time, faults: Faults) returns (ok: bool)
      requires |es| <= |ids|
      modifies this`senses
      ensures ok <==> !exists i :: 0 <= i < |es| && Fails(faults, es, i)
      ensures ok ==> senses == old(senses) + Rows(word, now, ids, es)
      ensures !ok ==> exists i ::
        && 0 <= i < |es| && Fails(faults, es, i) && (forall k :: 0 <= k < i ==> !Fails(faults, es, k))
        && senses == old(senses) + Rows(word, now, ids, es[..i])
    {
      for i := 0 to |es|
        invariant senses == old(senses) + Rows(word, now, ids, es[..i])
        invariant forall k :: 0 <= k < i ==> !Fails(faults, es, k)
      {
        NextRow(word, now, ids, es, i);
        var meaning := Clean(es[i]);
        if meaning.definition == "" {
          assert !HasDefinition(es[i]);
          continue;
        }
        if faults.insert == i + 1 || !Fits(meaning) {
          assert Fails(faults, es, i);
          return false;
        }
        senses := senses + [Sense(ids[i], word, meaning, Wrap16(i), now)];
      }
      assert es[..|es|] == es;
      ok := true;
    }

    /** The transaction: the word and all its senses, or nothing. */
    method StoreEnriched(
        actor: Uuid, term: string, language: string, es: seq<Enriched>, word: Uuid, ids: seq<Uuid>, now: Time,
        faults: Faults)
      returns (r: Option<Error>)
      requires Valid() && word !in words && |es| <= |ids|
      modifies this
      ensures Valid()
      ensures r == Refusal(env, old(words), language, term, es, faults)
      ensures r.None? ==>
        && words == old(words)[word := Word(word, term, language, Some(actor))]
        && senses == old(senses) + Rows(word, now, ids, es)
      ensures r.Some? ==> words == old(words) && senses == old(senses)
    {
      if faults.begin || faults.insert == 0 || !env.languageOk(language) {
        return Some(Internal);
      }
      if Taken(env, words, language, term) {
        return Some(Conflict);
      }
      var beforeWords, beforeSenses := words, senses;
      NewWordIsKeyed(env, words, Word(word, term, language, Some(actor)));
      words := words[word := Word(word, term, language, Some(actor))];
      var inserted := InsertSenses(es, word, ids, now, faults);
      if !inserted || faults.commit {
        words, senses := beforeWords, beforeSenses;
        return Some(Internal);
      }
      RowsAreOfWord(word, now, ids, es);
      r := None;
    }

    /** `enriched` is the enricher's answer, or None when it fails. */
    method CreateAndEnrich(actor: Uuid, rawTerm: string, rawLanguage: string, enriched: Option<seq<Enriched>>,
                           word: Uuid, ids: seq<Uuid>, now: Time, faults: Faults)
      returns (r: Result<WordWithSenses, Error>)
      requires Valid() && word !in words && (enriched.Some? ==> |enriched.value| <= |ids|)
      modifies this
      ensures Valid()
      ensures Stores(old(words), rawTerm, rawLanguage, enriched, faults) ==>
        && words == old(words)[word := Word(word, TrimSpace(rawTerm), Language(env, rawLanguage), Some(actor))]
        && senses == old(senses) + Rows(word, now, ids, enriched.value)
      ensures !Stores(old(words), rawTerm, rawLanguage, enriched, faults) ==>
        words == old(words) && senses == old(senses)
      ensures r.Ok? <==> Stores(old(words), rawTerm, rawLanguage, enriched, faults) && !faults.read
      ensures r.Ok? ==>
        && r.value.word == words[word] && r.value.word.id == word && r.value.word.createdBy == Some(actor)
        && IsTrimOf(r.value.word.term, rawTerm) && IsLanguageOf(env, r.value.word.language, rawLanguage)
      ensures r.Ok? && OrderFits(enriched.value) ==> ReadsBack(r.value.senses, enriched.value)
      ensures r == Err(Conflict) <==>
        !faults.lookup && Taken(env, old(words), Language(env, rawLanguage), TrimSpace(rawTerm))
      ensures r == Err(Unavailable) <==> !faults.lookup && r != Err(Conflict) && !env.enabled
    {
      TrimIsOf(rawTerm);
      LanguageIsNormalised(env, rawLanguage);
      var term, language := TrimSpace(rawTerm), Language(env, rawLanguage);
      if faults.lookup {
        return Err(Internal);
      }
      if Taken(env, words, language, term) {
        return Err(Conflict);
      }
      if !env.enabled {
        return Err(Unavailable);
      }
      if enriched.None? || enriched.value == [] {
        return Err(Internal);
      }
      ghost var before := senses;
      var refused := StoreEnriched(actor, term, language, enriched.value, word, ids, now, faults);
      if refused.Some? {
        return Err(refused.value);
      }
      if faults.read {
        return Err(Internal);
      }
      r := Get(word, actor);
      if OrderFits(enriched.value) {
        StoredSensesReadBack(before, word, now, ids, enriched.value, r.value.senses);
      }
    }

    /** Exactly when the word is created. */
    predicate Stores(
        before: map<Uuid, Word>, rawTerm: string, rawLanguage: string, enriched: Option<seq<Enriched>>,
        faults: Faults) {
      && !faults.lookup && env.enabled && enriched.Some? && enriched.value != []
      && Refusal(env, before, Language(env, rawLanguage), TrimSpace(rawTerm), enriched.value, faults) == None
    }
  }

  /** Exactly when a word is created: nothing fails, the term is new, and every entry with a definition fits. */
  lemma StoresIff(
      t: Catalogue, before: map<Uuid, Word>, rawTerm: string, rawLanguage: string, enriched: Option<seq<Enriched>>,
      faults: Faults, term: string, language: string)
    requires IsTrimOf(term, rawTerm) && IsLanguageOf(t.env, language, rawLanguage)
    ensures t.Stores(before, rawTerm, rawLanguage, enriched, faults) <==>
      && !faults.lookup && !faults.begin && !faults.commit && faults.insert != 0
      && t.env.enabled && enriched.Some? && enriched.value != [] && t.env.languageOk(language)
      && (forall w :: w in before ==>
            before[w].language != language || t.env.citext(before[w].term) != t.env.citext(term))
      && (forall i :: 0 <= i < |enriched.value| ==> EntryStores(faults, enriched.value[i], i))
  {
    TrimIsUnique(term, rawTerm);
    LanguageIsNormalised(t.env, rawLanguage);
    if enriched.Some? {
      forall i | 0 <= i < |enriched.value|
        ensures EntryStores(faults, enriched.value[i], i) <==> !Fails(faults, enriched.value, i)
      {
        EntryStoresIff(faults, enriched.value, i);
      }
    }
  }
}
