/**
 * Spaced repetition: the statements of app/repository/db/user_words.sql.go,
 * with the constraints and the trigger of migrations/000003_words.up.sql.
 */
module Leitner {
  import opened Clock
  import opened Wrappers
  import opened Ordering

  /** Other stands for any text that the status constraint refuses. */
  datatype Status = Learning | Known | Archived | Other(text: string)

  const MAX_BOX: int := 5
  const MAX_NOTES: int := 2000
  const MAX_INT32: int := 0x7fff_ffff

  datatype Card = Card(
    status: Status, notes: Option<string>, favourite: bool,
    reviews: int, correct: int, box: int,
    lastReviewed: Option<Time>, due: Time, added: Time, updated: Time)

  datatype AddInput = AddInput(status: Option<Status>, notes: Option<string>, favourite: Option<bool>)

  /** What can happen to a card once it is in a list. */
  datatype Event =
    | Readd(input: AddInput, at: Time)
    | Review(correct: bool, at: Time)
    | Update(status: Option<Status>, clearNotes: bool, notes: Option<string>, favourite: Option<bool>, at: Time)

  datatype DbError = CheckViolation | OutOfRange | ForeignKeyViolation | NoRows

  /** The CHECK constraints of user_words. */
  predicate Allowed(c: Card) {
    && !c.status.Other?
    && (c.notes.Some? ==> |c.notes.value| <= MAX_NOTES)
    && c.reviews >= 0 && c.correct >= 0 && c.correct <= c.reviews && 0 <= c.box <= MAX_BOX
  }

  /** The row that AddWordToUser proposes. */
  function Fresh(input: AddInput, now: Time): Card {
    Card(Coalesce(input.status, Learning), input.notes, Coalesce(input.favourite, false), 0, 0, 0, None, now, now, now)
  }

  /** Every UPDATE runs the updated_at trigger, then the constraints. */
  function Write(c: Card, now: Time): Result<Card, DbError> {
    if Allowed(c) then Ok(c.(updated := now)) else Err(CheckViolation)
  }

  /** RecordReview: every right-hand side reads the old row. */
  function Reviewed(c: Card, correct: bool, now: Time): Card {
    c.(reviews := c.reviews + 1,
       correct := c.correct + (if correct then 1 else 0),
       box := if correct then (if c.box + 1 <= MAX_BOX then c.box + 1 else MAX_BOX) else 0,
       status :=
         if c.status == Archived then c.status
         else if correct && c.box + 1 >= 5 then Known
         else Learning,
       lastReviewed := Some(now),
       due := now + (
         if !correct then 10 * MINUTE
         else if c.box + 1 == 1 then DAY
         else if c.box + 1 == 2 then 2 * DAY
         else if c.box + 1 == 3 then 4 * DAY
         else if c.box + 1 == 4 then 7 * DAY
         else 15 * DAY))
  }

  function Apply(c: Card, e: Event): Result<Card, DbError> {
    match e
    case Readd(input, at) =>
      // The proposed row is checked first; on conflict, updated_at is assigned to itself.
      if Allowed(Fresh(input, at)) then Write(c.(updated := c.updated), at) else Err(CheckViolation)
    case Review(correct, at) =>
      if c.reviews + 1 > MAX_INT32 then Err(OutOfRange) else Write(Reviewed(c, correct, at), at)
    case Update(status, clearNotes, notes, favourite, at) =>
      Write(c.(status := Coalesce(status, c.status),
               notes := if clearNotes then None else if notes.Some? then notes else c.notes,
               favourite := Coalesce(favourite, c.favourite)), at)
  }

  /** How a row came to be: the call that inserted it and the calls that changed it since. */
  datatype Past = Past(input: AddInput, at: Time, events: seq<Event>)

  function Replay(p: Past): Result<Card, DbError>
    decreases |p.events|
  {
    var n := |p.events|;
    if n == 0 then
      var c := Fresh(p.input, p.at);
      if Allowed(c) then Ok(c) else Err(CheckViolation)
    else
      var before := Replay(p.(events := p.events[..n - 1]));
      if before.Ok? then Apply(before.value, p.events[n - 1]) else before
  }

  // ---- What a past amounts to -----------------------------------------------------------

  function Answers(es: seq<Event>): seq<Event> {
    if es == [] then []
    else Answers(es[..|es| - 1]) + (if es[|es| - 1].Review? then [es[|es| - 1]] else [])
  }

  function CorrectOnes(answers: seq<Event>): nat {
    if answers == [] then 0
    else
      var last := answers[|answers| - 1];
      CorrectOnes(answers[..|answers| - 1]) + (if last.Review? && last.correct then 1 else 0)
  }

  /** The length k of the longest suffix of correct answers. */
  ghost predicate IsStreak(answers: seq<Event>, k: int) {
    && 0 <= k <= |answers|
    && (forall i :: |answers| - k <= i < |answers| ==> answers[i].Review? && answers[i].correct)
    && (k < |answers| ==> !(answers[|answers| - k - 1].Review? && answers[|answers| - k - 1].correct))
  }

  function Interval(box: int): Time {
    if box <= 0 then 10 * MINUTE
    else if box == 1 then DAY
    else if box == 2 then 2 * DAY
    else if box == 3 then 4 * DAY
    else if box == 4 then 7 * DAY
    else 15 * DAY
  }

  /** The status that was chosen last: by an explicit update, or when the word was added. */
  function Chosen(p: Past): Status
    decreases |p.events|
  {
    var n := |p.events|;
    if n == 0 then Coalesce(p.input.status, Learning)
    else if p.events[n - 1].Update? && p.events[n - 1].status.Some? then p.events[n - 1].status.value
    else Chosen(p.(events := p.events[..n - 1]))
  }

  /** Whether a review came after that choice. */
  predicate ReviewedSince(es: seq<Event>) {
    es != []
    && (es[|es| - 1].Review?
        || (!(es[|es| - 1].Update? && es[|es| - 1].status.Some?) && ReviewedSince(es[..|es| - 1])))
  }

  /** The note written last, unless it was cleared since. */
  function Noted(p: Past): Option<string>
    decreases |p.events|
  {
    var n := |p.events|;
    if n == 0 then p.input.notes
    else if p.events[n - 1].Update? && p.events[n - 1].clearNotes then None
    else if p.events[n - 1].Update? && p.events[n - 1].notes.Some? then p.events[n - 1].notes
    else Noted(p.(events := p.events[..n - 1]))
  }

  function Favoured(p: Past): bool
    decreases |p.events|
  {
    var n := |p.events|;
    if n == 0 then Coalesce(p.input.favourite, false)
    else if p.events[n - 1].Update? && p.events[n - 1].favourite.Some? then p.events[n - 1].favourite.value
    else Favoured(p.(events := p.events[..n - 1]))
  }

  function Touched(p: Past): Time {
    if p.events == [] then p.at else p.events[|p.events| - 1].at
  }

  ghost predicate ClosedForm(p: Past, c: Card, streak: int) {
    var answers := Answers(p.events);
    && IsStreak(answers, streak)
    && c.box == (if streak < MAX_BOX then streak else MAX_BOX)
    && c.reviews == |answers| && c.correct == CorrectOnes(answers)
    && c.notes == Noted(p) && c.favourite == Favoured(p)
    && c.added == p.at && c.updated == Touched(p)
    && (answers == [] ==> c.lastReviewed == None && c.due == p.at)
    && (answers != [] ==>
          && c.lastReviewed == Some(answers[|answers| - 1].at)
          && c.due == c.lastReviewed.value + Interval(c.box))
    && c.status == (
      if Chosen(p) == Archived || !ReviewedSince(p.events) then Chosen(p)
      else if c.box == MAX_BOX then Known
      else Learning)
  }

  lemma {:induction false} AnswersAreReviews(es: seq<Event>)
    ensures forall a <- Answers(es) :: a.Review?
  {
    if es != [] {
      AnswersAreReviews(es[..|es| - 1]);
    }
  }

  lemma StreakStep(answers: seq<Event>, k: int, e: Event)
    requires IsStreak(answers, k) && e.Review?
    ensures IsStreak(answers + [e], if e.correct then k + 1 else 0)
  {
  }

  /** What a review changes about a past. */
  lemma AfterReview(p: Past, e: Event)
    requires e.Review?
    ensures var p' := p.(events := p.events + [e]); var answers := Answers(p.events);
      && Answers(p'.events) == answers + [e]
      && CorrectOnes(Answers(p'.events)) == CorrectOnes(answers) + One(e.correct)
      && Chosen(p') == Chosen(p) && Noted(p') == Noted(p) && Favoured(p') == Favoured(p)
      && ReviewedSince(p'.events) && Touched(p') == e.at
  {
    var es := p.events + [e];
    assert es[..|es| - 1] == p.events;
    assert p.(events := es).events[..|es| - 1] == p.events && p.(events := p.events) == p;
    var answers := Answers(es);
    assert answers[..|answers| - 1] == Answers(p.events);
  }

  lemma ReviewStep(p: Past, c: Card, streak: int, e: Event, next: Card) returns (k: int)
    requires ClosedForm(p, c, streak) && e.Review? && Apply(c, e) == Ok(next)
    ensures ClosedForm(p.(events := p.events + [e]), next, k)
  {
    AfterReview(p, e);
    StreakStep(Answers(p.events), streak, e);
    k := if e.correct then streak + 1 else 0;
  }

  lemma OtherStep(p: Past, c: Card, streak: int, e: Event, next: Card)
    requires ClosedForm(p, c, streak) && !e.Review? && Apply(c, e) == Ok(next)
    ensures ClosedForm(p.(events := p.events + [e]), next, streak)
  {
    var es := p.events + [e];
    assert es[..|es| - 1] == p.events;
    assert p.(events := es).events[..|es| - 1] == p.events && p.(events := p.events) == p;
    assert Answers(es) == Answers(p.events);
  }

  /**
   * Whatever happened to a card, its schedule is a function of the answers
   * given: the box is the length of the final run of correct answers, at most
   * five, the due date follows from the box and the last answer, and once a
   * card that is not archived has been reviewed it is known iff it is in the
   * last box.
   */
  lemma {:induction false} ScheduleIsClosedForm(p: Past) returns (streak: int)
    requires Replay(p).Ok?
    ensures ClosedForm(p, Replay(p).value, streak)
    decreases |p.events|
  {
    var n := |p.events|;
    if n == 0 {
      streak := 0;
    } else {
      var before := p.(events := p.events[..n - 1]);
      var e := p.events[n - 1];
      var k := ScheduleIsClosedForm(before);
      assert before.events + [e] == p.events && before.(events := p.events) == p;
      if e.Review? {
        streak := ReviewStep(before, Replay(before).value, k, e, Replay(p).value);
      } else {
        OtherStep(before, Replay(before).value, k, e, Replay(p).value);
        streak := k;
      }
    }
  }

  lemma StreakIsUnique(answers: seq<Event>, j: int, k: int)
    requires IsStreak(answers, j) && IsStreak(answers, k)
    ensures j == k
  {
  }

  /** The closed form leaves no choice: it determines every column of the card. */
  lemma ClosedFormIsUnique(p: Past, c: Card, j: int, c': Card, k: int)
    requires ClosedForm(p, c, j) && ClosedForm(p, c', k)
    ensures c == c' && j == k
  {
    StreakIsUnique(Answers(p.events), j, k);
  }

  /** Added as learning, by default or by choice, and never given another status: known iff in the last box. */
  lemma KnownIffLastBox(p: Past)
    requires Replay(p).Ok? && Coalesce(p.input.status, Learning) == Learning
    requires forall e <- p.events :: e.Update? ==> e.status == None
    ensures var c := Replay(p).value; c.status != Archived && (c.status == Known <==> c.box == MAX_BOX)
  {
    var streak := ScheduleIsClosedForm(p);
    NeverRestatused(p);
    if !ReviewedSince(p.events) {
      NoAnswers(p.events);
    }
  }

  lemma {:induction false} NeverRestatused(p: Past)
    requires forall e <- p.events :: e.Update? ==> e.status == None
    ensures Chosen(p) == Coalesce(p.input.status, Learning)
    decreases |p.events|
  {
    if p.events != [] {
      NeverRestatused(p.(events := p.events[..|p.events| - 1]));
    }
  }

  lemma {:induction false} NoAnswers(es: seq<Event>)
    requires !ReviewedSince(es) && forall e <- es :: e.Update? ==> e.status == None
    ensures Answers(es) == []
  {
    if es != [] {
      NoAnswers(es[..|es| - 1]);
    }
  }

  /** Reviews never bring a card back from the archive. */
  lemma {:induction false} ArchiveIsKept(p: Past, later: seq<Event>)
    requires Replay(p).Ok? && Replay(p).value.status == Archived
    requires Replay(p.(events := p.events + later)).Ok?
    requires forall e <- later :: e.Update? ==> e.status == None
    ensures Replay(p.(events := p.events + later)).value.status == Archived
  {
    if later == [] {
      assert p.events + later == p.events && p.(events := p.events) == p;
    } else {
      var all, init := p.events + later, later[..|later| - 1];
      assert all[..|all| - 1] == p.events + init && all[|all| - 1] == later[|later| - 1];
      assert p.(events := all).(events := p.events + init) == p.(events := p.events + init);
      ArchiveIsKept(p, init);
    }
  }

  /**
   * Adding a word again keeps the card, whatever status or notes the second
   * call asks for, but for updated_at: the trigger overwrites the statement's
   * assignment of the column to itself.
   */
  lemma ReaddingKeepsTheCard(p: Past, input: AddInput, now: Time)
    requires Replay(p).Ok?
    ensures var c := Replay(p).value; var again := Apply(c, Readd(input, now));
      && (again.Ok? <==> Allowed(Fresh(input, now)))
      && (again.Ok? ==> again.value == c.(updated := now))
  {
    ReplayIsAllowed(p);
  }

  lemma {:induction false} ReplayIsAllowed(p: Past)
    requires Replay(p).Ok?
    ensures Allowed(Replay(p).value)
    decreases |p.events|
  {
    if p.events != [] {
      ReplayIsAllowed(p.(events := p.events[..|p.events| - 1]));
    }
  }

  /** A review of a card fails only on the counter's range: the schedule itself never breaks a constraint. */
  lemma ReviewNeverViolatesChecks(p: Past, correct: bool, now: Time)
    requires Replay(p).Ok?
    ensures Apply(Replay(p).value, Review(correct, now)).Ok? <==> |Answers(p.events)| < MAX_INT32
  {
    ReplayIsAllowed(p);
    var streak := ScheduleIsClosedForm(p);
  }

  /** A word is added, or added again, unless the status is none of the three or the note is too long. */
  lemma AddingIsRefusedIff(input: AddInput, now: Time)
    ensures Allowed(Fresh(input, now)) <==>
      && (input.status.Some? ==> input.status.value in {Learning, Known, Archived})
      && (input.notes.Some? ==> |input.notes.value| <= 2000)
  {
  }

  /** ... and so is it updated. */
  lemma UpdateIsRefusedIff(p: Past, e: Event)
    requires Replay(p).Ok? && e.Update?
    ensures Apply(Replay(p).value, e).Ok? <==>
      && (e.status.Some? ==> e.status.value in {Learning, Known, Archived})
      && (!e.clearNotes && e.notes.Some? ==> |e.notes.value| <= 2000)
  {
    ReplayIsAllowed(p);
  }

  // ---- Statistics -----------------------------------------------------------------------

  /** models.UserWord.IsDue */
  predicate IsDue(c: Card, now: Time) {
    c.status != Archived && !(c.due > now)
  }

  datatype Stats = Stats(
    total: int, learning: int, known: int, archived: int, favourites: int, due: int, reviews: int, correct: int)

  function One(b: bool): int {
    if b then 1 else 0
  }

  function Sum(f: Card -> int, cards: seq<Card>): int {
    if cards == [] then 0 else f(cards[0]) + Sum(f, cards[1..])
  }

  /** GetUserWordStats over one person's rows. */
  function StatsOf(cards: seq<Card>, now: Time): Stats {
    if cards == [] then Stats(0, 0, 0, 0, 0, 0, 0, 0)
    else
      var s, c := StatsOf(cards[1..], now), cards[0];
      Stats(s.total + 1, s.learning + One(c.status == Learning), s.known + One(c.status == Known),
            s.archived + One(c.status == Archived), s.favourites + One(c.favourite),
            s.due + One(c.due <= now && c.status != Archived), s.reviews + c.reviews, s.correct + c.correct)
  }

  /**
   * The three states partition the list, each count is that of the rows its
   * own filter selects, the due rows are those of IsDue, and accuracy is a
   * share.
   */
  lemma {:induction false} StatsAgree(cards: seq<Card>, now: Time)
    requires forall c <- cards :: Allowed(c)
    ensures var s := StatsOf(cards, now);
      && s.total == |cards| == s.learning + s.known + s.archived
      && s.learning == |Filter((c: Card) => c.status == Learning, cards)|
      && s.known == |Filter((c: Card) => c.status == Known, cards)|
      && s.favourites == |Filter((c: Card) => c.favourite, cards)|
      && s.due == |Filter((c: Card) => IsDue(c, now), cards)| <= s.learning + s.known
      && s.archived == |Filter((c: Card) => c.status == Archived, cards)|
      && s.reviews == Sum((c: Card) => c.reviews, cards) && s.correct == Sum((c: Card) => c.correct, cards)
      && 0 <= s.correct <= s.reviews
  {
    if cards != [] {
      assert Allowed(cards[0]);
      StatsAgree(cards[1..], now);
    }
  }

  // ---- The table --------------------------------------------------------------------------

  type Key = (Uuid, Uuid)

  ghost predicate Consistent(rows: map<Key, Card>, past: map<Key, Past>) {
    past.Keys == rows.Keys && forall k :: k in rows ==> Replay(past[k]) == Ok(rows[k])
  }

  lemma ChangeIsConsistent(rows: map<Key, Card>, past: map<Key, Past>, k: Key, e: Event, c: Card)
    requires Consistent(rows, past) && k in rows && Apply(rows[k], e) == Ok(c)
    ensures Consistent(rows[k := c], past[k := Then(past[k], e)])
  {
    ThenReplays(past[k], rows[k], e);
  }

  /** user_words, with the users and words that its foreign keys refer to. */
  class UserWords {
    var rows: map<Key, Card>
    var users: set<Uuid>
    var words: set<Uuid>
    ghost var past: map<Key, Past>

    /** Every row is what its past amounts to. */
    ghost predicate Valid()
      reads this
    {
      Consistent(rows, past)
    }

    constructor (users: set<Uuid>, words: set<Uuid>)
      ensures Valid() && rows == map[] && this.users == users && this.words == words
    {
      rows := map[];
      this.users := users;
      this.words := words;
      past := map[];
    }

    method AddWordToUser(user: Uuid, word: Uuid, input: AddInput, now: Time) returns (r: Result<Card, DbError>)
      requires Valid()
      modifies this`rows, this`past
      ensures Valid()
      ensures rows == if r.Ok? then old(rows)[(user, word) := r.value] else old(rows)
      ensures (user, word) in old(rows) ==>
        r == Apply(old(rows)[(user, word)], Readd(input, now))
        && past ==
          if r.Ok? then old(past)[(user, word) := Then(old(past)[(user, word)], Readd(input, now))] else old(past)
      ensures (user, word) !in old(rows) ==>
        (r.Ok? <==> Allowed(Fresh(input, now)) && user in users && word in words)
        && (r.Ok? ==> r.value == Fresh(input, now) && past == old(past)[(user, word) := Past(input, now, [])])
    {
      var proposed := Fresh(input, now);
      if !Allowed(proposed) {
        return Err(CheckViolation);
      }
      if (user, word) in rows {
        r := Change((user, word), Readd(input, now));
      } else if user !in users || word !in words {
        r := Err(ForeignKeyViolation);
      } else {
        r := Ok(proposed);
        rows := rows[(user, word) := proposed];
        past := past[(user, word) := Past(input, now, [])];
      }
    }

    method RecordReview(user: Uuid, word: Uuid, correct: bool, now: Time) returns (r: Result<Card, DbError>)
      requires Valid()
      modifies this`rows, this`past
      ensures Valid()
      ensures rows == if r.Ok? then old(rows)[(user, word) := r.value] else old(rows)
      ensures r ==
        if (user, word) in old(rows) then Apply(old(rows)[(user, word)], Review(correct, now)) else Err(NoRows)
      ensures past ==
        if r.Ok? then old(past)[(user, word) := Then(old(past)[(user, word)], Review(correct, now))] else old(past)
    {
      if (user, word) in rows {
        r := Change((user, word), Review(correct, now));
      } else {
        r := Err(NoRows);
      }
    }

    method UpdateUserWord(user: Uuid, word: Uuid, e: Event) returns (r: Result<Card, DbError>)
      requires Valid() && e.Update?
      modifies this`rows, this`past
      ensures Valid()
      ensures rows == if r.Ok? then old(rows)[(user, word) := r.value] else old(rows)
      ensures r == if (user, word) in old(rows) then Apply(old(rows)[(user, word)], e) else Err(NoRows)
      ensures past == if r.Ok? then old(past)[(user, word) := Then(old(past)[(user, word)], e)] else old(past)
    {
      if (user, word) in rows {
        r := Change((user, word), e);
      } else {
        r := Err(NoRows);
      }
    }

    method RemoveWordFromUser(user: Uuid, word: Uuid) returns (affected: int)
      requires Valid()
      modifies this`rows, this`past
      ensures Valid() && rows == old(rows) - {(user, word)} && past == old(past) - {(user, word)}
      ensures affected == if (user, word) in old(rows) then 1 else 0
    {
      affected := if (user, word) in rows then 1 else 0;
      rows := rows - {(user, word)};
      past := past - {(user, word)};
    }

    method Change(k: Key, e: Event) returns (r: Result<Card, DbError>)
      requires Valid() && k in rows
      modifies this`rows, this`past
      ensures Valid()
      ensures r == Apply(old(rows)[k], e)
      ensures rows == if r.Ok? then old(rows)[k := r.value] else old(rows)
      ensures past == if r.Ok? then old(past)[k := Then(old(past)[k], e)] else old(past)
    {
      r := Apply(rows[k], e);
      if r.Ok? {
        ChangeIsConsistent(rows, past, k, e, r.value);
        rows := rows[k := r.value];
        past := past[k := Then(past[k], e)];
      }
    }
  }

  function Then(p: Past, e: Event): Past {
    p.(events := p.events + [e])
  }

  lemma ThenReplays(p: Past, c: Card, e: Event)
    requires Replay(p) == Ok(c)
    ensures Replay(Then(p, e)) == Apply(c, e)
  {
    var es := p.events + [e];
    assert es[..|es| - 1] == p.events && p.(events := es).(events := p.events) == p;
  }

  /** In every reachable table, every row obeys the closed form of its own past. */
  lemma EveryRowIsScheduled(t: UserWords, k: Key) returns (streak: int)
    requires t.Valid() && k in t.rows
    ensures ClosedForm(t.past[k], t.rows[k], streak)
  {
    streak := ScheduleIsClosedForm(t.past[k]);
  }
}
