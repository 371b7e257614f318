/**
 * The bookkeeping of the review page: which card is shown, and what one
 * submitted review changes (the card's schedule, the user's leaderboard score
 * and the user's daily streak). The tables are in-memory sequences of
 * records, kept in the order a query without ORDER BY returns them.
 */
module Routes {
  import opened Common
  import opened Scheduling
  import opened Streaks
  import opened Models

  /** A GET shows the first due card; a POST submits a rating for it. */
  datatype Request = View | Submit(difficulty: int)

  datatype ReviewOutcome =
    | DeckNotFound                            // 404
    | NothingDue                              // redirect with "No flashcards due"
    | Showing(card: nat)                      // the review page for that card
    | Reviewed(card: nat)                     // the review was recorded
    | Rejected(card: nat, error: ReviewError) // the rating raised; nothing is committed

  predicate IsDue(c: Flashcard, deckId: int, now: int)
    reads c
  {
    c.deckId == deckId && c.nextReview <= now
  }

  /** The position of the first due card of the deck, or |cards| when none is due. */
  function FirstDue(cards: seq<Flashcard>, deckId: int, now: int): (k: nat)
    reads cards
    ensures k <= |cards|
    ensures k < |cards| ==> IsDue(cards[k], deckId, now)
    ensures forall j :: 0 <= j < k ==> !IsDue(cards[j], deckId, now)
    decreases |cards|
  {
    if cards == [] then 0
    else if IsDue(cards[0], deckId, now) then 0
    else 1 + FirstDue(cards[1..], deckId, now)
  }

  /** The position of the user's first leaderboard entry, or |entries| when there is none. */
  function FirstEntry(entries: seq<Leaderboard>, userId: int): (k: nat)
    reads entries`userId
    ensures k <= |entries|
    ensures k < |entries| ==> entries[k].userId == userId
    ensures forall j :: 0 <= j < k ==> entries[j].userId != userId
    decreases |entries|
  {
    if entries == [] then 0
    else if entries[0].userId == userId then 0
    else 1 + FirstEntry(entries[1..], userId)
  }

  /** The position of the user's first streak record, or |records| when there is none. */
  function FirstStreak(records: seq<Streak>, userId: int): (k: nat)
    reads records`userId
    ensures k <= |records|
    ensures k < |records| ==> records[k].userId == userId
    ensures forall j :: 0 <= j < k ==> records[j].userId != userId
    decreases |records|
  {
    if records == [] then 0
    else if records[0].userId == userId then 0
    else 1 + FirstStreak(records[1..], userId)
  }

  /** The first entry is fixed by the entries' user ids alone. */
  lemma FirstEntryIs(entries: seq<Leaderboard>, userId: int, k: nat)
    requires k < |entries| && entries[k].userId == userId
    requires forall j :: 0 <= j < k ==> entries[j].userId != userId
    ensures FirstEntry(entries, userId) == k
  {
  }

  /** The first streak record is fixed by the records' user ids alone. */
  lemma FirstStreakIs(records: seq<Streak>, userId: int, k: nat)
    requires k < |records| && records[k].userId == userId
    requires forall j :: 0 <= j < k ==> records[j].userId != userId
    ensures FirstStreak(records, userId) == k
  {
  }

  /** Without an entry of the user, the search runs off the end. */
  lemma FirstEntryNone(entries: seq<Leaderboard>, userId: int)
    requires forall j :: 0 <= j < |entries| ==> entries[j].userId != userId
    ensures FirstEntry(entries, userId) == |entries|
  {
  }

  /** Without a record of the user, the search runs off the end. */
  lemma FirstStreakNone(records: seq<Streak>, userId: int)
    requires forall j :: 0 <= j < |records| ==> records[j].userId != userId
    ensures FirstStreak(records, userId) == |records|
  {
  }

  /** The user's first leaderboard entry, if there is one: the row `.first()` returns. */
  function EntryOf(entries: seq<Leaderboard>, userId: int): Option<Leaderboard>
    reads entries`userId
  {
    var k := FirstEntry(entries, userId);
    if k < |entries| then Some(entries[k]) else None
  }

  /** The user's first streak record, if there is one: the row `.first()` returns. */
  function RecordOf(records: seq<Streak>, userId: int): Option<Streak>
    reads records`userId
  {
    var k := FirstStreak(records, userId);
    if k < |records| then Some(records[k]) else None
  }

  /** The user's score: that of the first entry, 0 without one. */
  function ScoreOf(entries: seq<Leaderboard>, userId: int): int
    reads entries
  {
    var k := FirstEntry(entries, userId);
    if k < |entries| then entries[k].score else 0
  }

  /** The user's streak record, if there is one. */
  function StreakOf(records: seq<Streak>, userId: int): Option<StreakState>
    reads records
  {
    var k := FirstStreak(records, userId);
    if k < |records| then Some(records[k].State()) else None
  }

  /** Advances a streak record for a review at time `now`. */
  method RecordStudy(streak: Streak, now: int)
    modifies streak
    ensures streak.State() == StudyDay(old(streak.State()), now)
    ensures streak.userId == old(streak.userId)
  {
    var today := DayOf(now);
    var last := if streak.lastStudied.Some? then DayOf(streak.lastStudied.value) else today;
    if today > last {
      if today - last == 1 {
        streak.streakCount := streak.streakCount + 1;
      } else {
        streak.streakCount := 1;
      }
      streak.lastStudied := Some(now);
    }
  }

  class Database {
    var decks: seq<Deck>
    var cards: seq<Flashcard>
    var leaderboard: seq<Leaderboard>
    var streaks: seq<Streak>

    constructor ()
      ensures decks == [] && cards == [] && leaderboard == [] && streaks == []
    {
      decks, cards, leaderboard, streaks := [], [], [], [];
    }

    predicate HasDeck(deckId: int)
      reads this
    {
      exists i :: 0 <= i < |decks| && decks[i].id == deckId
    }

    /** The user's first leaderboard entry, created with score 0 when there is none. */
    method LeaderboardEntry(userId: int) returns (entry: Leaderboard, created: bool)
      modifies this
      ensures decks == old(decks) && cards == old(cards) && streaks == old(streaks)
      ensures created <==> old(FirstEntry(leaderboard, userId)) == |old(leaderboard)|
      ensures !created ==> leaderboard == old(leaderboard) && old(EntryOf(leaderboard, userId)) == Some(entry)
      ensures created ==> fresh(entry) && leaderboard == old(leaderboard) + [entry]
      ensures FirstEntry(leaderboard, userId) < |leaderboard| && entry == leaderboard[FirstEntry(leaderboard, userId)]
      ensures entry.score == old(ScoreOf(leaderboard, userId))
      ensures forall v :: v != userId ==> ScoreOf(leaderboard, v) == old(ScoreOf(leaderboard, v))
    {
      var k := FirstEntry(leaderboard, userId);
      created := k == |leaderboard|;
      if !created {
        entry := leaderboard[k];
      } else {
        entry := new Leaderboard(userId);
        leaderboard := leaderboard + [entry];
        assert forall j :: 0 <= j < k ==> leaderboard[j] == old(leaderboard)[j];
        assert forall j :: 0 <= j < k ==> leaderboard[j].userId != userId;
        FirstEntryIs(leaderboard, userId, k);
        forall v | v != userId
          ensures ScoreOf(leaderboard, v) == old(ScoreOf(leaderboard, v))
        {
          var j := old(FirstEntry(leaderboard, v));
          if j < |old(leaderboard)| {
            FirstEntryIs(leaderboard, v, j);
          } else {
            FirstEntryNone(leaderboard, v);
          }
        }
      }
    }

    /**
     * Adds one point to the user's first leaderboard entry, which is created
     * with score 0 when there is none.
     */
    method AddPoint(userId: int)
      modifies this, leaderboard
      ensures decks == old(decks) && cards == old(cards) && streaks == old(streaks)
      ensures ScoreOf(leaderboard, userId) == old(ScoreOf(leaderboard, userId)) + 1
      ensures old(EntryOf(leaderboard, userId)).Some? ==> leaderboard == old(leaderboard)
      ensures old(EntryOf(leaderboard, userId)).None? ==>
        |leaderboard| == |old(leaderboard)| + 1 && leaderboard[..|old(leaderboard)|] == old(leaderboard) &&
        fresh(leaderboard[|old(leaderboard)|])
      ensures forall e :: e in old(leaderboard) && Some(e) != old(EntryOf(leaderboard, userId)) ==> unchanged(e)
      // rows keep their users, so no other user's score moves
      ensures forall e :: e in old(leaderboard) ==> e.userId == old(e.userId)
      ensures forall v :: v != userId ==> ScoreOf(leaderboard, v) == old(ScoreOf(leaderboard, v))
    {
      var entry, created := LeaderboardEntry(userId);
      ghost var k := FirstEntry(leaderboard, userId);
      ghost var entries := leaderboard;
      assert created ==> entries[..|entries| - 1] == old(leaderboard);
      label Found:
      entry.score := entry.score + 1;
      FirstEntryIs(leaderboard, userId, k);
      forall v | v != userId
        ensures ScoreOf(leaderboard, v) == old@Found(ScoreOf(leaderboard, v))
      {
        var j := FirstEntry(leaderboard, v);
        assert j == old@Found(FirstEntry(leaderboard, v));
        assert j < |leaderboard| ==> leaderboard[j] != entry;
      }
    }

    /** The user's first streak record, created with count 0 and no study time when there is none. */
    method StreakRecord(userId: int) returns (streak: Streak, created: bool)
      modifies this
      ensures decks == old(decks) && cards == old(cards) && leaderboard == old(leaderboard)
      ensures created <==> old(StreakOf(streaks, userId)).None?
      ensures !created ==> streaks == old(streaks) && old(RecordOf(streaks, userId)) == Some(streak)
      ensures created ==> fresh(streak) && streaks == old(streaks) + [streak]
      ensures FirstStreak(streaks, userId) < |streaks| && streak == streaks[FirstStreak(streaks, userId)]
      ensures StreakOf(streaks, userId) == Some(streak.State())
      ensures !created ==> StreakOf(streaks, userId) == old(StreakOf(streaks, userId))
      ensures created ==> streak.State() == StreakState(0, None)
      ensures forall v :: v != userId ==> StreakOf(streaks, v) == old(StreakOf(streaks, v))
    {
      var k := FirstStreak(streaks, userId);
      created := k == |streaks|;
      if !created {
        streak := streaks[k];
      } else {
        streak := new Streak(userId);
        streaks := streaks + [streak];
        assert forall j :: 0 <= j < k ==> streaks[j] == old(streaks)[j];
        assert forall j :: 0 <= j < k ==> streaks[j].userId != userId;
        FirstStreakIs(streaks, userId, k);
        forall v | v != userId
          ensures StreakOf(streaks, v) == old(StreakOf(streaks, v))
        {
          var j := old(FirstStreak(streaks, v));
          if j < |old(streaks)| {
            FirstStreakIs(streaks, v, j);
          } else {
            FirstStreakNone(streaks, v);
          }
        }
      }
    }

    /**
     * Advances the user's first streak record for a review at time `now`. A
     * missing record is created with count 0; the column default gives it the
     * current time as its study time when it is inserted.
     */
    method AdvanceStreak(userId: int, now: int)
      modifies this, streaks
      ensures decks == old(decks) && cards == old(cards) && leaderboard == old(leaderboard)
      ensures StreakOf(streaks, userId) == Some(AfterReview(old(StreakOf(streaks, userId)), now))
      ensures old(RecordOf(streaks, userId)).Some? ==> streaks == old(streaks)
      ensures old(RecordOf(streaks, userId)).None? ==>
        |streaks| == |old(streaks)| + 1 && streaks[..|old(streaks)|] == old(streaks) &&
        fresh(streaks[|old(streaks)|])
      ensures forall s :: s in old(streaks) && Some(s) != old(RecordOf(streaks, userId)) ==> unchanged(s)
      // records keep their users, so no other user's streak moves
      ensures forall s :: s in old(streaks) ==> s.userId == old(s.userId)
      ensures forall v :: v != userId ==> StreakOf(streaks, v) == old(StreakOf(streaks, v))
    {
      var streak, created := StreakRecord(userId);
      label Found:
      ghost var k := FirstStreak(streaks, userId);
      ghost var records := streaks;
      ghost var before := streak.State();
      assert created ==> records[..|records| - 1] == old(streaks);
      RecordStudy(streak, now);
      if created {
        // the column default fills last_studied when the new record is inserted
        streak.lastStudied := Some(now);
      }
      FirstStreakIs(streaks, userId, k);
      assert streak.State() == AfterReview(old(StreakOf(streaks, userId)), now);
      forall v | v != userId
        ensures StreakOf(streaks, v) == old@Found(StreakOf(streaks, v))
      {
        var j := FirstStreak(streaks, v);
        assert j == old@Found(FirstStreak(streaks, v));
        assert j < |streaks| ==> streaks[j] != streak;
      }
    }

    /** The leaderboard and streak bookkeeping of one recorded review. */
    method CreditReview(userId: int, now: int)
      modifies this, leaderboard, streaks
      ensures decks == old(decks) && cards == old(cards)
      ensures ScoreOf(leaderboard, userId) == old(ScoreOf(leaderboard, userId)) + 1
      ensures old(EntryOf(leaderboard, userId)).Some? ==> leaderboard == old(leaderboard)
      ensures old(EntryOf(leaderboard, userId)).None? ==>
        |leaderboard| == |old(leaderboard)| + 1 && leaderboard[..|old(leaderboard)|] == old(leaderboard) &&
        fresh(leaderboard[|old(leaderboard)|])
      ensures forall e :: e in old(leaderboard) && Some(e) != old(EntryOf(leaderboard, userId)) ==> unchanged(e)
      ensures StreakOf(streaks, userId) == Some(AfterReview(old(StreakOf(streaks, userId)), now))
      ensures old(RecordOf(streaks, userId)).Some? ==> streaks == old(streaks)
      ensures old(RecordOf(streaks, userId)).None? ==>
        |streaks| == |old(streaks)| + 1 && streaks[..|old(streaks)|] == old(streaks) &&
        fresh(streaks[|old(streaks)|])
      ensures forall s :: s in old(streaks) && Some(s) != old(RecordOf(streaks, userId)) ==> unchanged(s)
      // rows keep their users, so no other user's score moves
      ensures forall e :: e in old(leaderboard) ==> e.userId == old(e.userId)
      ensures forall v :: v != userId ==> ScoreOf(leaderboard, v) == old(ScoreOf(leaderboard, v))
      // records keep their users, so no other user's streak moves
      ensures forall s :: s in old(streaks) ==> s.userId == old(s.userId)
      ensures forall v :: v != userId ==> StreakOf(streaks, v) == old(StreakOf(streaks, v))
    {
      ghost var streakBefore := StreakOf(streaks, userId);
      AddPoint(userId);
      assert StreakOf(streaks, userId) == streakBefore;
      ghost var score := ScoreOf(leaderboard, userId);
      AdvanceStreak(userId, now);
      assert ScoreOf(leaderboard, userId) == score;
    }

    /**
     * Records a submitted rating for the card at position k: the card's
     * schedule is updated, then the user's score and streak. A rating outside
     * 1..3 raises before anything changes.
     */
    method SubmitReview(k: nat, difficulty: int, userId: int, now: int) returns (result: Outcome<ReviewError>)
      requires k < |cards|
      modifies this, cards[k], leaderboard, streaks
      ensures decks == old(decks) && cards == old(cards)
      // rows keep their users, so no other user's score moves
      ensures forall e :: e in old(leaderboard) ==> e.userId == old(e.userId)
      ensures forall v :: v != userId ==> ScoreOf(leaderboard, v) == old(ScoreOf(leaderboard, v))
      // records keep their users, so no other user's streak moves
      ensures forall s :: s in old(streaks) ==> s.userId == old(s.userId)
      ensures forall v :: v != userId ==> StreakOf(streaks, v) == old(StreakOf(streaks, v))
      ensures result.Fail? <==> !ValidDifficulty(difficulty)
      ensures result.Fail? ==>
        result.error == DifficultyOutOfRange(difficulty) &&
        unchanged(this) && unchanged(cards) && unchanged(leaderboard) && unchanged(streaks)
      ensures result.Pass? ==>
        var card := cards[k];
        card.State() == ApplyReview(old(card.State()), difficulty, now).value &&
        card.question == old(card.question) && card.answer == old(card.answer) &&
        card.deckId == old(card.deckId) && card.difficulty == old(card.difficulty)
      ensures result.Pass? ==>
        ScoreOf(leaderboard, userId) == old(ScoreOf(leaderboard, userId)) + 1 &&
        (old(EntryOf(leaderboard, userId)).Some? ==> leaderboard == old(leaderboard)) &&
        (old(EntryOf(leaderboard, userId)).None? ==>
            |leaderboard| == |old(leaderboard)| + 1 && leaderboard[..|old(leaderboard)|] == old(leaderboard) &&
            fresh(leaderboard[|old(leaderboard)|])) &&
        forall e :: e in old(leaderboard) && Some(e) != old(EntryOf(leaderboard, userId)) ==> unchanged(e)
      ensures result.Pass? ==>
        StreakOf(streaks, userId) == Some(AfterReview(old(StreakOf(streaks, userId)), now)) &&
        (old(RecordOf(streaks, userId)).Some? ==> streaks == old(streaks)) &&
        (old(RecordOf(streaks, userId)).None? ==>
            |streaks| == |old(streaks)| + 1 && streaks[..|old(streaks)|] == old(streaks) &&
            fresh(streaks[|old(streaks)|])) &&
        forall s :: s in old(streaks) && Some(s) != old(RecordOf(streaks, userId)) ==> unchanged(s)
    {
      ghost var score := ScoreOf(leaderboard, userId);
      ghost var entry := FirstEntry(leaderboard, userId);
      ghost var streak := StreakOf(streaks, userId);
      ghost var entryRow, streakRow := EntryOf(leaderboard, userId), RecordOf(streaks, userId);
      result := cards[k].UpdateReview(difficulty, now);
      if result.Fail? {
        return;
      }
      assert ScoreOf(leaderboard, userId) == score && FirstEntry(leaderboard, userId) == entry;
      assert StreakOf(streaks, userId) == streak;
      assert EntryOf(leaderboard, userId) == entryRow && RecordOf(streaks, userId) == streakRow;
      ghost var card := cards[k];
      ghost var reviewed := card.State();
      CreditReview(userId, now);
      assert card.State() == reviewed;
    }

    /**
     * The review page of a deck for the signed-in user at time `now`. A
     * submitted rating updates the first due card, adds one to the user's
     * score and advances the user's streak; anything else changes nothing.
     */
    method ReviewDeck(deckId: int, userId: int, request: Request, now: int) returns (outcome: ReviewOutcome)
      modifies this, cards, leaderboard, streaks
      ensures decks == old(decks) && cards == old(cards)
      // rows keep their users, so no other user's score moves
      ensures forall e :: e in old(leaderboard) ==> e.userId == old(e.userId)
      ensures forall v :: v != userId ==> ScoreOf(leaderboard, v) == old(ScoreOf(leaderboard, v))
      // records keep their users, so no other user's streak moves
      ensures forall s :: s in old(streaks) ==> s.userId == old(s.userId)
      ensures forall v :: v != userId ==> StreakOf(streaks, v) == old(StreakOf(streaks, v))
      ensures outcome == DeckNotFound <==> !HasDeck(deckId)
      ensures outcome == NothingDue <==> HasDeck(deckId) && old(FirstDue(cards, deckId, now)) == |cards|
      ensures outcome.Showing? || outcome.Rejected? || outcome.Reviewed? ==>
        outcome.card == old(FirstDue(cards, deckId, now)) < |cards|
      ensures outcome.Showing? ==> request == View
      ensures outcome.Rejected? ==>
        request.Submit? && outcome.error == DifficultyOutOfRange(request.difficulty) &&
        !ValidDifficulty(request.difficulty)
      ensures outcome.Reviewed? ==> request.Submit? && ValidDifficulty(request.difficulty)
      // nothing changes unless a valid rating was recorded
      ensures !outcome.Reviewed? ==>
        unchanged(this) && unchanged(cards) && unchanged(leaderboard) && unchanged(streaks)
      // the first due card gets the new schedule; no other card changes
      ensures outcome.Reviewed? ==>
        var card := cards[outcome.card];
        card.State() == ApplyReview(old(card.State()), request.difficulty, now).value &&
        card.question == old(card.question) && card.answer == old(card.answer) &&
        card.deckId == old(card.deckId) && card.difficulty == old(card.difficulty) &&
        forall c :: c in cards && c != card ==> unchanged(c)
      // one more point for the user, a first entry starting from 0
      ensures outcome.Reviewed? ==>
        ScoreOf(leaderboard, userId) == old(ScoreOf(leaderboard, userId)) + 1 &&
        (old(EntryOf(leaderboard, userId)).Some? ==> leaderboard == old(leaderboard)) &&
        (old(EntryOf(leaderboard, userId)).None? ==>
            |leaderboard| == |old(leaderboard)| + 1 && leaderboard[..|old(leaderboard)|] == old(leaderboard) &&
            fresh(leaderboard[|old(leaderboard)|])) &&
        forall e :: e in old(leaderboard) && Some(e) != old(EntryOf(leaderboard, userId)) ==> unchanged(e)
      // the user's streak advances; a missing record is created
      ensures outcome.Reviewed? ==>
        StreakOf(streaks, userId) == Some(AfterReview(old(StreakOf(streaks, userId)), now)) &&
        (old(RecordOf(streaks, userId)).Some? ==> streaks == old(streaks)) &&
        (old(RecordOf(streaks, userId)).None? ==>
            |streaks| == |old(streaks)| + 1 && streaks[..|old(streaks)|] == old(streaks) &&
            fresh(streaks[|old(streaks)|])) &&
        forall s :: s in old(streaks) && Some(s) != old(RecordOf(streaks, userId)) ==> unchanged(s)
    {
      if !HasDeck(deckId) {
        return DeckNotFound;
      }
      var k := FirstDue(cards, deckId, now);
      if k == |cards| {
        return NothingDue;
      }
      match request
      case View =>
        outcome := Showing(k);
      case Submit(difficulty) =>
        var result := SubmitReview(k, difficulty, userId, now);
        outcome := if result.Fail? then Rejected(k, result.error) else Reviewed(k);
    }
  }
}
