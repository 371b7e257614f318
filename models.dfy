/**
 * The records of the application that the review code reads and updates in
 * place: flashcards, streaks and leaderboard entries. Decks are never updated
 * in place and are values.
 */
module Models {
  import opened Common
  import opened Scheduling
  import opened Streaks

  /** A deck: its key, its title, its nullable description and its owner. */
  datatype Deck = Deck(id: int, title: string, description: Option<string>, userId: int)

  class Flashcard {
    var question: string
    var answer: string
    /** The stored difficulty column; reviews never write it. */
    var difficulty: int
    var nextReview: int
    var interval: int
    var repetitions: int
    /** The ease factor in hundredths. */
    var ease: int
    var deckId: int

    /** The scheduling fields, as the value Scheduling.ApplyReview works on. */
    function State(): Schedule
      reads this
    {
      Schedule(ease, repetitions, interval, nextReview)
    }

    /** A card added to a deck at time `now`, with the column defaults. */
    constructor (question: string, answer: string, deckId: int, now: int)
      ensures this.question == question && this.answer == answer && this.deckId == deckId
      ensures difficulty == DefaultDifficulty
      ensures State() == InitialSchedule(now)
      ensures Valid(State())
    {
      this.question := question;
      this.answer := answer;
      this.deckId := deckId;
      difficulty := DefaultDifficulty;
      nextReview := now;
      interval := DefaultInterval;
      repetitions := DefaultRepetitions;
      ease := DefaultEase;
    }

    /**
     * Records one review with the given rating at time `now`. A rating outside
     * 1..3 is rejected before any field is assigned.
     */
    method UpdateReview(difficulty: int, now: int) returns (r: Outcome<ReviewError>)
      modifies this
      ensures r.Fail? <==> !ValidDifficulty(difficulty)
      ensures r.Fail? ==> r.error == DifficultyOutOfRange(difficulty) && unchanged(this)
      ensures r.Pass? ==> State() == ApplyReview(old(State()), difficulty, now).value
      ensures question == old(question) && answer == old(answer) && deckId == old(deckId)
      ensures this.difficulty == old(this.difficulty)
    {
      if difficulty < 1 || difficulty > 3 {
        return Fail(DifficultyOutOfRange(difficulty));
      }
      ease := Max(EaseFloor, ease + EaseDelta(difficulty));
      if difficulty >= 2 {
        repetitions := repetitions + 1;
        if repetitions == 1 {
          interval := 1;
        } else if repetitions == 2 {
          interval := 6;
        } else {
          interval := TruncHundredths(interval * ease);
        }
      } else {
        repetitions := 0;
        interval := 1;
      }
      nextReview := now + interval * SecondsPerDay;
      r := Pass;
    }
  }

  class Streak {
    var userId: int
    /** The time of the last counted study day; unset until the record is first inserted. */
    var lastStudied: Option<int>
    var streakCount: int

    function State(): StreakState
      reads this
    {
      StreakState(streakCount, lastStudied)
    }

    /** A new record for a user, before it is inserted: count 0, no study time yet. */
    constructor (userId: int)
      ensures this.userId == userId
      ensures State() == StreakState(0, None)
    {
      this.userId := userId;
      lastStudied := None;
      streakCount := 0;
    }
  }

  class Leaderboard {
    var userId: int
    var score: int

    /** A new entry for a user, with score 0. */
    constructor (userId: int)
      ensures this.userId == userId && score == 0
    {
      this.userId := userId;
      score := 0;
    }
  }
}
