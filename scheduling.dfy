/**
 * The spaced-repetition update of one flashcard (a simplified SuperMemo SM-2),
 * stated on values. The class Models.Flashcard performs it in place and is
 * proved to agree with ApplyReview.
 *
 * The ease factor is kept in hundredths (250 stands for 2.5), so the source's
 * floating-point formula becomes exact integer arithmetic.
 */
module Scheduling {
  import opened Common

  /** Timestamps are whole seconds; one day of timedelta is this many. */
  const SecondsPerDay: int := 86400

  /** Column defaults of a new flashcard. */
  const DefaultEase: int := 250
  const DefaultInterval: int := 1
  const DefaultRepetitions: int := 0
  const DefaultDifficulty: int := 1

  /** The ease factor never drops below 1.3. */
  const EaseFloor: int := 130

  /** The four scheduling fields of a flashcard. */
  datatype Schedule = Schedule(ease: int, repetitions: int, interval: int, nextReview: int)

  /** The ValueError raised for a rating outside 1..3. */
  datatype ReviewError = DifficultyOutOfRange(difficulty: int)

  /** 1 = failed, 2 = acceptable, 3 = easy. */
  predicate ValidDifficulty(difficulty: int)
  {
    1 <= difficulty <= 3
  }

  /** The scheduling state of a card created at time `created`. */
  function InitialSchedule(created: int): Schedule
  {
    Schedule(DefaultEase, DefaultRepetitions, DefaultInterval, created)
  }

  /** The invariant the scheduler is meant to keep. */
  predicate Valid(s: Schedule)
  {
    s.ease >= EaseFloor && s.interval >= 1 && s.repetitions >= 0
  }

  /**
   * The change of the ease factor, 0.1 - (3 - d) * (0.08 + (3 - d) * 0.02),
   * in hundredths.
   */
  function EaseDelta(difficulty: int): (delta: int)
    requires ValidDifficulty(difficulty)
    ensures difficulty == 3 ==> delta == 10
    ensures difficulty == 2 ==> delta == 0
    ensures difficulty == 1 ==> delta == -14
  {
    var miss := 3 - difficulty;
    10 - miss * (8 + miss * 2)
  }

  /**
   * Python's int() of a number given in hundredths: it rounds toward zero,
   * where Dafny's `/` rounds down.
   */
  function TruncHundredths(a: int): (q: int)
    ensures a >= 0 ==> 0 <= q && 100 * q <= a < 100 * q + 100
    ensures a < 0 ==> q <= 0 && -100 * q <= -a < -100 * q + 100
  {
    if a >= 0 then a / 100 else -((-a) / 100)
  }

  /**
   * One review with the given rating at time `now`: the new scheduling state,
   * or the error raised before any field is touched.
   */
  function ApplyReview(s: Schedule, difficulty: int, now: int): (r: Result<Schedule, ReviewError>)
    ensures r.Failure? <==> !ValidDifficulty(difficulty)
    ensures r.Failure? ==> r.error == DifficultyOutOfRange(difficulty)
    // the ease factor moves by the rating's delta, on failures too, but never below the floor
    ensures r.Success? ==> r.value.ease >= EaseFloor && r.value.ease >= s.ease + EaseDelta(difficulty)
    ensures r.Success? && r.value.ease > EaseFloor ==> r.value.ease == s.ease + EaseDelta(difficulty)
    // a failed review resets the streak of successes, whatever came before
    ensures r.Success? && difficulty == 1 ==> r.value.repetitions == 0 && r.value.interval == 1
    // a successful review counts one more success and grows the interval
    ensures r.Success? && difficulty >= 2 ==>
      r.value.repetitions == s.repetitions + 1 &&
      r.value.interval == (if r.value.repetitions == 1 then 1
                           else if r.value.repetitions == 2 then 6
                           else TruncHundredths(s.interval * r.value.ease))
    ensures r.Success? ==> r.value.nextReview == now + r.value.interval * SecondsPerDay
  {
    if !ValidDifficulty(difficulty) then
      Failure(DifficultyOutOfRange(difficulty))
    else
      var ease := Max(EaseFloor, s.ease + EaseDelta(difficulty));
      var (repetitions, interval) :=
        if difficulty >= 2 then
          var reps := s.repetitions + 1;
          (reps, if reps == 1 then 1 else if reps == 2 then 6 else TruncHundredths(s.interval * ease))
        else
          (0, 1);
      Success(Schedule(ease, repetitions, interval, now + interval * SecondsPerDay))
  }

  /** An interval of at least one day, scaled by an ease of at least 1.3, does not shrink. */
  lemma ScaledIntervalGrows(interval: int, ease: int)
    requires interval >= 1 && ease >= EaseFloor
    ensures TruncHundredths(interval * ease) >= interval
  {
  }

  /** A valid review of a valid card leaves a valid card. */
  lemma ReviewKeepsValid(s: Schedule, difficulty: int, now: int)
    requires Valid(s) && ValidDifficulty(difficulty)
    ensures ApplyReview(s, difficulty, now).Success?
    ensures Valid(ApplyReview(s, difficulty, now).value)
  {
  }

  /**
   * From the third success on, a successful review never shortens the
   * interval: the ease factor is above 1.
   */
  lemma SuccessNeverShortens(s: Schedule, difficulty: int, now: int)
    requires Valid(s) && 2 <= difficulty <= 3 && s.repetitions >= 2
    ensures ApplyReview(s, difficulty, now).value.interval >= s.interval
  {
  }

  /** One submitted rating and the time it was submitted. */
  datatype Rating = Rating(difficulty: int, at: int)

  /**
   * A card after a sequence of submitted ratings; a rejected rating raises
   * before any assignment and so leaves the card as it was.
   */
  function Replay(s: Schedule, ratings: seq<Rating>): Schedule
    decreases |ratings|
  {
    if ratings == [] then s
    else
      var r := ApplyReview(s, ratings[0].difficulty, ratings[0].at);
      Replay(if r.Success? then r.value else s, ratings[1..])
  }

  /** Any sequence of ratings, valid or not, keeps the invariant. */
  lemma {:induction false} ReplayKeepsValid(s: Schedule, ratings: seq<Rating>)
    requires Valid(s)
    ensures Valid(Replay(s, ratings))
    decreases |ratings|
  {
    if ratings != [] {
      var r := ApplyReview(s, ratings[0].difficulty, ratings[0].at);
      if r.Success? {
        ReviewKeepsValid(s, ratings[0].difficulty, ratings[0].at);
      }
      ReplayKeepsValid(if r.Success? then r.value else s, ratings[1..]);
    }
  }

  /** A card that starts from the column defaults satisfies the invariant forever. */
  lemma DefaultsStayValid(created: int, ratings: seq<Rating>)
    ensures Valid(Replay(InitialSchedule(created), ratings))
  {
    ReplayKeepsValid(InitialSchedule(created), ratings);
  }

  /**
   * Three easy reviews of a new card: intervals 1, 6 and then 6 * 2.8 = 16.8
   * days rounded down, with the ease factor rising 2.6, 2.7, 2.8.
   */
  lemma ThreeEasyReviews(created: int, t1: int, t2: int, t3: int)
    ensures var s1 := ApplyReview(InitialSchedule(created), 3, t1).value;
            var s2 := ApplyReview(s1, 3, t2).value;
            var s3 := ApplyReview(s2, 3, t3).value;
            s1 == Schedule(260, 1, 1, t1 + SecondsPerDay) &&
            s2 == Schedule(270, 2, 6, t2 + 6 * SecondsPerDay) &&
            s3 == Schedule(280, 3, 16, t3 + 16 * SecondsPerDay)
  {
  }
}
