# Flashcard review core, modelled in Dafny

This project models the core of a Flask flashcard application, where users review flashcards deck by deck:

- **Scheduling** (`scheduling.dfy`): the spaced-repetition update of one card, a simplified SM-2. The ease factor moves by 0.1 − (3−d)(0.08 + (3−d)·0.02) and never drops below 1.3. Then one of two things happens:
  - a failed review (rating 1) resets the repetitions and interval;
  - a successful review (2 or 3) counts one more repetition and sets the interval to 1, then 6, then `int(interval · ease)` days.
  The next review is due that many days after the review. The ease factor is kept in hundredths, so the arithmetic is exact.
- **Models** (`models.dfy`): the records updated in place.
  - `Flashcard` is a class whose `UpdateReview` method assigns the fields one by one, as `update_review` does. It is proved to agree with the value-level `Scheduling.ApplyReview`.
  - `Streak` and `Leaderboard` are classes with the columns the review page changes.
  - `Deck` is a value.
- **Streaks** (`streaks.dfy`): the per-user daily streak of the review page, on UTC calendar days:
  - a review on the day after the last counted one extends the streak;
  - a later review restarts it at 1;
  - a review on the same day changes nothing;
  - an unset study time counts as "today".
- **Routes** (`routes.dfy`): the review page over an in-memory `Database`. The database holds sequences of decks, cards, leaderboard entries and streak records, in the order an unordered query returns them. The page does the following:
  - returns 404 for an unknown deck;
  - redirects when no card is due;
  - otherwise shows the first due card, or records a submitted rating for it.
  Recording a rating has three effects: the card is rescheduled, the user's first leaderboard entry gains a point (created at 0 if missing), and the user's first streak record advances (created if missing). A rating outside 1..3 raises before anything changes.
- **Transfer** (`transfer.dfy`): deck export and import at the level of CSV rows and parsed JSON values.
  - Export writes a header row plus one row per card, or a `{title, description, flashcards}` document.
  - Import checks the file extension, creates and commits the deck, and then reads the cards.
  - An error while reading the cards therefore leaves the deck without its cards (`DeckOnly`).
  - A JSON export followed by an import gives back the deck's title, description and cards. A CSV export followed by an import gives back the cards; the title and description come from the import form.

Timestamps are whole seconds. The current time is a parameter (`now`).

## Model

| member | source | states |
|---|---|---|
| Scheduling.EaseDelta | app/models.py:86-87 | The ease change is +0.10 for rating 3, 0 for rating 2 and −0.14 for rating 1 (in hundredths). |
| Scheduling.TruncHundredths | app/models.py:95 | `int()` of a value given in hundredths truncates toward zero: the result is the quotient by 100 rounded toward zero, bounded on both sides. |
| Scheduling.ApplyReview | app/models.py:80-99 | A rating outside 1..3 is an error, and only then. The new ease is at least 1.3 and at least the old ease plus the delta, and equals that sum when above the floor. Rating 1 resets repetitions to 0 and the interval to 1. Ratings 2 and 3 add one repetition, and the interval becomes 1, then 6, then the truncated interval × ease. The next review is `now` plus interval days. |
| Scheduling.ScaledIntervalGrows | app/models.py:95 | Scaling an interval of at least one day by an ease of at least 1.3 and truncating never shrinks it. |
| Scheduling.ReviewKeepsValid | app/models.py:80-99 | A valid rating on a card with ease ≥ 1.3, interval ≥ 1 and repetitions ≥ 0 succeeds and keeps all three bounds. |
| Scheduling.SuccessNeverShortens | app/models.py:88-95 | From the third success on, a rating of 2 or 3 never shortens the interval. |
| Scheduling.ReplayKeepsValid | app/models.py:80-99 | Any sequence of ratings, including rejected ones that change nothing, keeps the ease, interval and repetition bounds. |
| Scheduling.DefaultsStayValid | app/models.py:74-77 | A card that starts from the column defaults (ease 2.5, interval 1, repetitions 0) keeps the bounds after any sequence of ratings. |
| Scheduling.ThreeEasyReviews | app/models.py:86-99 | Three easy reviews of a new card give ease 2.6, 2.7, 2.8 and intervals 1, 6, 16 days. |
| Models.Flashcard.constructor | app/models.py:71-78 | A new card has the given question, answer and deck, difficulty 1, ease 2.5, interval 1, repetitions 0, and is due at creation time. |
| Models.Flashcard.UpdateReview | app/models.py:80-100 | In place: a rating outside 1..3 raises and leaves every field unchanged. Otherwise the scheduling fields become exactly `ApplyReview` of the old ones, and question, answer, deck and stored difficulty are untouched. |
| Models.Streak.constructor | app/routes.py:123-125 | A new streak record has count 0 and no study time until it is inserted. |
| Models.Leaderboard.constructor | app/routes.py:116-118 | A new leaderboard entry has score 0. |
| Streaks.DayOf | app/routes.py:126-128 | The calendar day of a timestamp is the day whose 86400-second window contains it. |
| Streaks.StudyDay | app/routes.py:126-136 | The streak is unchanged if there is no study time, or if `now` falls on the same or an earlier day. On the next day the count rises by one and the study time becomes `now`. After a gap of two days or more the count restarts at 1 with study time `now`. |
| Streaks.AfterReview | app/routes.py:122-137 | A missing record ends as count 0 with study time `now` (the insert default). An existing one follows `StudyDay`. |
| Streaks.SameDayIdempotent | app/routes.py:126-136 | Two reviews on one calendar day count as one. |
| Streaks.ConsecutiveDaysExtend | app/routes.py:131-136 | Reviewing on each of n consecutive days after the last counted one adds n to the streak. |
| Streaks.FirstDayNotCounted | app/routes.py:122-137 | A user without a record who reviews on n consecutive days ends with a streak of n − 1. |
| Routes.FirstDue | app/routes.py:100-109 | Returns the index of the first card that belongs to the deck and is due, with no due card of the deck before it, or the number of cards when none is due. |
| Routes.FirstEntry | app/routes.py:115 | Returns the index of the user's first leaderboard entry, with no entry of the user before it, or the number of entries when there is none. |
| Routes.FirstStreak | app/routes.py:122 | Returns the index of the user's first streak record, with no record of the user before it, or the number of records when there is none. |
| Routes.RecordStudy | app/routes.py:126-136 | In place: the record's count and study time become `StudyDay` of the old ones. |
| Routes.Database.LeaderboardEntry | app/routes.py:115-118 | Returns the user's first entry. A fresh entry with score 0 is appended exactly when there was none. Its score is the user's old score, and every other user's score is unchanged. |
| Routes.Database.AddPoint | app/routes.py:115-120 | The user's score rises by exactly one. An existing entry is updated in place and the table is unchanged; otherwise exactly one fresh entry is appended after the old rows. Every old entry except the user's first is unchanged, including a second entry of the same user. Every old entry keeps its user, and every other user's score is unchanged. |
| Routes.Database.StreakRecord | app/routes.py:122-125 | Returns the user's first streak record. A fresh one with count 0 and no study time is appended exactly when there was none. Every other user's streak is unchanged. |
| Routes.Database.AdvanceStreak | app/routes.py:122-137 | The user's streak becomes `AfterReview` of the old one. An existing record is updated in place and the table is unchanged; otherwise exactly one fresh record is appended after the old rows. Every old record except the user's first is unchanged, including a second record of the same user. Every old record keeps its user, and every other user's streak is unchanged. |
| Routes.Database.CreditReview | app/routes.py:115-137 | One recorded review adds one point and advances the streak. Each table either stays as it was or gains exactly one fresh row after the old ones, and every old row except the user's first entry and first record is unchanged. Rows keep their users, and every other user's score and streak are unchanged. |
| Routes.Database.SubmitReview | app/routes.py:111-137 | An invalid rating raises and nothing in the database changes. A valid one reschedules the card by `ApplyReview`, adds one point and advances the streak. The leaderboard and streak tables keep their old rows, gain at most one fresh row each, and only the user's first entry and record change. Rows keep their users, and every other user's score and streak are unchanged. |
| Routes.Database.ReviewDeck | app/routes.py:96-142 | Returns 404 exactly when the deck is missing, and "nothing due" exactly when no card of the deck is due. Otherwise the page is about the first due card. A view or a rejected rating changes nothing. A valid rating reschedules only that card and credits the user's score and streak. The leaderboard and streak tables keep their old rows, gain at most one fresh row each, and only the user's first entry and record change. Rows keep their users, and every other user's score and streak are unchanged. |
| Transfer.DeckCards | app/routes.py:201-205 | The deck's cards as question/answer pairs: never more pairs than cards, and one pair per card when every card belongs to the deck. |
| Transfer.DeckCardsFromDeck | app/routes.py:201-205 | Every exported pair is the question and answer of some card of the deck. |
| Transfer.DeckCardsComplete | app/routes.py:201-205 | The question and answer of every card of the deck are exported. |
| Transfer.CsvRows | app/routes.py:230-232 | The exported rows are the header `Question,Answer`, then one `[question, answer]` row per card, in order. |
| Transfer.ExportCsv | app/routes.py:227-232 | The loop writes exactly `CsvRows` of the deck's cards, in table order. |
| Transfer.ExportJson | app/routes.py:201-206 | The document has exactly the keys title, description and flashcards. The title is the deck's. The description is the deck's, or null when it has none. The flashcards are one `{question, answer}` object per card of the deck, in order. |
| Transfer.ParseAll | app/routes.py:262-268 | Reading the cards succeeds exactly when every element reads. Card i is then what element i gives. |
| Transfer.ParseAllStep | app/routes.py:296-302 | Each loop step either extends the cards read so far or makes its error the error of the whole import. |
| Transfer.RowErrorIsShortRow | app/routes.py:296-301 | Reading CSV rows fails only with a short row. |
| Transfer.RowCard | app/routes.py:298-299 | A row gives a card exactly when it has two or more fields. The card is the first two fields. |
| Transfer.CsvImport | app/routes.py:282-303 | The import is rejected exactly when the name lacks `.csv`, the bytes do not decode, or there is no header row. Otherwise the deck gets the form title (default "Imported Deck") and description (default ""). The cards are imported exactly when every later row has two fields, and card i is row i + 1. Otherwise the deck is left without cards, with a short-row error. |
| Transfer.ImportCsv | app/routes.py:282-303 | The import loop produces exactly `CsvImport`. |
| Transfer.DeckHeader | app/routes.py:254-259 | A header is read exactly when the document is an object with a string "title" and a "description" that is absent, null or a string. The title is that string. The description is "" when absent, none when null, and the string otherwise. |
| Transfer.CardItems | app/routes.py:262 | A missing "flashcards" key is a missing-key error. Iteration succeeds exactly for a list, an empty object or an empty string: a list gives its elements, the other two give none. A non-empty object or string yields strings, which are not cards; any other value cannot be iterated. |
| Transfer.JsonCard | app/routes.py:262-266 | An element gives a card exactly when it is an object with string "question" and "answer". The card holds those two strings. |
| Transfer.JsonImport | app/routes.py:249-277 | The import is rejected exactly when the name lacks `.json`, the document does not parse, or the deck header is unreadable. Otherwise the deck takes the document's title and description, as `DeckHeader` reads them. The cards are imported exactly when "flashcards" can be iterated and every element reads as a card; otherwise the deck is left without cards. Imported cards are, in order, what the "flashcards" elements give. |
| Transfer.ImportJson | app/routes.py:249-277 | The import loop produces exactly `JsonImport`. |
| Transfer.CsvRoundTrip | app/routes.py:228-303 | Importing an exported CSV file, named after the deck, imports all of its cards unchanged. |
| Transfer.JsonRoundTrip | app/routes.py:200-277 | Importing an exported JSON file, named after the deck, gives back the deck's title, description (null included) and cards. |

## Left out

- The database session is not modelled. The following are left out: commits and rollbacks, id assignment, foreign keys, and insertion of imported rows. Imports return the deck and cards they would insert (`ImportOutcome`).
- Flask is not modelled: routing, login, templates, flash messages, redirects and `send_file`. Each page is a method returning an outcome value.
- Request parsing is not modelled. A non-numeric or missing `difficulty` field fails in `int()` (app/routes.py:112) before the review starts; the model receives an integer rating.
- Clocks are not modelled. Every `utcnow()` of one request is the same parameter `now`, so a request straddling midnight is not captured.
- Streaks.StudyDay: an unset study time is read as today in UTC. The source reads it as `datetime.today()`, the local date (app/routes.py:130). West of UTC, late in the local day, that date is one day behind, so a brand-new record would get count 1 instead of 0.
- Scheduling.ApplyReview: the ease factor is exact in hundredths. The source stores a float, whose binary rounding could move `int(interval * ease)` by one day when the product is within rounding error of a whole number.
- Models.Flashcard.UpdateReview: Python's datetime overflow past year 9999 is not modelled. Intervals and timestamps are unbounded integers.
- Transfer.ExportCsv: the csv module's quoting and the UTF-8 encoding are left out. So are line splitting and field splitting on import, so a field containing a line break would not survive a real round trip. Both round trips are stated on rows and on parsed JSON values.
- Transfer.ExportJson: the deck lookup with 404 and the download file name are left out. Export takes a `Deck` value and the card table.
- Transfer.DeckHeader: a non-string title or description is an error (`WrongType`). The source would hand such a value to the database column.
- Transfer.JsonCard: a non-string question or answer is an error (`WrongType`), for the same reason.
- Users, password hashing, forms, configuration, migrations, the dark-mode script and the tests are outside the review core.
- Deck and card creation pages, deck viewing, search, the top-10 leaderboard page, progress and notifications are outside the review core. The `Progress` and `Notification` tables are not modelled.
- The import keeps a deck whose cards failed to read (`DeckOnly`), because app/routes.py:261 and 295 commit the deck before reading the cards. An all-or-nothing import per deck would not leave it. The model follows the code.
- The code never counts a user's first day of study, as `Streaks.FirstDayNotCounted` states. A design that counts it as a streak of 1 is not what the code does, and the model follows the code.
- The three commits of a review (app/models.py:100 inside `update_review`, then app/routes.py:120 and 137) are not one transaction. No step between them can fail once the rating is valid, so the model treats the review as one step.
