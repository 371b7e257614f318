/**
 * Export of a deck as CSV rows or as a JSON document, and import of either,
 * at the level of rows and JSON values: the byte-level encoding, quoting and
 * parsing done by the csv and json libraries are not part of this model.
 */
module Transfer {
  import opened Common
  import opened Models

  /** A card as the export formats carry it: its question and answer only. */
  datatype Card = Card(question: string, answer: string)

  /** A parsed JSON value; an object is a map from keys to values. */
  datatype Json =
    | Null
    | Bool(b: bool)
    | Num(n: int)
    | Str(s: string)
    | Arr(items: seq<Json>)
    | Obj(fields: map<string, Json>)

  /** The question and answer of every card of the deck, in the order the table holds them. */
  function DeckCards(cards: seq<Flashcard>, deckId: int): (r: seq<Card>)
    reads cards
    ensures |r| <= |cards|
    ensures (forall i :: 0 <= i < |cards| ==> cards[i].deckId == deckId) ==> |r| == |cards|
    decreases |cards|
  {
    if cards == [] then []
    else
      var rest := DeckCards(cards[..|cards| - 1], deckId);
      var last := cards[|cards| - 1];
      if last.deckId == deckId then rest + [Card(last.question, last.answer)] else rest
  }

  /** Every exported pair comes from a card of the deck. */
  lemma {:induction false} DeckCardsFromDeck(cards: seq<Flashcard>, deckId: int)
    ensures forall c :: c in DeckCards(cards, deckId) ==>
      exists i :: 0 <= i < |cards| && cards[i].deckId == deckId && c == Card(cards[i].question, cards[i].answer)
    decreases |cards|
  {
    if cards != [] {
      var prefix := cards[..|cards| - 1];
      DeckCardsFromDeck(prefix, deckId);
      forall c | c in DeckCards(cards, deckId)
        ensures exists i :: 0 <= i < |cards| && cards[i].deckId == deckId && c == Card(cards[i].question, cards[i].answer)
      {
        if c in DeckCards(prefix, deckId) {
          var i :| 0 <= i < |prefix| && prefix[i].deckId == deckId && c == Card(prefix[i].question, prefix[i].answer);
          assert cards[i] == prefix[i];
        } else {
          var i := |cards| - 1;
          assert cards[i].deckId == deckId && c == Card(cards[i].question, cards[i].answer);
        }
      }
    }
  }

  /** Every card of the deck is exported. */
  lemma {:induction false} DeckCardsComplete(cards: seq<Flashcard>, deckId: int)
    ensures forall i :: 0 <= i < |cards| && cards[i].deckId == deckId ==>
      Card(cards[i].question, cards[i].answer) in DeckCards(cards, deckId)
    decreases |cards|
  {
    if cards != [] {
      var prefix := cards[..|cards| - 1];
      DeckCardsComplete(prefix, deckId);
      forall i | 0 <= i < |cards| - 1 && cards[i].deckId == deckId
        ensures Card(cards[i].question, cards[i].answer) in DeckCards(cards, deckId)
      {
        assert prefix[i] == cards[i];
      }
    }
  }

  // ---------------------------------------------------------------- export

  const CsvHeader: seq<string> := ["Question", "Answer"]

  function CsvRow(c: Card): seq<string>
  {
    [c.question, c.answer]
  }

  /** The rows of an exported CSV file: the header, then one row per card. */
  function CsvRows(cards: seq<Card>): (rows: seq<seq<string>>)
    ensures |rows| == |cards| + 1 && rows[0] == CsvHeader
    ensures forall i :: 0 <= i < |cards| ==> rows[i + 1] == CsvRow(cards[i])
  {
    [CsvHeader] + seq(|cards|, i requires 0 <= i < |cards| => CsvRow(cards[i]))
  }

  lemma CsvRowsAppend(cards: seq<Card>, c: Card)
    ensures CsvRows(cards + [c]) == CsvRows(cards) + [CsvRow(c)]
  {
  }

  /** Writes the header row and then one row per card of the deck. */
  method ExportCsv(cards: seq<Flashcard>, deckId: int) returns (rows: seq<seq<string>>)
    ensures rows == CsvRows(DeckCards(cards, deckId))
  {
    rows := [CsvHeader];
    var i := 0;
    while i < |cards|
      invariant 0 <= i <= |cards|
      invariant rows == CsvRows(DeckCards(cards[..i], deckId))
    {
      assert cards[..i + 1][..i] == cards[..i];
      var card := cards[i];
      if card.deckId == deckId {
        CsvRowsAppend(DeckCards(cards[..i], deckId), Card(card.question, card.answer));
        rows := rows + [CsvRow(Card(card.question, card.answer))];
      }
      i := i + 1;
    }
    assert cards[..i] == cards;
  }

  function CardJson(c: Card): Json
  {
    Obj(map["question" := Str(c.question), "answer" := Str(c.answer)])
  }

  /** A missing description is written as JSON null. */
  function DescriptionJson(description: Option<string>): Json
  {
    if description.Some? then Str(description.value) else Null
  }

  /** The exported document: title, description and the deck's cards as question/answer objects. */
  function ExportJson(deck: Deck, cards: seq<Flashcard>): (j: Json)
    reads cards
    ensures j.Obj? && j.fields.Keys == {"title", "description", "flashcards"}
    ensures j.fields["title"] == Str(deck.title)
    // a deck without a description exports null
    ensures j.fields["description"] == (if deck.description.Some? then Str(deck.description.value) else Null)
    ensures j.fields["flashcards"].Arr?
    ensures var items, pairs := j.fields["flashcards"].items, DeckCards(cards, deck.id);
      |items| == |pairs| &&
      forall i :: 0 <= i < |items| ==>
        items[i].Obj? && items[i].fields.Keys == {"question", "answer"} &&
        items[i].fields["question"] == Str(pairs[i].question) &&
        items[i].fields["answer"] == Str(pairs[i].answer)
  {
    var pairs := DeckCards(cards, deck.id);
    Obj(map[
      "title" := Str(deck.title),
      "description" := DescriptionJson(deck.description),
      "flashcards" := Arr(seq(|pairs|, i requires 0 <= i < |pairs| => CardJson(pairs[i])))
    ])
  }

  // ---------------------------------------------------------------- import

  datatype ImportError =
    | WrongFileType          // the file name lacks the expected extension
    | Unreadable             // the bytes do not decode or parse
    | MissingHeaderRow       // an empty CSV file: there is no first row to skip
    | ShortRow               // a CSV row with fewer than two fields
    | NotAnObject            // the JSON document is not an object
    | MissingKey(key: string)
    | WrongType(key: string) // a value that is not a string where one is stored
    | NotIterable            // the JSON "flashcards" value cannot be iterated
    | NotACard               // an element of "flashcards" that is not an object

  /**
   * What an import leaves behind. The deck is committed before its cards are
   * read, so an error while reading them leaves the deck, without cards.
   */
  datatype ImportOutcome =
    | Rejected(error: ImportError)
    | DeckOnly(title: string, description: Option<string>, error: ImportError)
    | Imported(title: string, description: Option<string>, cards: seq<Card>)

  /** Reads a card from each element, stopping at the first element that fails. */
  function ParseAll<T>(xs: seq<T>, parse: T -> Result<Card, ImportError>): (r: Result<seq<Card>, ImportError>)
    ensures r.Success? <==> forall i :: 0 <= i < |xs| ==> parse(xs[i]).Success?
    ensures r.Success? ==>
      |r.value| == |xs| && forall i :: 0 <= i < |xs| ==> parse(xs[i]) == Success(r.value[i])
    decreases |xs|
  {
    if xs == [] then Success([])
    else
      var prefix := xs[..|xs| - 1];
      assert forall i :: 0 <= i < |prefix| ==> prefix[i] == xs[i];
      match ParseAll(prefix, parse)
      case Failure(e) => Failure(e)
      case Success(cards) =>
        match parse(xs[|xs| - 1])
        case Failure(e) => Failure(e)
        case Success(c) => Success(cards + [c])
  }

  /**
   * Once the first i elements have been read, the next element either extends
   * the cards read so far or its error is the error of the whole sequence.
   */
  lemma {:induction false} ParseAllStep<T>(xs: seq<T>, parse: T -> Result<Card, ImportError>, i: nat, cards: seq<Card>)
    requires i < |xs| && ParseAll(xs[..i], parse) == Success(cards)
    ensures parse(xs[i]).Success? ==> ParseAll(xs[..i + 1], parse) == Success(cards + [parse(xs[i]).value])
    ensures parse(xs[i]).Failure? ==> ParseAll(xs, parse) == Failure(parse(xs[i]).error)
    decreases |xs|
  {
    assert xs[..i + 1][..i] == xs[..i];
    if parse(xs[i]).Failure? && i + 1 < |xs| {
      var prefix := xs[..|xs| - 1];
      assert prefix[..i] == xs[..i] && prefix[i] == xs[i];
      ParseAllStep(prefix, parse, i, cards);
    } else if i + 1 == |xs| {
      assert xs[..i + 1] == xs;
    }
  }

  const DefaultCsvTitle: string := "Imported Deck"

  /** A CSV row becomes a card from its first two fields; a shorter row raises. */
  function RowCard(row: seq<string>): (r: Result<Card, ImportError>)
    ensures r.Success? <==> |row| >= 2
    ensures r.Success? ==> r.value == Card(row[0], row[1])
  {
    if |row| < 2 then Failure(ShortRow) else Success(Card(row[0], row[1]))
  }

  /** Rows fail to read only because one of them is short. */
  lemma {:induction false} RowErrorIsShortRow(rows: seq<seq<string>>)
    ensures ParseAll(rows, RowCard).Failure? ==> ParseAll(rows, RowCard).error == ShortRow
    decreases |rows|
  {
    if rows != [] {
      RowErrorIsShortRow(rows[..|rows| - 1]);
    }
  }

  /**
   * Importing CSV rows (None when the upload does not decode) with the title
   * and description form fields (None when absent). The first row is skipped.
   */
  function CsvImport(filename: string, rows: Option<seq<seq<string>>>,
                     title: Option<string>, description: Option<string>): (r: ImportOutcome)
    ensures !EndsWith(filename, ".csv") ==> r == Rejected(WrongFileType)
    // once a CSV file has a first row, the deck is created with the form's fields or their defaults
    ensures r.Rejected? <==> !EndsWith(filename, ".csv") || rows.None? || rows.value == []
    ensures !r.Rejected? ==>
      r.title == (if title.Some? then title.value else DefaultCsvTitle) &&
      r.description == Some(if description.Some? then description.value else "")
    // every row after the first must have two fields, else the deck is left without cards
    ensures r.Imported? <==>
      !r.Rejected? && forall i :: 1 <= i < |rows.value| ==> |rows.value[i]| >= 2
    ensures r.DeckOnly? ==> r.error == ShortRow
    ensures r.Imported? ==>
      |r.cards| == |rows.value| - 1 &&
      forall i :: 1 <= i < |rows.value| ==> r.cards[i - 1] == Card(rows.value[i][0], rows.value[i][1])
  {
    if !EndsWith(filename, ".csv") then Rejected(WrongFileType)
    else if rows.None? then Rejected(Unreadable)
    else if rows.value == [] then Rejected(MissingHeaderRow)
    else
      var deckTitle := if title.Some? then title.value else DefaultCsvTitle;
      var deckDescription := Some(if description.Some? then description.value else "");
      RowErrorIsShortRow(rows.value[1..]);
      match ParseAll(rows.value[1..], RowCard)
      case Failure(e) => DeckOnly(deckTitle, deckDescription, e)
      case Success(cards) => Imported(deckTitle, deckDescription, cards)
  }

  /** Creates the deck, then one card per row after the first, from row[0] and row[1]. */
  method ImportCsv(filename: string, rows: Option<seq<seq<string>>>,
                   title: Option<string>, description: Option<string>) returns (r: ImportOutcome)
    ensures r == CsvImport(filename, rows, title, description)
  {
    if !EndsWith(filename, ".csv") {
      return Rejected(WrongFileType);
    }
    if rows.None? {
      return Rejected(Unreadable);
    }
    var data := rows.value;
    if data == [] {
      return Rejected(MissingHeaderRow);
    }
    var deckTitle := if title.Some? then title.value else DefaultCsvTitle;
    var deckDescription := Some(if description.Some? then description.value else "");
    var body := data[1..];
    var cards: seq<Card> := [];
    var i := 0;
    while i < |body|
      invariant 0 <= i <= |body|
      invariant ParseAll(body[..i], RowCard) == Success(cards)
    {
      var row := body[i];
      ParseAllStep(body, RowCard, i, cards);
      if |row| < 2 {
        return DeckOnly(deckTitle, deckDescription, ShortRow);
      }
      cards := cards + [Card(row[0], row[1])];
      i := i + 1;
    }
    assert body[..i] == body;
    r := Imported(deckTitle, deckDescription, cards);
  }

  /**
   * The deck fields of a JSON document: "title" is required; a missing
   * "description" reads as the empty string and null as no description.
   */
  function DeckHeader(data: Json): (r: Result<(string, Option<string>), ImportError>)
    ensures r.Success? <==>
      data.Obj? && "title" in data.fields && data.fields["title"].Str? &&
      ("description" in data.fields ==> data.fields["description"].Null? || data.fields["description"].Str?)
    ensures r.Success? ==> data.fields["title"] == Str(r.value.0)
    // data.get('description', ''): a missing key reads as "", null as no description
    ensures r.Success? && "description" !in data.fields ==> r.value.1 == Some("")
    ensures r.Success? && "description" in data.fields && data.fields["description"].Null? ==> r.value.1 == None
    ensures r.Success? && "description" in data.fields && data.fields["description"].Str? ==>
      r.value.1 == Some(data.fields["description"].s)
  {
    if !data.Obj? then Failure(NotAnObject)
    else if "title" !in data.fields then Failure(MissingKey("title"))
    else if !data.fields["title"].Str? then Failure(WrongType("title"))
    else
      var title := data.fields["title"].s;
      if "description" !in data.fields then Success((title, Some("")))
      else
        match data.fields["description"]
        case Null => Success((title, None))
        case Str(d) => Success((title, Some(d)))
        case _ => Failure(WrongType("description"))
  }

  /**
   * The elements iterated over for "flashcards": a list gives its elements;
   * an empty object or empty string gives none; iterating a non-empty object
   * or string yields strings, which are not cards.
   */
  function CardItems(data: Json): (r: Result<seq<Json>, ImportError>)
    requires data.Obj?
    // data['flashcards'] raises KeyError when the key is missing
    ensures "flashcards" !in data.fields ==> r == Failure(MissingKey("flashcards"))
    // iteration succeeds for a list, and for an object or string only when it is empty
    ensures r.Success? <==>
      "flashcards" in data.fields &&
      match data.fields["flashcards"]
      case Arr(_) => true
      case Obj(m) => m == map[]
      case Str(t) => t == ""
      case _ => false
    ensures r.Success? ==>
      r.value == (if data.fields["flashcards"].Arr? then data.fields["flashcards"].items else [])
    // a non-empty object or string yields strings, which are not card objects
    ensures "flashcards" in data.fields && r.Failure? ==>
      r.error == (if data.fields["flashcards"].Obj? || data.fields["flashcards"].Str? then NotACard else NotIterable)
  {
    if "flashcards" !in data.fields then Failure(MissingKey("flashcards"))
    else
      match data.fields["flashcards"]
      case Arr(items) => Success(items)
      case Obj(m) => if m == map[] then Success([]) else Failure(NotACard)
      case Str(s) => if s == "" then Success([]) else Failure(NotACard)
      case _ => Failure(NotIterable)
  }

  /** An element of "flashcards" becomes a card from its "question" and "answer" strings. */
  function JsonCard(v: Json): (r: Result<Card, ImportError>)
    ensures r.Success? <==>
      v.Obj? && "question" in v.fields && "answer" in v.fields &&
      v.fields["question"].Str? && v.fields["answer"].Str?
    ensures r.Success? ==> r.value == Card(v.fields["question"].s, v.fields["answer"].s)
  {
    if !v.Obj? then Failure(NotACard)
    else if "question" !in v.fields then Failure(MissingKey("question"))
    else if "answer" !in v.fields then Failure(MissingKey("answer"))
    else if !v.fields["question"].Str? then Failure(WrongType("question"))
    else if !v.fields["answer"].Str? then Failure(WrongType("answer"))
    else Success(Card(v.fields["question"].s, v.fields["answer"].s))
  }

  /** Importing a JSON upload (None when it does not parse). */
  function JsonImport(filename: string, parsed: Option<Json>): (r: ImportOutcome)
    ensures !EndsWith(filename, ".json") ==> r == Rejected(WrongFileType)
    ensures r.Rejected? <==>
      !EndsWith(filename, ".json") || parsed.None? || DeckHeader(parsed.value).Failure?
    // the deck takes the document's title and description
    ensures !r.Rejected? ==>
      parsed.value.Obj? && parsed.value.fields["title"] == Str(r.title) &&
      (r.title, r.description) == DeckHeader(parsed.value).value
    // the cards are imported exactly when every element of "flashcards" reads as a card
    ensures r.Imported? <==>
      !r.Rejected? && CardItems(parsed.value).Success? &&
      forall i :: 0 <= i < |CardItems(parsed.value).value| ==> JsonCard(CardItems(parsed.value).value[i]).Success?
    // its cards are what the "flashcards" elements give, in order
    ensures r.Imported? ==>
      "flashcards" in parsed.value.fields &&
      var v := parsed.value.fields["flashcards"];
      (v.Arr? ==> |r.cards| == |v.items| &&
                  forall i :: 0 <= i < |v.items| ==> JsonCard(v.items[i]) == Success(r.cards[i])) &&
      (!v.Arr? ==> r.cards == [])
  {
    if !EndsWith(filename, ".json") then Rejected(WrongFileType)
    else if parsed.None? then Rejected(Unreadable)
    else
      match DeckHeader(parsed.value)
      case Failure(e) => Rejected(e)
      case Success((title, description)) =>
        match CardItems(parsed.value)
        case Failure(e) => DeckOnly(title, description, e)
        case Success(items) =>
          match ParseAll(items, JsonCard)
          case Failure(e) => DeckOnly(title, description, e)
          case Success(cards) => Imported(title, description, cards)
  }

  /** Creates the deck from the document, then one card per element of "flashcards". */
  method ImportJson(filename: string, parsed: Option<Json>) returns (r: ImportOutcome)
    ensures r == JsonImport(filename, parsed)
  {
    if !EndsWith(filename, ".json") {
      return Rejected(WrongFileType);
    }
    if parsed.None? {
      return Rejected(Unreadable);
    }
    var data := parsed.value;
    var header := DeckHeader(data);
    if header.Failure? {
      return Rejected(header.error);
    }
    var (title, description) := header.value;
    var items := CardItems(data);
    if items.Failure? {
      return DeckOnly(title, description, items.error);
    }
    var elements := items.value;
    var cards: seq<Card> := [];
    var i := 0;
    while i < |elements|
      invariant 0 <= i <= |elements|
      invariant ParseAll(elements[..i], JsonCard) == Success(cards)
    {
      var card := JsonCard(elements[i]);
      ParseAllStep(elements, JsonCard, i, cards);
      if card.Failure? {
        return DeckOnly(title, description, card.error);
      }
      cards := cards + [card.value];
      i := i + 1;
    }
    assert elements[..i] == elements;
    r := Imported(title, description, cards);
  }

  // ---------------------------------------------------------------- round trips

  /**
   * Importing the rows of an exported CSV file, under the download name the
   * export gives it, reproduces the cards' questions and answers in order.
   */
  lemma CsvRoundTrip(deck: Deck, cards: seq<Card>, title: Option<string>, description: Option<string>)
    ensures CsvImport(deck.title + ".csv", Some(CsvRows(cards)), title, description).Imported?
    ensures CsvImport(deck.title + ".csv", Some(CsvRows(cards)), title, description).cards == cards
  {
  }

  /**
   * Importing an exported JSON document, under the download name the export
   * gives it, reproduces the deck's title, description and the cards'
   * questions and answers in order.
   */
  lemma JsonRoundTrip(deck: Deck, cards: seq<Flashcard>)
    ensures JsonImport(deck.title + ".json", Some(ExportJson(deck, cards))) ==
      Imported(deck.title, deck.description, DeckCards(cards, deck.id))
  {
  }
}
